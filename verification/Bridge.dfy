/** The event bridge of an API instance: a per-task high-water mark over the copies it receives. */
module Bridge {
  import opened Backoffs
  import opened Domain
  import opened Store
  import opened Relay

  /** One decoded delivery to the bridge, and whether the sink would accept it. */
  datatype Attempt = Attempt(id: EventId, sinkOk: bool)

  function Last(last: map<string, int>, task: string): int {
    if task in last then last[task] else 0
  }

  predicate Seen(last: map<string, int>, e: EventId) {
    e.number <= Last(last, e.task)
  }

  function Remember(last: map<string, int>, e: EventId): map<string, int> {
    if e.number > Last(last, e.task) then last[e.task := e.number] else last
  }

  /** The mark never goes back, and only its own task's moves. */
  lemma MarkIsHighest(last: map<string, int>, e: EventId, task: string)
    ensures Last(Remember(last, e), task) ==
            if task == e.task && e.number > Last(last, task) then e.number else Last(last, task)
  {
  }

  predicate Passes(last: map<string, int>, a: Attempt) {
    !Seen(last, a.id) && a.sinkOk
  }

  function After(last: map<string, int>, a: Attempt): map<string, int> {
    if Passes(last, a) then Remember(last, a.id) else last
  }

  /** The events handed to the sink, in order. */
  function Handed(last: map<string, int>, attempts: seq<Attempt>): seq<EventId>
    decreases |attempts|
  {
    if attempts == [] then []
    else (if Passes(last, attempts[0]) then [attempts[0].id] else []) + Handed(After(last, attempts[0]), attempts[1..])
  }

  function LastAfter(last: map<string, int>, attempts: seq<Attempt>): map<string, int>
    decreases |attempts|
  {
    if attempts == [] then last else LastAfter(After(last, attempts[0]), attempts[1..])
  }

  lemma {:induction false} HandedSnoc(last: map<string, int>, attempts: seq<Attempt>, a: Attempt)
    ensures LastAfter(last, attempts + [a]) == After(LastAfter(last, attempts), a)
    ensures Handed(last, attempts + [a])
         == Handed(last, attempts) + if Passes(LastAfter(last, attempts), a) then [a.id] else []
    decreases |attempts|
  {
    if attempts == [] {
      assert attempts + [a] == [a] && [a][1..] == [];
    } else {
      assert (attempts + [a])[1..] == attempts[1..] + [a];
      HandedSnoc(After(last, attempts[0]), attempts[1..], a);
    }
  }

  /** An accepted copy of `e` at position i that no accepted copy of the same or a later event of
      the task precedes. */
  ghost predicate Leads(attempts: seq<Attempt>, e: EventId, i: nat) {
    && i < |attempts| && attempts[i] == Attempt(e, true)
    && forall j: nat | j < i && attempts[j].sinkOk && attempts[j].id.task == e.task :: attempts[j].id.number < e.number
  }

  /** Exactly which events get through, whatever duplicates, stale copies and sink failures there
      are: an event is handed on if and only if it is above the mark and some accepted copy of it
      comes before every accepted copy of the same or a later event. */
  lemma {:induction false} HandedExactly(last: map<string, int>, attempts: seq<Attempt>, e: EventId)
    ensures e in Handed(last, attempts) <==> e.number > Last(last, e.task) && exists i: nat :: Leads(attempts, e, i)
    decreases |attempts|
  {
    if attempts != [] {
      var a, rest := attempts[0], attempts[1..];
      HandedExactly(After(last, a), rest, e);
      if a == Attempt(e, true) {
        assert Leads(attempts, e, 0);
      }
      if i: nat :| Leads(rest, e, i) {
        if !(a.sinkOk && a.id.task == e.task && a.id.number >= e.number) {
          LeadsShift(attempts, e, i);
        }
      }
      if i: nat :| Leads(attempts, e, i) {
        assert i > 0 && a.sinkOk && a.id.task == e.task ==> a.id.number < e.number;
        if i > 0 {
          forall j: nat | j < i - 1 && rest[j].sinkOk && rest[j].id.task == e.task
            ensures rest[j].id.number < e.number
          {
            assert attempts[j + 1] == rest[j];
          }
          assert Leads(rest, e, i - 1);
        }
      }
    }
  }

  lemma LeadsShift(attempts: seq<Attempt>, e: EventId, i: nat)
    requires attempts != [] && Leads(attempts[1..], e, i)
    requires !(attempts[0].sinkOk && attempts[0].id.task == e.task && attempts[0].id.number >= e.number)
    ensures Leads(attempts, e, i + 1)
  {
    forall j: nat | j < i + 1 && attempts[j].sinkOk && attempts[j].id.task == e.task
      ensures attempts[j].id.number < e.number
    {
      if j > 0 { assert attempts[1..][j - 1] == attempts[j]; }
    }
  }

  /** So a refused copy can be lost for good: when the event after it is accepted before the refused
      one comes back, the redelivery is taken for a duplicate. */
  lemma RefusedCopyCanBeLost(task: string)
    ensures var (one, two) := (EventId(task, 1), EventId(task, 2));
            Handed(map[], [Attempt(one, false), Attempt(two, true), Attempt(one, true)]) == [two]
  {
    var (one, two) := (EventId(task, 1), EventId(task, 2));
    var attempts := [Attempt(one, false), Attempt(two, true), Attempt(one, true)];
    assert attempts[1..] == [Attempt(two, true), Attempt(one, true)] && attempts[1..][1..] == [Attempt(one, true)];
    assert Handed(map[task := 2], [Attempt(one, true)]) == [];
    assert After(map[], Attempt(one, false)) == map[] && After(map[], Attempt(two, true)) == map[task := 2];
  }

  ghost predicate Increasing(events: seq<EventId>) {
    forall i, j | 0 <= i < j < |events| && events[i].task == events[j].task :: events[i].number < events[j].number
  }

  /** What the sink accepts of a task strictly increases: no duplicate and nothing out of order. */
  lemma {:induction false} HandedIncreases(last: map<string, int>, attempts: seq<Attempt>)
    ensures Increasing(Handed(last, attempts))
    ensures forall e | e in Handed(last, attempts) :: e.number > Last(last, e.task)
    decreases |attempts|
  {
    if attempts != [] {
      var a := attempts[0];
      HandedIncreases(After(last, a), attempts[1..]);
      var rest := Handed(After(last, a), attempts[1..]);
      assert forall i | 0 <= i < |rest| :: rest[i] in rest;
      assert forall task :: Last(After(last, a), task) >= Last(last, task);
    }
  }

  // ---------------------------------------------------------------- a connected bridge

  /** Position of the first copy of an event in the log. */
  ghost predicate FirstCopy(log: seq<Copy>, e: EventId, i: nat) {
    i < |log| && log[i].id == e && forall j | 0 <= j < i :: log[j].id != e
  }

  /** In a log in first-copy order, a copy of event n is preceded by copies of all earlier events. */
  lemma {:induction false} CopiesBelow(log: seq<Copy>, i: nat, number: int)
    requires FirstCopyOrder(log) && i < |log| && 1 <= number <= log[i].id.number
    ensures exists j: nat :: j <= i && log[j].id == EventId(log[i].id.task, number)
    decreases log[i].id.number - number
  {
    if number == log[i].id.number {
      assert log[i].id == EventId(log[i].id.task, number);
    } else {
      var e := EventId(log[i].id.task, log[i].id.number - 1);
      assert Broadcast(log[..i], e);
      var k :| 0 <= k < |log[..i]| && log[..i][k] == Copy(e, true);
      CopiesBelow(log, k, number);
    }
  }

  /** What a bridge connected from position `joined` has received by position `upTo`, with no sink failure. */
  function Received(log: seq<Copy>, joined: nat, upTo: nat): (r: seq<Attempt>)
    requires joined <= upTo <= |log|
    ensures |r| == upTo - joined && forall i | 0 <= i < |r| :: r[i] == Attempt(log[joined + i].id, true)
  {
    seq(upTo - joined, i requires 0 <= i < upTo - joined => Attempt(log[joined + i].id, true))
  }

  /** Lossless dedup: an event whose first copy arrives after the bridge joined is always handed on,
      despite duplicates and stale re-sends of earlier events around it. */
  lemma NothingNewIsDropped(log: seq<Copy>, joined: nat, upTo: nat, e: EventId, i: nat)
    requires FirstCopyOrder(log) && joined <= i < upTo <= |log|
    requires FirstCopy(log, e, i) && e.number >= 1
    ensures e in Handed(map[], Received(log, joined, upTo))
  {
    hide Handed, FirstCopyOrder;
    var r := Received(log, joined, upTo);
    forall j: nat | j < i - joined && r[j].id.task == e.task
      ensures r[j].id.number < e.number
    {
      if r[j].id.number >= e.number {
        CopiesBelow(log, joined + j, e.number);
      }
    }
    assert Leads(r, e, i - joined);
    HandedExactly(map[], r, e);
  }

  // ---------------------------------------------------------------- the bridge object

  /** The wire form of a delivery: headers that may be missing, and whether the body is JSON. */
  datatype Delivery = Delivery(task: Option<string>, number: Option<int>, json: bool)

  function Decode(d: Delivery): Option<EventId> {
    if d.task == None || d.task.value == "" then None
    else if d.number == None || d.number.value <= 0 then None
    else if !d.json then None
    else Some(EventId(d.task.value, d.number.value))
  }

  /** A delivery makes an event if and only if it names a task, carries a positive number and has a JSON
      body; and then exactly that one. */
  lemma DecodedExactly(d: Delivery, e: EventId)
    ensures Decode(d) == Some(e) <==>
              d.task == Some(e.task) && e.task != "" && d.number == Some(e.number) && e.number >= 1 && d.json
  {
  }

  datatype Verdict = Ack | Requeue

  /** A delivery with what its handling meets: whether the sink accepts, whether the call on the channel
      goes through, and whether the wait after a refused event runs to its end. */
  datatype Arrival = Arrival(delivery: Delivery, sinkOk: bool, channelOk: bool, waited: bool)

  /** The decodable deliveries, in order, with what the sink says of them. */
  function AttemptsOf(arrivals: seq<Arrival>): seq<Attempt> {
    if arrivals == [] then []
    else
      var a := arrivals[|arrivals| - 1];
      AttemptsOf(arrivals[..|arrivals| - 1])
          + match Decode(a.delivery) case None => [] case Some(e) => [Attempt(e, a.sinkOk)]
  }

  /** Whether the session survives this delivery, given the mark it meets. */
  predicate Survives(last: map<string, int>, a: Arrival) {
    a.channelOk && (Decode(a.delivery).None? || Seen(last, Decode(a.delivery).value) || a.sinkOk || a.waited)
  }

  /** How many of the last refusals in a row have had no accepted event between them. */
  function Refusals(last: map<string, int>, attempts: seq<Attempt>): nat
    decreases |attempts|
  {
    if attempts == [] then 0
    else
      var before, a := attempts[..|attempts| - 1], attempts[|attempts| - 1];
      if Seen(LastAfter(last, before), a.id) then Refusals(last, before)
      else if a.sinkOk then 0 else Refusals(last, before) + 1
  }

  class MetricEventBridge {
    const sinkFailureBackoff: nat
    const sinkFailureMaxBackoff: nat
    var last: map<string, int>
    /** What the sink has accepted, in order. */
    var handed: seq<EventId>
    var sinkBackoff: nat

    constructor (initial: nat, max: nat)
      requires 0 < initial <= max
      ensures last == map[] && handed == [] && sinkBackoff == initial
      ensures sinkFailureBackoff == initial && sinkFailureMaxBackoff == max
    {
      sinkFailureBackoff, sinkFailureMaxBackoff := initial, max;
      last, handed, sinkBackoff := map[], [], initial;
    }

    /** One delivery. Nothing undecodable and nothing seen reaches the sink; a refused event leaves the
        mark where it was, stays with the broker, and doubles the wait up to its cap. */
    method Receive(a: Arrival) returns (verdict: Verdict, alive: bool)
      modifies this
      ensures alive == Survives(old(last), a)
      ensures Decode(a.delivery).None? || Seen(old(last), Decode(a.delivery).value) ==>
                verdict == Ack && last == old(last) && handed == old(handed) && sinkBackoff == old(sinkBackoff)
      ensures Decode(a.delivery).Some? && !Seen(old(last), Decode(a.delivery).value) && a.sinkOk ==>
                && verdict == Ack && last == Remember(old(last), Decode(a.delivery).value)
                && handed == old(handed) + [Decode(a.delivery).value] && sinkBackoff == sinkFailureBackoff
      ensures Decode(a.delivery).Some? && !Seen(old(last), Decode(a.delivery).value) && !a.sinkOk ==>
                && verdict == Requeue && last == old(last) && handed == old(handed)
                && (alive ==> sinkBackoff == Next(old(sinkBackoff), sinkFailureMaxBackoff))
    {
      verdict := Ack;
      var decoded := Decode(a.delivery);
      if decoded == None {
        return Ack, a.channelOk;
      }
      var event := decoded.value;
      if event.number <= (if event.task in last then last[event.task] else 0) {
        return Ack, a.channelOk;
      }
      if !a.sinkOk {
        if !a.channelOk || !a.waited {
          return Requeue, false;
        }
        sinkBackoff := Next(sinkBackoff, sinkFailureMaxBackoff);
        return Requeue, true;
      }
      handed := handed + [event];
      sinkBackoff := sinkFailureBackoff;
      if event.number > (if event.task in last then last[event.task] else 0) {
        last := last[event.task := event.number];
      }
      alive := a.channelOk;
    }

    /** A session over its deliveries. It handles them in order, every one, until one after which it
        cannot go on; and what it hands on, what it remembers and how long it would wait next are the
        filter's answer for exactly the decodable ones among them. */
    method ConsumeSession(arrivals: seq<Arrival>) returns (handled: nat, alive: bool)
      requires sinkFailureBackoff <= sinkFailureMaxBackoff
      modifies this
      ensures handled <= |arrivals|
      ensures alive ==> handled == |arrivals|
      ensures !alive ==> handled > 0
      ensures forall i | 0 <= i < handled ::
                Survives(LastAfter(old(last), AttemptsOf(arrivals[..i])), arrivals[i]) <==> i < handled - 1 || alive
      ensures last == LastAfter(old(last), AttemptsOf(arrivals[..handled]))
      ensures handed == old(handed) + Handed(old(last), AttemptsOf(arrivals[..handled]))
      ensures alive ==>
                var refusals := Refusals(old(last), AttemptsOf(arrivals));
                sinkBackoff == Capped(sinkFailureBackoff, sinkFailureMaxBackoff, refusals)
    {
      hide Handed, LastAfter, Refusals, Capped, AttemptsOf, Decode;
      sinkBackoff := sinkFailureBackoff;
      SessionStart(last, sinkFailureBackoff, sinkFailureMaxBackoff);
      assert arrivals[..0] == [];
      for index := 0 to |arrivals|
        invariant last == LastAfter(old(last), AttemptsOf(arrivals[..index]))
        invariant handed == old(handed) + Handed(old(last), AttemptsOf(arrivals[..index]))
        invariant sinkBackoff == Capped(sinkFailureBackoff, sinkFailureMaxBackoff,
                    Refusals(old(last), AttemptsOf(arrivals[..index])))
        invariant forall i | 0 <= i < index :: Survives(LastAfter(old(last), AttemptsOf(arrivals[..i])), arrivals[i])
      {
        SessionStep(old(last), arrivals, index, sinkFailureBackoff, sinkFailureMaxBackoff);
        var verdict;
        verdict, alive := Receive(arrivals[index]);
        if !alive {
          return index + 1, false;
        }
      }
      assert arrivals[..|arrivals|] == arrivals;
      handled, alive := |arrivals|, true;
    }
  }

  lemma SessionStart(last: map<string, int>, initial: nat, max: nat)
    requires initial <= max
    ensures AttemptsOf([]) == [] && LastAfter(last, []) == last && Handed(last, []) == []
    ensures Capped(initial, max, Refusals(last, [])) == initial
  {
    CappedStart(initial, max);
  }

  lemma SessionStep(last: map<string, int>, arrivals: seq<Arrival>, index: nat, initial: nat, max: nat)
    requires index < |arrivals| && initial <= max
    ensures var (before, after) := (AttemptsOf(arrivals[..index]), AttemptsOf(arrivals[..index + 1]));
            var a := arrivals[index];
            && (Decode(a.delivery).None? ==> after == before)
            && (Decode(a.delivery).Some? ==>
                 var (e, mark) := (Decode(a.delivery).value, LastAfter(last, before));
                 && LastAfter(last, after) == (if Seen(mark, e) || !a.sinkOk then mark else Remember(mark, e))
                 && Handed(last, after) == Handed(last, before) + (if Seen(mark, e) || !a.sinkOk then [] else [e])
                 && Capped(initial, max, Refusals(last, after)) ==
                      if Seen(mark, e) then Capped(initial, max, Refusals(last, before))
                      else if a.sinkOk then initial
                      else Next(Capped(initial, max, Refusals(last, before)), max))
  {
    hide Handed, LastAfter, Decode, Capped;
    var before, a := AttemptsOf(arrivals[..index]), arrivals[index];
    assert arrivals[..index + 1][..index] == arrivals[..index];
    if Decode(a.delivery).Some? {
      var attempt := Attempt(Decode(a.delivery).value, a.sinkOk);
      assert AttemptsOf(arrivals[..index + 1]) == before + [attempt];
      HandedSnoc(last, before, attempt);
      assert (before + [attempt])[..|before|] == before;
      CappedStart(initial, max);
      CappedDoubles(initial, max, Refusals(last, before));
    } else {
      assert before + [] == before;
    }
  }
}
