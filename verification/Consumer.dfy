/** One consume session of the worker on values: how deliveries are cut into batches, and what each
    flush outcome does to the deliveries it touches. */
module Consumer {
  import opened Backoffs
  import opened Domain

  datatype Verdict = Ack | Requeue | DeadLetter

  datatype Config = Config(batchMax: nat, failureBackoff: nat, failureMaxBackoff: nat) {
    predicate Valid() {
      0 < batchMax && 0 < failureBackoff <= failureMaxBackoff
    }
  }

  /** One delivery of broker message `msg`, expanded to `rows`: `fed` of them have been buffered,
      `committed` have been flushed; `verdicts` are the calls made on the delivery. */
  datatype Tracker = Tracker(
    msg: nat, rows: seq<MetricPoint>, fed: nat, committed: nat, terminal: bool, verdicts: seq<Verdict>)

  /** A buffered point and the delivery (its position among the session's deliveries) it belongs to. */
  datatype Item = Item(point: MetricPoint, tag: nat)

  datatype Session = Session(buffer: seq<Item>, trackers: seq<Tracker>, armed: bool, backoff: nat, failures: nat)

  function Opened(cfg: Config): Session {
    Session([], [], false, cfg.failureBackoff, 0)
  }

  /** The wait after `failures` straight failures: min(F * 2^k, Max). */
  function BackoffAfter(cfg: Config, failures: nat): nat {
    Capped(cfg.failureBackoff, cfg.failureMaxBackoff, failures)
  }

  /** The points of one delivery in the buffer, in buffer order. */
  function ItemsOf(buffer: seq<Item>, tag: nat): seq<MetricPoint> {
    if buffer == [] then []
    else
      var last := buffer[|buffer| - 1];
      ItemsOf(buffer[..|buffer| - 1], tag) + if last.tag == tag then [last.point] else []
  }

  function Points(buffer: seq<Item>): (r: seq<MetricPoint>)
    ensures |r| == |buffer| && forall i | 0 <= i < |r| :: r[i] == buffer[i].point
  {
    seq(|buffer|, i requires 0 <= i < |buffer| => buffer[i].point)
  }

  // ---------------------------------------------------------------- the session's steps

  function Begin(s: Session, msg: nat, rows: seq<MetricPoint>): Session {
    s.(trackers := s.trackers + [Tracker(msg, rows, 0, 0, false, [])])
  }

  /** A delivery that fails validation is negatively acknowledged without requeue. */
  function Reject(s: Session, msg: nat): Session {
    s.(trackers := s.trackers + [Tracker(msg, [], 0, 0, true, [DeadLetter])])
  }

  predicate CanAppend(cfg: Config, s: Session, tag: nat) {
    && tag < |s.trackers| && |s.buffer| < cfg.batchMax
    && !s.trackers[tag].terminal && s.trackers[tag].fed < |s.trackers[tag].rows|
  }

  /** Buffer the delivery's next point and start the flush timer if it is not running. */
  function Append(s: Session, tag: nat): Session
    requires tag < |s.trackers| && s.trackers[tag].fed < |s.trackers[tag].rows|
  {
    var t := s.trackers[tag];
    s.(buffer := s.buffer + [Item(t.rows[t.fed], tag)],
       trackers := s.trackers[tag := t.(fed := t.fed + 1)],
       armed := true)
  }

  /** One delivery's share of a committed flush. */
  function Settle(t: Tracker, rows: nat): Tracker {
    if rows == 0 || t.terminal then t
    else if t.committed + rows == |t.rows|
    then t.(committed := t.committed + rows, terminal := true, verdicts := t.verdicts + [Ack])
    else t.(committed := t.committed + rows)
  }

  /** One delivery's share of a failed flush. */
  function Abandon(t: Tracker, rows: nat): Tracker {
    if rows == 0 then t else t.(terminal := true, verdicts := t.verdicts + [Requeue])
  }

  function SettledAll(trackers: seq<Tracker>, buffer: seq<Item>): (r: seq<Tracker>)
    ensures |r| == |trackers| && forall i | 0 <= i < |r| :: r[i] == Settle(trackers[i], |ItemsOf(buffer, i)|)
  {
    seq(|trackers|, i requires 0 <= i < |trackers| => Settle(trackers[i], |ItemsOf(buffer, i)|))
  }

  function AbandonedAll(trackers: seq<Tracker>, buffer: seq<Item>): (r: seq<Tracker>)
    ensures |r| == |trackers| && forall i | 0 <= i < |r| :: r[i] == Abandon(trackers[i], |ItemsOf(buffer, i)|)
  {
    seq(|trackers|, i requires 0 <= i < |trackers| => Abandon(trackers[i], |ItemsOf(buffer, i)|))
  }

  function Committed(cfg: Config, s: Session): (next: Session)
    ensures |next.trackers| == |s.trackers|
  {
    if s.buffer == [] then s.(armed := false)
    else
      Session([], SettledAll(s.trackers, s.buffer), false, cfg.failureBackoff, 0)
  }

  function Failed(cfg: Config, s: Session): (next: Session)
    ensures |next.trackers| == |s.trackers|
  {
    if s.buffer == [] then s.(armed := false)
    else
      Session([], AbandonedAll(s.trackers, s.buffer), false, Next(s.backoff, cfg.failureMaxBackoff), s.failures + 1)
  }

  function Flushed(cfg: Config, s: Session, ok: bool): (next: Session)
    ensures |next.trackers| == |s.trackers|
  {
    if ok then Committed(cfg, s) else Failed(cfg, s)
  }

  /** Buffer the rest of a delivery, flushing whenever the buffer is full; `script` holds the
      outcomes of the flushes, in order. The second result is what is left of the script. */
  function Feed(cfg: Config, s: Session, tag: nat, script: seq<bool>): (Session, seq<bool>)
    requires tag < |s.trackers|
    decreases if s.trackers[tag].fed < |s.trackers[tag].rows| then |s.trackers[tag].rows| - s.trackers[tag].fed else 0
  {
    if s.trackers[tag].terminal || s.trackers[tag].fed >= |s.trackers[tag].rows| then (s, script)
    else
      var next := Append(s, tag);
      if |next.buffer| == cfg.batchMax && script != []
      then Feed(cfg, Flushed(cfg, next, script[0]), tag, script[1..])
      else if |next.buffer| == cfg.batchMax
      then (next, [])
      else Feed(cfg, next, tag, script)
  }

  // ---------------------------------------------------------------- the session invariant

  /** Conservation for one delivery: what is buffered of it is, in order, exactly what has been fed
      and not yet committed; a delivery is settled at most once, and nothing of a settled one is buffered. */
  ghost predicate Conserved(buffer: seq<Item>, tag: nat, t: Tracker) {
    && t.committed <= t.fed <= |t.rows|
    && (t.terminal <==> |t.verdicts| == 1)
    && (!t.terminal ==>
          t.verdicts == [] && t.committed < |t.rows| && ItemsOf(buffer, tag) == t.rows[t.committed..t.fed])
    && (t.terminal ==> ItemsOf(buffer, tag) == [])
    && (t.verdicts == [Ack] ==> t.committed == |t.rows|)
  }

  ghost predicate Inv(cfg: Config, s: Session) {
    && |s.buffer| <= cfg.batchMax
    && (s.armed <==> s.buffer != [])
    && s.backoff == BackoffAfter(cfg, s.failures)
    && (forall i | 0 <= i < |s.buffer| :: s.buffer[i].tag < |s.trackers|)
    && (forall tag: nat | tag < |s.trackers| :: Conserved(s.buffer, tag, s.trackers[tag]))
  }

  /** What holds in addition whenever the session is back at its select. */
  ghost predicate Idle(cfg: Config, s: Session) {
    && |s.buffer| < cfg.batchMax
    && (forall tag: nat | tag < |s.trackers| ::
        s.trackers[tag].terminal || s.trackers[tag].fed == |s.trackers[tag].rows|)
  }

  lemma {:induction false} NoItems(buffer: seq<Item>, tag: nat)
    ensures ItemsOf(buffer, tag) == [] <==> forall i | 0 <= i < |buffer| :: buffer[i].tag != tag
  {
    if buffer != [] {
      NoItems(buffer[..|buffer| - 1], tag);
      assert forall i | 0 <= i < |buffer| - 1 :: buffer[..|buffer| - 1][i] == buffer[i];
    }
  }

  lemma {:induction false} ItemsAreBuffered(buffer: seq<Item>, tag: nat, p: MetricPoint)
    requires p in ItemsOf(buffer, tag)
    ensures p in Points(buffer)
  {
    var front, last := buffer[..|buffer| - 1], buffer[|buffer| - 1];
    if p in ItemsOf(front, tag) {
      ItemsAreBuffered(front, tag, p);
      var i :| 0 <= i < |front| && Points(front)[i] == p;
      assert Points(buffer)[i] == p;
    } else {
      assert Points(buffer)[|buffer| - 1] == p;
    }
  }

  /** The test for a terminal delivery in the success path never fires. */
  lemma BufferedIsOpen(cfg: Config, s: Session, i: nat)
    requires Inv(cfg, s) && i < |s.buffer|
    ensures !s.trackers[s.buffer[i].tag].terminal
  {
    NoItems(s.buffer, s.buffer[i].tag);
    assert Conserved(s.buffer, s.buffer[i].tag, s.trackers[s.buffer[i].tag]);
  }

  lemma BeginKeeps(cfg: Config, s: Session, msg: nat, rows: seq<MetricPoint>)
    requires Inv(cfg, s) && rows != []
    ensures Inv(cfg, Begin(s, msg, rows))
  {
    hide Capped;
    NoItems(s.buffer, |s.trackers|);
  }

  lemma RejectKeeps(cfg: Config, s: Session, msg: nat)
    requires Inv(cfg, s)
    ensures Inv(cfg, Reject(s, msg))
    ensures Idle(cfg, s) ==> Idle(cfg, Reject(s, msg))
  {
    hide Capped, ItemsOf, BackoffAfter;
    NoItems(s.buffer, |s.trackers|);
  }

  lemma ItemsAppend(buffer: seq<Item>, item: Item, tag: nat)
    ensures ItemsOf(buffer + [item], tag) == ItemsOf(buffer, tag) + if item.tag == tag then [item.point] else []
  {
    assert (buffer + [item])[..|buffer + [item]| - 1] == buffer;
  }

  lemma AppendKeeps(cfg: Config, s: Session, tag: nat)
    requires Inv(cfg, s) && CanAppend(cfg, s, tag)
    ensures Inv(cfg, Append(s, tag))
  {
    hide Capped, ItemsOf;
    var next, t := Append(s, tag), s.trackers[tag];
    forall i: nat | i < |next.trackers|
      ensures Conserved(next.buffer, i, next.trackers[i])
    {
      assert Conserved(s.buffer, i, s.trackers[i]);
      ItemsAppend(s.buffer, Item(t.rows[t.fed], tag), i);
      assert t.rows[t.committed..t.fed] + [t.rows[t.fed]] == t.rows[t.committed..t.fed + 1];
    }
  }

  lemma FlushKeeps(cfg: Config, s: Session, ok: bool)
    requires cfg.Valid() && Inv(cfg, s)
    ensures Inv(cfg, Flushed(cfg, s, ok)) && |Flushed(cfg, s, ok).buffer| == 0
    ensures |Flushed(cfg, s, ok).trackers| == |s.trackers|
  {
    hide Capped;
    CappedDoubles(cfg.failureBackoff, cfg.failureMaxBackoff, s.failures);
    CappedStart(cfg.failureBackoff, cfg.failureMaxBackoff);
    var next := Flushed(cfg, s, ok);
    forall tag: nat | tag < |next.trackers|
      ensures Conserved(next.buffer, tag, next.trackers[tag])
    {
      assert Conserved(s.buffer, tag, s.trackers[tag]);
      assert [] + [Requeue] == [Requeue] && [Requeue][0] == Requeue;
    }
  }

  /** After a committed flush nothing is left half-done: every delivery that is not waiting for the
      rest of its own points has been acknowledged. */
  lemma CommittedSettles(cfg: Config, s: Session, tag: nat)
    requires cfg.Valid() && Inv(cfg, s) && s.buffer != [] && tag < |s.trackers|
    requires !s.trackers[tag].terminal
    ensures var t := Committed(cfg, s).trackers[tag];
            && t.committed == t.fed == s.trackers[tag].fed
            && (t.fed == |t.rows| <==> t.verdicts == [Ack])
  {
    assert Conserved(s.buffer, tag, s.trackers[tag]);
  }

  lemma OpenBounds(cfg: Config, s: Session, tag: nat)
    requires Inv(cfg, s) && tag < |s.trackers|
    ensures s.trackers[tag].fed <= |s.trackers[tag].rows|
  {
    assert Conserved(s.buffer, tag, s.trackers[tag]);
  }

  lemma OpenCanAppend(cfg: Config, s: Session, tag: nat)
    requires Inv(cfg, s) && tag < |s.trackers| && !s.trackers[tag].terminal
    requires |s.buffer| < cfg.batchMax && s.trackers[tag].fed < |s.trackers[tag].rows|
    ensures CanAppend(cfg, s, tag)
  {
  }

  /** A flush moves no point of any delivery and reopens none. */
  lemma FlushLeavesRows(cfg: Config, s: Session, ok: bool)
    ensures forall i: nat | i < |s.trackers| ::
              && Flushed(cfg, s, ok).trackers[i].rows == s.trackers[i].rows
              && Flushed(cfg, s, ok).trackers[i].fed == s.trackers[i].fed
              && (s.trackers[i].terminal ==> Flushed(cfg, s, ok).trackers[i].terminal)
  {
  }

  lemma {:induction false} FeedKeeps(cfg: Config, s: Session, tag: nat, script: seq<bool>)
    requires cfg.Valid() && Inv(cfg, s) && tag < |s.trackers| && |s.buffer| < cfg.batchMax
    requires forall i: nat | i < |s.trackers| && i != tag ::
        s.trackers[i].terminal || s.trackers[i].fed == |s.trackers[i].rows|
    ensures var (next, rest) := Feed(cfg, s, tag, script);
            && Inv(cfg, next)
            && (|next.buffer| < cfg.batchMax ==> Idle(cfg, next))
            && |next.trackers| == |s.trackers|
    decreases |s.trackers[tag].rows| - s.trackers[tag].fed
  {
    hide Capped, Conserved, Flushed, ItemsOf;
    OpenBounds(cfg, s, tag);
    if CanAppend(cfg, s, tag) {
      AppendKeeps(cfg, s, tag);
      var next := Append(s, tag);
      if |next.buffer| == cfg.batchMax && script != [] {
        FlushKeeps(cfg, next, script[0]);
        FlushLeavesRows(cfg, next, script[0]);
        FeedKeeps(cfg, Flushed(cfg, next, script[0]), tag, script[1..]);
      } else if |next.buffer| != cfg.batchMax {
        FeedKeeps(cfg, next, tag, script);
      }
    }
  }

  // ---------------------------------------------------------------- whole sessions

  /** What the select can receive while the session lives. */
  datatype Event =
    | Delivery(msg: nat, rows: seq<MetricPoint>, script: seq<bool>)
    | BadDelivery(msg: nat)
    | Timer(ok: bool)

  function React(cfg: Config, s: Session, e: Event): Session {
    match e
    case Delivery(msg, rows, script) => Feed(cfg, Begin(s, msg, rows), |s.trackers|, script).0
    case BadDelivery(msg) => Reject(s, msg)
    case Timer(ok) => Flushed(cfg, s, ok)
  }

  /** A decoded message always expands to at least one point, and the script of a delivery covers
      every flush it triggers. */
  ghost predicate Possible(cfg: Config, s: Session, e: Event) {
    match e
    case Delivery(msg, rows, script) => rows != [] && |React(cfg, s, e).buffer| < cfg.batchMax
    case BadDelivery(_) => true
    case Timer(_) => s.armed
  }

  ghost predicate PossibleRun(cfg: Config, s: Session, events: seq<Event>)
    decreases |events|
  {
    events == [] || (Possible(cfg, s, events[0]) && PossibleRun(cfg, React(cfg, s, events[0]), events[1..]))
  }

  function Run(cfg: Config, s: Session, events: seq<Event>): Session
    decreases |events|
  {
    if events == [] then s else Run(cfg, React(cfg, s, events[0]), events[1..])
  }

  /** At every return to the select of every session, whatever was delivered and however the flushes
      ended, conservation, the timer, the buffer bound and the backoff law hold. */
  lemma {:induction false} SessionConserves(cfg: Config, s: Session, events: seq<Event>)
    requires cfg.Valid() && Inv(cfg, s) && Idle(cfg, s) && PossibleRun(cfg, s, events)
    ensures Inv(cfg, Run(cfg, s, events)) && Idle(cfg, Run(cfg, s, events))
    decreases |events|
  {
    if events != [] {
      var next := React(cfg, s, events[0]);
      match events[0] {
        case Delivery(msg, rows, script) =>
          BeginKeeps(cfg, s, msg, rows);
          FeedKeeps(cfg, Begin(s, msg, rows), |s.trackers|, script);
        case BadDelivery(msg) =>
          RejectKeeps(cfg, s, msg);
        case Timer(ok) =>
          FlushKeeps(cfg, s, ok);
      }
      SessionConserves(cfg, next, events[1..]);
    }
  }

  lemma OpenedConserves(cfg: Config)
    requires cfg.Valid()
    ensures Inv(cfg, Opened(cfg)) && Idle(cfg, Opened(cfg))
  {
    CappedStart(cfg.failureBackoff, cfg.failureMaxBackoff);
  }
}
