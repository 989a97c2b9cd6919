/** The outbox relay's leader loop and the repository statements it runs, as an object whose every
    action is a step of the relay state machine. */
module Leader {
  import opened Backoffs
  import opened Domain
  import opened Order
  import opened Outbox
  import opened Relay
  import opened Store

  datatype RelayConfig = RelayConfig(batchSize: nat, lease: int, initialBackoff: nat, maxBackoff: nat) {
    predicate Valid() {
      batchSize >= 1 && lease > 0 && 0 < initialBackoff <= maxBackoff
    }
  }

  // ---------------------------------------------------------------- runs between two states

  ghost predicate Reaches(st: State, steps: seq<Step>, end: State) {
    PossibleRun(st, steps) && Run(st, steps) == end
  }

  lemma {:induction false} ReachesOneMore(st: State, steps: seq<Step>, middle: State, step: Step)
    requires Reaches(st, steps, middle) && Enabled(middle, step)
    ensures Reaches(st, steps + [step], Apply(middle, step))
    decreases |steps|
  {
    hide Enabled, Apply;
    if steps == [] {
      assert steps + [step] == [step] && [step][1..] == [];
      assert PossibleRun(Apply(st, step), []) && Run(Apply(st, step), []) == Apply(st, step);
    } else {
      ReachesOneMore(Apply(st, steps[0]), steps[1..], middle, step);
      assert (steps + [step])[1..] == steps[1..] + [step];
    }
  }

  lemma {:induction false} ReachesConcat(st: State, steps: seq<Step>, middle: State, more: seq<Step>, end: State)
    requires Reaches(st, steps, middle) && Reaches(middle, more, end)
    ensures Reaches(st, steps + more, end)
    decreases |steps|
  {
    hide Enabled, Apply;
    if steps == [] {
      assert steps + more == more;
    } else {
      ReachesConcat(Apply(st, steps[0]), steps[1..], middle, more, end);
      assert (steps + more)[1..] == steps[1..] + more;
    }
  }

  // ---------------------------------------------------------------- a stalled relay

  /** An idle relay claims one eligible event. */
  lemma OneClaim(st: State, rid: nat, e: EventId) returns (next: State)
    requires rid !in st.relays && Eligible(st.db.outbox, e, st.clock)
    ensures Reaches(st, [Step.Claim(rid, [e], 1)], next)
    ensures next == st.(db := st.db.(outbox := Outbox.Claim(st.db.outbox, {e}, st.nextToken, st.clock + 1)),
                        relays := st.relays[rid := RelayState(st.nextToken, [e], Sending)],
                        nextToken := st.nextToken + 1)
  {
    hide Eligible;
    StartReached(st);
    ReachesOneMore(st, [], st, Step.Claim(rid, [e], 1));
    next := Apply(st, Step.Claim(rid, [e], 1));
    assert (set x | x in [e]) == {e};
    assert [] + [Step.Claim(rid, [e], 1)] == [Step.Claim(rid, [e], 1)];
  }

  /** It publishes the event, is confirmed, and records it. */
  lemma OnePublish(st: State, rid: nat, e: EventId, token: nat) returns (steps: seq<Step>, next: State)
    requires rid in st.relays && st.relays[rid] == RelayState(token, [e], Sending) && Guard(st.db.outbox, e, token)
    ensures Reaches(st, steps, next) && forall step | step in steps :: !step.Flush?
    ensures next == st.(db := st.db.(outbox := Outbox.MarkPublished(st.db.outbox, e, token, st.clock)),
                        relays := st.relays - {rid}, log := st.log + [Copy(e, true)])
  {
    hide Outbox.MarkPublished;
    var (send, mark) := (Step.Send(rid, true, true), Step.Mark(rid, true, true, 0));
    StartReached(st);
    ReachesOneMore(st, [], st, send);
    var sent := Apply(st, send);
    ReachesOneMore(st, [] + [send], sent, mark);
    var marked := Apply(sent, mark);
    ReachesOneMore(st, [] + [send] + [mark], marked, Finish(rid));
    steps, next := [] + [send] + [mark] + [Finish(rid)], Apply(marked, Finish(rid));
    assert next.relays == st.relays - {rid};
  }

  lemma SafeInRun(st: State)
    requires Relay.Inv(st)
    ensures Safe(st.db.outbox)
  {
  }

  /** What the claims and the publish of a stalled and a second relay leave in the table. */
  lemma TwoWaiting(table: Table, e: EventId, now: int, token: nat)
    requires Safe(table) && Eligible(table, e, now)
    requires var f := EventId(e.task, e.number + 1); f in table && !Published(table, f) && table[f].nextAttemptAt <= now
    ensures var f := EventId(e.task, e.number + 1);
            var stalled := Outbox.Claim(table, {e}, token, now + 1);
            var second := Outbox.Claim(stalled, {e}, token + 1, now + 1 + 1);
            var published := Outbox.MarkPublished(second, e, token + 1, now + 1);
            var last := Outbox.Claim(published, {f}, token + 1 + 1, now + 1 + 1);
            && Eligible(stalled, e, now + 1) && Guard(second, e, token + 1)
            && Eligible(published, f, now + 1) && Guard(last, f, token + 1 + 1)
  {
    var f := EventId(e.task, e.number + 1);
    assert Blocked(table, f);
    var stalled := Outbox.Claim(table, {e}, token, now + 1);
    var second := Outbox.Claim(stalled, {e}, token + 1, now + 1 + 1);
    var published := Outbox.MarkPublished(second, e, token + 1, now + 1);
    SameProgress(table, stalled);
    assert Published(published, e);
    forall g | g in published && g.task == f.task && g.number < f.number
      ensures Published(published, g)
    {
      if g != e { assert g.number < e.number && Published(table, g); }
    }
  }

  lemma ReachesIsRun(st: State, steps: seq<Step>, end: State)
    requires Reaches(st, steps, end)
    ensures PossibleRun(st, steps) && Run(st, steps) == end
  {
  }

  /** The raw order of the exchange is not monotone. Whenever two consecutive events of a task wait,
      this can happen: a relay claims the first and stalls past its lease; another relay publishes
      both; then the stalled one sends the first again. Only first copies are ordered. */
  lemma StalledRelaySendsAgain(st: State, a: nat, b: nat, e: EventId) returns (steps: seq<Step>)
    requires Relay.Inv(st) && a !in st.relays && b !in st.relays && a != b
    requires Eligible(st.db.outbox, e, st.clock)
    requires var f := EventId(e.task, e.number + 1);
             f in st.db.outbox && !Published(st.db.outbox, f) && st.db.outbox[f].nextAttemptAt <= st.clock
    ensures PossibleRun(st, steps)
    ensures Run(st, steps).log == st.log + [Copy(e, true), Copy(EventId(e.task, e.number + 1), true), Copy(e, true)]
  {
    hide PossibleRun, Run, Outbox.Claim, Outbox.MarkPublished, Eligible, Reaches, Consistent, Numbered, Guard;
    SafeInRun(st);
    var f := EventId(e.task, e.number + 1);
    var claimed := OneClaim(st, a, e);
    var late := claimed.(clock := claimed.clock + 1);
    ReachesOneMore(st, [Step.Claim(a, [e], 1)], claimed, Tick(late.clock));
    steps := [Step.Claim(a, [e], 1)] + [Tick(late.clock)];
    TwoWaiting(st.db.outbox, e, st.clock, st.nextToken);
    var again := OneClaim(late, b, e);
    ReachesConcat(st, steps, late, [Step.Claim(b, [e], 1)], again);
    steps := steps + [Step.Claim(b, [e], 1)];
    var more, first := OnePublish(again, b, e, late.nextToken);
    ReachesConcat(st, steps, again, more, first);
    steps := steps + more;
    var second := OneClaim(first, b, f);
    ReachesConcat(st, steps, first, [Step.Claim(b, [f], 1)], second);
    steps := steps + [Step.Claim(b, [f], 1)];
    var rest, both := OnePublish(second, b, f, first.nextToken);
    ReachesConcat(st, steps, second, rest, both);
    steps := steps + rest;
    assert both.relays[a] == RelayState(st.nextToken, [e], Sending);
    ReachesOneMore(st, steps, both, Step.Send(a, true, true));
    steps := steps + [Step.Send(a, true, true)];
    assert Apply(both, Step.Send(a, true, true)).log == both.log + [Copy(e, true)];
    ReachesIsRun(st, steps, Apply(both, Step.Send(a, true, true)));
  }

  // ---------------------------------------------------------------- the claim query

  predicate Claimable(table: Table, e: EventId, now: int, locked: set<EventId>): (r: bool)
    ensures r ==> e in table
  {
    Eligible(table, e, now) && e !in locked
  }

  function Candidates(table: Table, now: int, locked: set<EventId>): set<EventId> {
    set e | e in table && Claimable(table, e, now, locked)
  }

  function RowId(table: Table): EventId -> int {
    e => if e in table then table[e].id else 0
  }

  /** A batch holds at most one event of a task: only a task's first unpublished row is eligible. */
  lemma OnePerTask(table: Table, now: int, locked: set<EventId>, e: EventId, f: EventId)
    requires Claimable(table, e, now, locked) && Claimable(table, f, now, locked) && e.task == f.task
    ensures e == f
  {
    assert !Published(table, e) && !Published(table, f);
  }

  /** What a claim takes, row by row: eligible rows that no other transaction holds locked, in the order of
      their ids, as many as the batch has room for, and none passed over for one with a higher id. */
  lemma ClaimedExactly(table: Table, poll: Poll, batch: seq<EventId>, now: int, cfg: RelayConfig)
    requires ClaimedFrom(table, poll, batch, now, cfg)
    ensures |batch| <= cfg.batchSize
    ensures forall e | e in batch :: Eligible(table, e, now) && e !in poll.locked
    ensures forall i, j | 0 <= i < j < |batch| ::
              batch[i] in table && batch[j] in table && table[batch[i]].id <= table[batch[j]].id
    ensures forall e | Eligible(table, e, now) && e !in poll.locked && e !in batch ::
              |batch| == cfg.batchSize && forall f | f in batch :: f in table && table[f].id <= table[e].id
  {
    hide Eligible;
    assert forall e | e in batch :: e in Candidates(table, now, poll.locked);
    assert forall i | 0 <= i < |batch| :: batch[i] in batch;
    EligibleRowsExist(table, now);
  }

  lemma EligibleRowsExist(table: Table, now: int)
    ensures forall e | Eligible(table, e, now) :: e in table
  {
  }

  // ---------------------------------------------------------------- what the network answers

  /** What becomes of one publish and its mark: whether a copy arrives in the exchange and is confirmed,
      whether the mark statement takes effect, and whether its result comes back. */
  datatype Answer = Answer(copied: bool, confirmed: bool, reached: bool, reported: bool)

  /** One claim with everything that happens to it: the rows other transactions hold locked, whether the
      claim takes effect and is answered, the answers for its events in order, and which releases work. */
  datatype Poll = Poll(locked: set<EventId>, reached: bool, ok: bool, answer: nat -> Answer, release: nat -> bool)

  predicate Works(a: Answer) {
    a.reached && a.reported
  }

  function CopyOf(e: EventId, a: Answer): seq<Copy> {
    if a.copied || a.confirmed then [Copy(e, a.confirmed)] else []
  }

  /** How many events are published and marked before the first mark that fails. */
  function Leading(poll: Poll, size: nat): (k: nat)
    ensures k <= size
    ensures forall i: nat | i < k :: Works(poll.answer(i))
    ensures k < size ==> !Works(poll.answer(k))
  {
    if size == 0 then 0
    else
      var before := Leading(poll, size - 1);
      if before == size - 1 && Works(poll.answer(before)) then size else before
  }

  function Flags(poll: Poll, n: nat): (sent: seq<bool>)
    ensures |sent| == n && forall i | 0 <= i < n :: sent[i] == poll.answer(i).confirmed
  {
    seq(n, i requires 0 <= i < n => poll.answer(i).confirmed)
  }

  function Copies(batch: seq<EventId>, poll: Poll, n: nat): seq<Copy>
    requires n <= |batch|
  {
    if n == 0 then [] else Copies(batch, poll, n - 1) + CopyOf(batch[n - 1], poll.answer(n - 1))
  }

  /** The releases of the events from position `from` on. */
  function AllReleased(table: Table, batch: seq<EventId>, from: nat, token: nat, release: nat -> bool): Table
    requires from <= |batch|
    decreases |batch| - from
  {
    if from == |batch| then table
    else
      AllReleased(if release(from) then Outbox.ReleaseClaim(table, batch[from], token) else table,
                  batch, from + 1, token, release)
  }

  /** The table after one claimed batch: the events up to the first failed mark are marked, that mark may
      have taken effect, and the rest is released as far as the releases work. */
  function PassTable(table: Table, batch: seq<EventId>, token: nat, poll: Poll, now: int, cfg: RelayConfig): Table {
    var k := Leading(poll, |batch|);
    var done := AllMarked(table, batch[..k], token, Flags(poll, k), now, cfg);
    if k == |batch| then done
    else
      var a, wait := poll.answer(k), Capped(cfg.initialBackoff, cfg.maxBackoff, Streak(Flags(poll, k)));
      AllReleased(if a.reached then Marked(done, batch[k], token, a.confirmed, now, wait) else done,
                  batch, k + 1, token, poll.release)
  }

  function PassLog(batch: seq<EventId>, poll: Poll): seq<Copy> {
    var k := Leading(poll, |batch|);
    Copies(batch, poll, if k == |batch| then k else k + 1)
  }

  datatype Outcome = Stopped | Delivered | BackedOff(wait: nat) | Failed

  /** Some mark failed; or all events were confirmed; or the batch is waited out. */
  function PassOutcome(batch: seq<EventId>, poll: Poll, cfg: RelayConfig): (r: Outcome)
    ensures !r.Stopped?
  {
    var k := Leading(poll, |batch|);
    if k < |batch| then Failed else if AllSent(Flags(poll, k)) then Delivered else BackedOff(cfg.initialBackoff)
  }

  /** The table after the claimed batches of one leadership, the first with the given token. */
  function LedTable(table: Table, token: nat, polls: seq<Poll>, batches: seq<seq<EventId>>, now: int,
          cfg: RelayConfig): Table
    requires |batches| <= |polls|
    decreases |batches|
  {
    if batches == [] then table
    else
      var n := |batches| - 1;
      var before := LedTable(table, token, polls, batches[..n], now, cfg);
      PassTable(Outbox.Claim(before, (set e | e in batches[n]), token + n, now + cfg.lease),
                batches[n], token + n, polls[n], now, cfg)
  }

  function LedLog(polls: seq<Poll>, batches: seq<seq<EventId>>): seq<Copy>
    requires |batches| <= |polls|
    decreases |batches|
  {
    if batches == [] then []
    else
      var n := |batches| - 1;
      LedLog(polls, batches[..n]) + PassLog(batches[n], polls[n])
  }

  /** Batch i was claimed, as the lowest ids claimable, from the table the earlier batches left. */
  ghost predicate ClaimedInTurn(table: Table, token: nat, polls: seq<Poll>, batches: seq<seq<EventId>>, now: int,
          cfg: RelayConfig) {
    && |batches| <= |polls|
    && forall i | 0 <= i < |batches| ::
         && polls[i].reached && polls[i].ok
         && ClaimedFrom(LedTable(table, token, polls, batches[..i], now, cfg), polls[i], batches[i], now, cfg)
  }

  ghost predicate ClaimedFrom(table: Table, poll: Poll, batch: seq<EventId>, now: int, cfg: RelayConfig) {
    Lowest(Candidates(table, now, poll.locked), RowId(table), batch, cfg.batchSize)
  }

  // ---------------------------------------------------------------- the relay object

  class OutboxRelay {
    const rid: nat
    const cfg: RelayConfig
    /** The world outside the relay: the tables, the exchange, the clock, and the other relays. */
    var db: Tables
    var log: seq<Copy>
    var clock: int
    var nextToken: nat
    var others: map<nat, RelayState>

    constructor (rid: nat, cfg: RelayConfig, st: State)
      requires cfg.Valid() && rid !in st.relays
      ensures Outside() == st && this.rid == rid && this.cfg == cfg && Valid()
    {
      this.rid, this.cfg := rid, cfg;
      db, log, clock, nextToken, others := st.db, st.log, st.clock, st.nextToken, st.relays;
    }

    predicate Valid()
      reads this`others
    {
      cfg.Valid() && rid !in others
    }

    ghost function Outside(): State
      reads this
    {
      State(db, others, nextToken, log, clock)
    }

    /** The same while this relay works on a batch. */
    ghost function During(mine: RelayState): State
      reads this
    {
      State(db, others[rid := mine], nextToken, log, clock)
    }

    /** The claim statement. A failed call may still have taken the claims. */
    method Claim(poll: Poll) returns (ok: bool, batch: seq<EventId>, token: nat)
      requires Valid()
      modifies this`db, this`nextToken
      ensures token == old(nextToken) && ok == (poll.reached && poll.ok)
      ensures ClaimedFrom(old(db.outbox), poll, batch, clock, cfg)
      ensures poll.reached ==>
                && nextToken == old(nextToken) + 1
                && db == old(db).(
                           outbox := Outbox.Claim(old(db.outbox), (set e | e in batch), token, clock + cfg.lease))
      ensures !poll.reached ==> nextToken == old(nextToken) && db == old(db)
    {
      token := nextToken;
      batch := SelectLowest(Candidates(db.outbox, clock, poll.locked), RowId(db.outbox), cfg.batchSize);
      ok := poll.reached && poll.ok;
      if poll.reached {
        nextToken := nextToken + 1;
        db := db.(outbox := Outbox.Claim(db.outbox, (set e | e in batch), token, clock + cfg.lease));
      }
    }

    /** Publish and wait for the confirm. A failed call may still have put a copy into the exchange. */
    method Publish(e: EventId, a: Answer) returns (sent: bool)
      modifies this`log
      ensures sent == a.confirmed && log == old(log) + CopyOf(e, a)
    {
      sent := a.confirmed;
      log := log + CopyOf(e, a);
    }

    /** The mark statement for the outcome of one Publish. RowsAffected tells a lost claim; an error
        leaves open whether the row was changed. */
    method Mark(e: EventId, token: nat, sent: bool, backoff: nat, a: Answer) returns (ok: bool)
      modifies this`db
      ensures ok == (Works(a) && Guard(old(db.outbox), e, token))
      ensures db == if a.reached then old(db).(outbox := Marked(old(db.outbox), e, token, sent, clock, backoff))
                else old(db)
    {
      ok := a.reached && a.reported && Guard(db.outbox, e, token);
      if a.reached {
        db := db.(outbox := if sent then Outbox.MarkPublished(db.outbox, e, token, clock)
                            else Outbox.MarkFailed(db.outbox, e, token, clock, backoff));
      }
    }

    method ReleaseClaim(e: EventId, token: nat, works: bool)
      modifies this`db
      ensures db == if works then old(db).(outbox := Outbox.ReleaseClaim(old(db.outbox), e, token)) else old(db)
    {
      if works {
        db := db.(outbox := Outbox.ReleaseClaim(db.outbox, e, token));
      }
    }

    /** After an error, give the rest of the batch back, going on past further errors. */
    method ReleaseClaims(batch: seq<EventId>, from: nat, token: nat, release: nat -> bool, ghost start: State,
            ghost soFar: seq<Step>)
      returns (ghost steps: seq<Step>)
      requires Valid() && from <= |batch|
      requires Reaches(start, soFar, During(RelayState(token, batch[from..], Releasing)))
      modifies this`db
      ensures db == old(db).(outbox := AllReleased(old(db.outbox), batch, from, token, release))
      ensures Reaches(start, steps, Outside())
    {
      hide Reaches, Outbox.ReleaseClaim;
      steps := soFar;
      ghost var goal := AllReleased(db.outbox, batch, from, token, release);
      for index := from to |batch|
        invariant Reaches(start, steps, During(RelayState(token, batch[index..], Releasing)))
        invariant AllReleased(db.outbox, batch, index, token, release) == goal && db == old(db).(outbox := db.outbox)
      {
        ghost var before, rest := During(RelayState(token, batch[index..], Releasing)), batch[index..];
        assert rest[0] == batch[index] && rest[1..] == batch[index + 1..];
        ReleaseClaim(batch[index], token, release(index));
        ReachesOneMore(start, steps, before, Step.Release(rid, release(index)));
        steps := steps + [Step.Release(rid, release(index))];
        SameRelays(others, rid, RelayState(token, rest, Releasing), RelayState(token, rest[1..], Releasing));
        assert Apply(before, Step.Release(rid, release(index))) == During(RelayState(token, rest[1..], Releasing));
      }
      ghost var last := During(RelayState(token, [], Releasing));
      assert batch[|batch|..] == [];
      ReachesOneMore(start, steps, last, Finish(rid));
      steps := steps + [Finish(rid)];
      assert last.relays - {rid} == others;
      assert Apply(last, Finish(rid)) == Outside();
    }

    /** Publish one claimed event and record the outcome. */
    method Deliver(e: EventId, token: nat, backoff: nat, a: Answer, ghost rest: seq<EventId>, ghost start: State,
            ghost soFar: seq<Step>)
      returns (sent: bool, ok: bool, ghost steps: seq<Step>)
      requires Valid() && Reaches(start, soFar, During(RelayState(token, [e] + rest, Sending)))
      modifies this`db, this`log
      ensures sent == a.confirmed && ok == (Works(a) && Guard(old(db.outbox), e, token))
      ensures db == if a.reached then old(db).(outbox := Marked(old(db.outbox), e, token, sent, clock, backoff))
                else old(db)
      ensures log == old(log) + CopyOf(e, a)
      ensures Reaches(start, steps, During(RelayState(token, rest, if ok then Sending else Releasing)))
    {
      hide Reaches, Guard, Marked, Outbox.MarkPublished, Outbox.MarkFailed;
      ghost var batch := [e] + rest;
      ghost var mine, before := RelayState(token, batch, Sending), During(RelayState(token, batch, Sending));
      sent := Publish(e, a);
      ghost var send := Step.Send(rid, a.copied || a.confirmed, sent);
      ReachesOneMore(start, soFar, before, send);
      SameRelays(others, rid, mine, mine.(phase := Sent(sent)));
      ghost var middle := During(mine.(phase := Sent(sent)));
      assert Apply(before, send) == middle;
      ok := Mark(e, token, sent, backoff, a);
      ghost var mark := Step.Mark(rid, a.reached, ok, backoff);
      ReachesOneMore(start, soFar + [send], middle, mark);
      ghost var after := RelayState(token, rest, if ok then Sending else Releasing);
      assert batch[1..] == rest;
      SameRelays(others, rid, mine.(phase := Sent(sent)), after);
      MarkedIsMarkedTable(old(db.outbox), e, token, sent, clock, backoff, rest);
      assert Apply(middle, mark) == During(after);
      steps := soFar + [send] + [mark];
    }

    /** One claimed batch. The first failure decides how long to wait before the next leadership. */
    method DeliverBatch(batch: seq<EventId>, token: nat, poll: Poll, ghost start: State, ghost soFar: seq<Step>)
      returns (outcome: Outcome, ghost steps: seq<Step>)
      requires Valid() && Distinct(batch) && AllGuarded(db.outbox, batch, token)
      requires Reaches(start, soFar, During(RelayState(token, batch, Sending)))
      modifies this`db, this`log
      ensures outcome == PassOutcome(batch, poll, cfg)
      ensures db == old(db).(outbox := PassTable(old(db.outbox), batch, token, poll, clock, cfg))
      ensures log == old(log) + PassLog(batch, poll)
      ensures Reaches(start, steps, Outside())
    {
      hide Reaches, AllMarked, Marked, Capped, Streak, AllSent, AllGuarded, Guard, AllReleased, Copies, Flags, Leading;
      ghost var table := db.outbox;
      ghost var all := Leading(poll, |batch|);
      var backoff, batchBackoff := cfg.initialBackoff, 0;
      steps := soFar;
      BatchStart(table, token, clock, cfg, batch, poll);
      for index := 0 to |batch|
        invariant index <= all && Reaches(start, steps, During(RelayState(token, batch[index..], Sending)))
        invariant backoff == Capped(cfg.initialBackoff, cfg.maxBackoff, Streak(Flags(poll, index)))
        invariant batchBackoff == if AllSent(Flags(poll, index)) then 0 else cfg.initialBackoff
        invariant db == old(db).(outbox := AllMarked(table, batch[..index], token, Flags(poll, index), clock, cfg))
        invariant log == old(log) + Copies(batch, poll, index)
      {
        assert batch[index..] == [batch[index]] + batch[index + 1..];
        StillGuarded(table, batch, token, poll, index, clock, cfg);
        BatchStep(table, batch, token, poll, index, clock, cfg);
        var delivered, ok;
        delivered, ok, steps := Deliver(batch[index], token, backoff, poll.answer(index), batch[index + 1..], start,
            steps);
        if !ok {
          assert index == all;
          steps := ReleaseClaims(batch, index + 1, token, poll.release, start, steps);
          return Failed, steps;
        }
        assert index < all;
        if !delivered {
          if batchBackoff == 0 {
            batchBackoff := backoff;
          }
          backoff := Next(backoff, cfg.maxBackoff);
        } else {
          backoff := cfg.initialBackoff;
        }
      }
      assert batch[..|batch|] == batch && batch[|batch|..] == [];
      steps := Finished(token, start, steps);
      outcome := if batchBackoff > 0 then BackedOff(batchBackoff) else Delivered;
    }

    lemma Finished(token: nat, start: State, soFar: seq<Step>) returns (steps: seq<Step>)
      requires Valid() && Reaches(start, soFar, During(RelayState(token, [], Sending)))
      ensures Reaches(start, steps, Outside())
    {
      hide Reaches;
      var last := During(RelayState(token, [], Sending));
      ReachesOneMore(start, soFar, last, Finish(rid));
      steps := soFar + [Finish(rid)];
      assert last.relays - {rid} == others;
    }

    /** The leader loop until its context ends after the given polls. Tables and exchange are exactly what
        the batches leave behind, each claimed in turn; every batch but the last was delivered whole, and
        the last one decides: a failed mark or claim ends the loop with an error, an unconfirmed event
        ends it after the wait, which is always the initial backoff. The loop goes on whenever it can: it stops
        short of the last poll only where one of these happens. A claim that reports an error may still have
        taken effect, and then `lost` are its rows. */
    method RunLeader(polls: seq<Poll>)
      returns (outcome: Outcome, ghost batches: seq<seq<EventId>>, ghost lost: seq<EventId>, ghost steps: seq<Step>)
      requires Valid()
      modifies this`db, this`log, this`nextToken
      ensures ClaimedInTurn(old(db.outbox), old(nextToken), polls, batches, clock, cfg)
      ensures forall i | 0 <= i < |batches| - 1 :: PassOutcome(batches[i], polls[i], cfg) == Delivered
      ensures !LastDelivered(polls, batches, cfg) ==>
                outcome == PassOutcome(batches[|batches| - 1], polls[|batches| - 1], cfg)
      ensures LastDelivered(polls, batches, cfg) && |batches| == |polls| ==> outcome == Stopped
      ensures LastDelivered(polls, batches, cfg) && |batches| < |polls| ==>
                outcome == Failed && ClaimFailed(polls, batches, cfg)
      ensures log == old(log) + LedLog(polls, batches)
      ensures var left := LedTable(old(db.outbox), old(nextToken), polls, batches, clock, cfg);
              var claimed := ClaimFailed(polls, batches, cfg) && polls[|batches|].reached;
              && (claimed ==> ClaimedFrom(left, polls[|batches|], lost, clock, cfg))
              && db == old(db).(outbox :=
                   if claimed
                   then Outbox.Claim(left, (set e | e in lost), old(nextToken) + |batches|, clock + cfg.lease)
                   else left)
              && nextToken == old(nextToken) + |batches| + if claimed then 1 else 0
      ensures Reaches(old(Outside()), steps, Outside())
      ensures old(Relay.Inv(Outside())) ==>
                && Relay.Inv(Outside())
                && forall e | old(Published(db.outbox, e)) :: Published(db.outbox, e)
    {
      hide Reaches, Relay.Inv, LedTable, LedLog, PassTable, PassLog, PassOutcome, ClaimedFrom, ClaimedInTurn,
           AllGuarded, PossibleRun, Run, Distinct, Eligible, Published;
      ghost var start, table, first := Outside(), db.outbox, nextToken;
      batches, lost, steps := [], [], [];
      StartReached(start);
      NothingLed(table, first, polls, clock, cfg);
      for index := 0 to |polls|
        invariant Valid() && Reaches(start, steps, Outside())
        invariant |batches| == index && nextToken == first + index
        invariant ClaimedInTurn(table, first, polls, batches, clock, cfg)
        invariant forall i | 0 <= i < index :: PassOutcome(batches[i], polls[i], cfg) == Delivered
        invariant log == old(log) + LedLog(polls, batches)
        invariant db == old(db).(outbox := LedTable(table, first, polls, batches, clock, cfg))
      {
        ghost var before := Outside();
        var ok, batch, token := Claim(polls[index]);
        if polls[index].reached {
          ghost var step := Step.Claim(rid, batch, cfg.lease);
          ClaimIsEnabled(before, batch, polls[index]);
          ReachesOneMore(start, steps, before, step);
          assert Apply(before, step) == During(RelayState(token, batch, Sending));
          steps := steps + [step];
        }
        if !ok {
          lost := batch;
          if polls[index].reached { steps := Abandoned(token, batch, start, steps); }
          ReachedIsSafe(start, steps, Outside());
          return Failed, batches, lost, steps;
        }
        ClaimIsDistinct(before.db.outbox, polls[index], batch, token, clock, cfg);
        OneMoreLed(table, first, polls, batches, batch, clock, cfg);
        outcome, steps := DeliverBatch(batch, token, polls[index], start, steps);
        batches := batches + [batch];
        if outcome != Delivered {
          ReachedIsSafe(start, steps, Outside());
          return;
        }
      }
      ReachedIsSafe(start, steps, Outside());
      outcome := Stopped;
    }

    /** A relay that never hears of its claim does nothing with it: to the system it has crashed. */
    lemma Abandoned(token: nat, batch: seq<EventId>, start: State, soFar: seq<Step>) returns (steps: seq<Step>)
      requires Valid() && Reaches(start, soFar, During(RelayState(token, batch, Sending)))
      ensures Reaches(start, steps, Outside())
    {
      hide Reaches;
      var last := During(RelayState(token, batch, Sending));
      ReachesOneMore(start, soFar, last, Crash(rid));
      steps := soFar + [Crash(rid)];
      assert last.relays - {rid} == others;
    }

    lemma ClaimIsEnabled(before: State, batch: seq<EventId>, poll: Poll)
      requires rid !in before.relays && ClaimedFrom(before.db.outbox, poll, batch, before.clock, cfg)
      ensures Enabled(before, Step.Claim(rid, batch, cfg.lease))
    {
      hide Eligible;
    }
  }

  /** There is no batch yet, or the last one was delivered whole, so that the loop goes on. */
  ghost predicate LastDelivered(polls: seq<Poll>, batches: seq<seq<EventId>>, cfg: RelayConfig)
    requires |batches| <= |polls|
  {
    batches == [] || PassOutcome(batches[|batches| - 1], polls[|batches| - 1], cfg) == Delivered
  }

  /** The poll after the last batch is a claim that reported an error. */
  ghost predicate ClaimFailed(polls: seq<Poll>, batches: seq<seq<EventId>>, cfg: RelayConfig) {
    && |batches| < |polls| && !(polls[|batches|].reached && polls[|batches|].ok)
    && LastDelivered(polls, batches, cfg)
  }

  lemma ClaimIsDistinct(table: Table, poll: Poll, batch: seq<EventId>, token: nat, now: int, cfg: RelayConfig)
    requires ClaimedFrom(table, poll, batch, now, cfg)
    ensures Distinct(batch)
    ensures AllGuarded(Outbox.Claim(table, (set e | e in batch), token, now + cfg.lease), batch, token)
  {
    hide Eligible;
    ClaimedIsGuarded(table, batch, now, poll.locked, token, now + cfg.lease);
  }

  lemma NothingLed(table: Table, token: nat, polls: seq<Poll>, now: int, cfg: RelayConfig)
    ensures LedTable(table, token, polls, [], now, cfg) == table && LedLog(polls, []) == []
    ensures ClaimedInTurn(table, token, polls, [], now, cfg)
  {
  }

  lemma OneMoreLed(table: Table, token: nat, polls: seq<Poll>, batches: seq<seq<EventId>>, batch: seq<EventId>,
          now: int, cfg: RelayConfig)
    requires |batches| < |polls| && ClaimedInTurn(table, token, polls, batches, now, cfg)
    requires polls[|batches|].reached && polls[|batches|].ok
    requires ClaimedFrom(LedTable(table, token, polls, batches, now, cfg), polls[|batches|], batch, now, cfg)
    ensures ClaimedInTurn(table, token, polls, batches + [batch], now, cfg)
    ensures LedTable(table, token, polls, batches + [batch], now, cfg) ==
            PassTable(Outbox.Claim(LedTable(table, token, polls, batches, now, cfg),
                                   (set e | e in batch), token + |batches|, now + cfg.lease),
                      batch, token + |batches|, polls[|batches|], now, cfg)
    ensures LedLog(polls, batches + [batch]) == LedLog(polls, batches) + PassLog(batch, polls[|batches|])
  {
    hide PassTable, PassLog, Outbox.Claim, ClaimedFrom, ClaimedInTurn;
    var (more, n) := (batches + [batch], |batches|);
    assert more[..n] == batches && more[n] == batch;
    OneMoreClaim(table, token, polls, batches, batch, now, cfg);
  }

  lemma OneMoreClaim(table: Table, token: nat, polls: seq<Poll>, batches: seq<seq<EventId>>, batch: seq<EventId>,
          now: int, cfg: RelayConfig)
    requires |batches| < |polls| && ClaimedInTurn(table, token, polls, batches, now, cfg)
    requires polls[|batches|].reached && polls[|batches|].ok
    requires ClaimedFrom(LedTable(table, token, polls, batches, now, cfg), polls[|batches|], batch, now, cfg)
    ensures ClaimedInTurn(table, token, polls, batches + [batch], now, cfg)
  {
    hide LedTable, ClaimedFrom;
    var (more, n) := (batches + [batch], |batches|);
    forall i | 0 <= i <= n
      ensures polls[i].reached && polls[i].ok
      ensures ClaimedFrom(LedTable(table, token, polls, more[..i], now, cfg), polls[i], more[i], now, cfg)
    {
      assert more[..i] == batches[..i];
      if i == n { assert batches[..n] == batches; }
    }
  }

  lemma BatchStart(table: Table, token: nat, now: int, cfg: RelayConfig, batch: seq<EventId>, poll: Poll)
    requires cfg.Valid()
    ensures AllMarked(table, batch[..0], token, Flags(poll, 0), now, cfg) == table && Copies(batch, poll, 0) == []
    ensures AllSent(Flags(poll, 0))
    ensures Capped(cfg.initialBackoff, cfg.maxBackoff, Streak(Flags(poll, 0))) == cfg.initialBackoff
    ensures batch[0..] == batch
  {
    hide Capped;
    CappedStart(cfg.initialBackoff, cfg.maxBackoff);
    NothingMarked(table, token, now, cfg);
    assert Flags(poll, 0) == [] && batch[..0] == [];
  }

  lemma StillGuarded(table: Table, batch: seq<EventId>, token: nat, poll: Poll, index: nat, now: int, cfg: RelayConfig)
    requires Distinct(batch) && AllGuarded(table, batch, token) && index < |batch|
    ensures Guard(AllMarked(table, batch[..index], token, Flags(poll, index), now, cfg), batch[index], token)
  {
    hide Guard, Effect, AllMarked, Flags;
    var init, sent := batch[..index], Flags(poll, index);
    assert Distinct(init) && AllGuarded(table, init, token) && batch[index] !in init;
    BatchEffect(table, init, token, sent, now, cfg);
    assert Guard(table, batch[index], token) && batch[index] in table;
    EffectLeaves(table, AllMarked(table, init, token, sent, now, cfg), init, sent, now, cfg, batch[index]);
    GuardIsLocal(table, AllMarked(table, init, token, sent, now, cfg), batch[index], token);
  }

  /** What one more answered event adds, in every quantity the batch loop keeps. */
  lemma BatchStep(table: Table, batch: seq<EventId>, token: nat, poll: Poll, index: nat, now: int, cfg: RelayConfig)
    requires index < |batch| && cfg.Valid()
    ensures var (sent, more, a) := (Flags(poll, index), Flags(poll, index + 1), poll.answer(index));
            && AllMarked(table, batch[..index + 1], token, more, now, cfg)
               == Marked(AllMarked(table, batch[..index], token, sent, now, cfg), batch[index], token, a.confirmed, now,
                         Capped(cfg.initialBackoff, cfg.maxBackoff, Streak(sent)))
            && (AllSent(more) <==> AllSent(sent) && a.confirmed)
            && (AllSent(sent) ==> Capped(cfg.initialBackoff, cfg.maxBackoff, Streak(sent)) == cfg.initialBackoff)
            && Capped(cfg.initialBackoff, cfg.maxBackoff, Streak(more))
               == (if a.confirmed then cfg.initialBackoff
                   else Next(Capped(cfg.initialBackoff, cfg.maxBackoff, Streak(sent)), cfg.maxBackoff))
    ensures Copies(batch, poll, index + 1) == Copies(batch, poll, index) + CopyOf(batch[index], poll.answer(index))
    ensures Leading(poll, |batch|) >= index ==> (Leading(poll, |batch|) > index <==> Works(poll.answer(index)))
  {
    hide Marked, AllMarked, Streak, Capped, AllSent;
    var sent, a := Flags(poll, index), poll.answer(index);
    assert Flags(poll, index + 1) == sent + [a.confirmed];
    assert batch[..index + 1] == batch[..index] + [batch[index]];
    OneMoreMarked(table, batch[..index], batch[index], token, sent, a.confirmed, now, cfg);
    StreakGrows(sent, a.confirmed);
    if AllSent(sent) { NoFailureNoStreak(sent); }
    CappedStart(cfg.initialBackoff, cfg.maxBackoff);
    CappedDoubles(cfg.initialBackoff, cfg.maxBackoff, Streak(sent));
  }

  /** Releasing gives up exactly the claims whose statement worked and changes nothing else. */
  lemma {:induction false} ReleaseEffect(table: Table, batch: seq<EventId>, from: nat, token: nat, release: nat -> bool)
    requires from <= |batch| && Distinct(batch) && AllGuarded(table, batch[from..], token)
    ensures var after := AllReleased(table, batch, from, token, release);
            && after.Keys == table.Keys
            && (forall e | e in table && e !in batch[from..] :: after[e] == table[e])
            && (forall i | from <= i < |batch| :: batch[i] in table && after[batch[i]] ==
                  if release(i) then table[batch[i]].(claimedUntil := None, claimToken := None) else table[batch[i]])
    decreases |batch| - from
  {
    if from < |batch| {
      hide AllReleased;
      var e, rest := batch[from], batch[from + 1..];
      var next := if release(from) then Outbox.ReleaseClaim(table, e, token) else table;
      assert batch[from..][0] == e && batch[from..] == [e] + rest;
      forall i | 0 <= i < |rest|
        ensures rest[i] in next && Guard(next, rest[i], token) && next[rest[i]] == table[rest[i]]
      {
        assert rest[i] == batch[from..][i + 1] && rest[i] == batch[from + 1 + i] && rest[i] != e;
      }
      ReleaseEffect(next, batch, from + 1, token, release);
      ReleasedStep(table, batch, from, token, release);
      assert e !in rest;
      assert forall i | from < i < |batch| :: batch[i] == rest[i - from - 1];
    } else {
      ReleasedStep(table, batch, from, token, release);
    }
  }

  lemma ReleasedStep(table: Table, batch: seq<EventId>, from: nat, token: nat, release: nat -> bool)
    requires from <= |batch|
    ensures AllReleased(table, batch, from, token, release) ==
            if from == |batch| then table
            else AllReleased(if release(from) then Outbox.ReleaseClaim(table, batch[from], token) else table,
                             batch, from + 1, token, release)
  {
  }

  function Marked(table: Table, e: EventId, token: nat, sent: bool, now: int, backoff: nat): Table {
    if sent then Outbox.MarkPublished(table, e, token, now) else Outbox.MarkFailed(table, e, token, now, backoff)
  }

  lemma SameRelays(others: map<nat, RelayState>, rid: nat, a: RelayState, b: RelayState)
    ensures others[rid := a][rid := b] == others[rid := b]
  {
  }

  lemma MarkedIsMarkedTable(table: Table, e: EventId, token: nat, sent: bool, now: int, backoff: nat,
          rest: seq<EventId>)
    ensures MarkedTable(table, RelayState(token, [e] + rest, Sent(sent)), now, backoff)
              == Marked(table, e, token, sent, now, backoff)
  {
  }

  lemma StartReached(start: State)
    ensures Reaches(start, [], start)
  {
  }

  lemma ReachedIsSafe(start: State, steps: seq<Step>, end: State)
    requires Reaches(start, steps, end)
    ensures Relay.Inv(start) ==> Relay.Inv(end) && forall e | Published(start.db.outbox, e) ::
        Published(end.db.outbox, e)
  {
    if Relay.Inv(start) { RunKeeps(start, steps); }
  }

  // ---------------------------------------------------------------- what a batch leaves behind

  /** How many of the last publishes in a row have failed. */
  function Streak(sent: seq<bool>): nat {
    if sent == [] || sent[|sent| - 1] then 0 else Streak(sent[..|sent| - 1]) + 1
  }

  predicate AllSent(sent: seq<bool>) {
    forall i | 0 <= i < |sent| :: sent[i]
  }

  lemma StreakGrows(sent: seq<bool>, delivered: bool)
    ensures Streak([]) == 0 && AllSent([])
    ensures Streak(sent + [delivered]) == if delivered then 0 else Streak(sent) + 1
    ensures AllSent(sent + [delivered]) <==> AllSent(sent) && delivered
  {
    var more := sent + [delivered];
    assert more[..|sent|] == sent && more[|sent|] == delivered;
    assert forall i | 0 <= i < |sent| :: more[i] == sent[i];
  }

  lemma NoFailureNoStreak(sent: seq<bool>)
    requires AllSent(sent)
    ensures Streak(sent) == 0
  {
  }

  /** The table after the marks of the first |sent| events of a batch. */
  function AllMarked(table: Table, batch: seq<EventId>, token: nat, sent: seq<bool>, now: int, cfg: RelayConfig): Table
    requires |sent| == |batch|
    decreases |sent|
  {
    if sent == [] then table
    else
      var last := |sent| - 1;
      Marked(AllMarked(table, batch[..last], token, sent[..last], now, cfg), batch[last], token, sent[last], now,
             Capped(cfg.initialBackoff, cfg.maxBackoff, Streak(sent[..last])))
  }

  lemma NothingMarked(table: Table, token: nat, now: int, cfg: RelayConfig)
    ensures AllMarked(table, [], token, [], now, cfg) == table
  {
  }

  lemma OneMoreMarked(table: Table, batch: seq<EventId>, e: EventId, token: nat, sent: seq<bool>,
          delivered: bool, now: int, cfg: RelayConfig)
    requires |sent| == |batch|
    ensures AllMarked(table, batch + [e], token, sent + [delivered], now, cfg)
         == Marked(AllMarked(table, batch, token, sent, now, cfg), e, token, delivered, now,
                   Capped(cfg.initialBackoff, cfg.maxBackoff, Streak(sent)))
  {
    hide Marked, Streak, Capped;
    assert (batch + [e])[..|batch|] == batch && (sent + [delivered])[..|sent|] == sent;
  }

  /** The row of one event after its publish: published when confirmed, else scheduled for a retry. */
  function Outcomed(row: OutboxRow, sent: bool, now: int, backoff: nat): OutboxRow {
    if sent then row.(publishedAt := Some(now), claimedUntil := None, claimToken := None)
    else row.(attempts := row.attempts + 1, nextAttemptAt := now + backoff, claimedUntil := None, claimToken := None)
  }

  ghost predicate AllGuarded(table: Table, batch: seq<EventId>, token: nat) {
    forall i | 0 <= i < |batch| :: batch[i] in table && Guard(table, batch[i], token)
  }

  ghost predicate Effect(table: Table, after: Table, batch: seq<EventId>, sent: seq<bool>, now: int, cfg: RelayConfig) {
    && |sent| == |batch| && after.Keys == table.Keys
    && (forall e | e in table && e !in batch :: after[e] == table[e])
    && (forall i | 0 <= i < |batch| :: batch[i] in table && after[batch[i]] ==
          Outcomed(table[batch[i]], sent[i], now, Capped(cfg.initialBackoff, cfg.maxBackoff, Streak(sent[..i]))))
  }

  lemma EffectGrows(table: Table, after: Table, batch: seq<EventId>, sent: seq<bool>, now: int,
          cfg: RelayConfig, e: EventId, delivered: bool)
    requires Effect(table, after, batch, sent, now, cfg) && e in table && e !in batch
    ensures var row := Outcomed(table[e], delivered, now, Capped(cfg.initialBackoff, cfg.maxBackoff, Streak(sent)));
            Effect(table, after[e := row], batch + [e], sent + [delivered], now, cfg)
  {
    hide Streak, Capped, Outcomed;
    var (more, flags) := (batch + [e], sent + [delivered]);
    assert flags[..|sent|] == sent;
    assert forall i | 0 <= i < |batch| :: flags[..i] == sent[..i] && more[i] == batch[i] && batch[i] in batch;
  }

  /** A completed batch publishes exactly the confirmed events and schedules the others for a retry,
      the k-th straight failure after min(I * 2^k, Max); it keeps no claim and touches no other row. */
  lemma {:induction false} BatchEffect(table: Table, batch: seq<EventId>, token: nat, sent: seq<bool>,
          now: int, cfg: RelayConfig)
    requires |sent| == |batch| && Distinct(batch) && AllGuarded(table, batch, token)
    ensures Effect(table, AllMarked(table, batch, token, sent, now, cfg), batch, sent, now, cfg)
    decreases |sent|
  {
    hide Streak, Capped, Outcomed, Marked, AllMarked, Guard, Effect, Distinct;
    if sent == [] {
      NothingMarked(table, token, now, cfg);
      NoEffect(table, now, cfg);
    } else {
      var last := |sent| - 1;
      var (init, done) := (batch[..last], sent[..last]);
      LastIsNew(batch);
      BatchEffect(table, init, token, done, now, cfg);
      assert batch == init + [batch[last]] && sent == done + [sent[last]];
      OneMoreMarked(table, init, batch[last], token, done, sent[last], now, cfg);
      var middle := AllMarked(table, init, token, done, now, cfg);
      EffectLeaves(table, middle, init, done, now, cfg, batch[last]);
      GuardIsLocal(table, middle, batch[last], token);
      MarkedSetsOneRow(middle, batch[last], token, sent[last], now,
          Capped(cfg.initialBackoff, cfg.maxBackoff, Streak(done)));
      EffectGrows(table, middle, init, done, now, cfg, batch[last], sent[last]);
    }
  }

  lemma NoEffect(table: Table, now: int, cfg: RelayConfig)
    ensures Effect(table, table, [], [], now, cfg)
  {
  }

  lemma EffectLeaves(table: Table, after: Table, batch: seq<EventId>, sent: seq<bool>, now: int,
          cfg: RelayConfig, e: EventId)
    requires Effect(table, after, batch, sent, now, cfg) && e in table && e !in batch
    ensures e in after && after[e] == table[e]
  {
  }

  lemma LastIsNew(batch: seq<EventId>)
    requires Distinct(batch) && batch != []
    ensures Distinct(batch[..|batch| - 1]) && batch[|batch| - 1] !in batch[..|batch| - 1]
  {
  }

  lemma GuardIsLocal(table: Table, other: Table, e: EventId, token: nat)
    requires e in table && e in other && table[e] == other[e]
    ensures Guard(table, e, token) <==> Guard(other, e, token)
  {
  }

  lemma MarkedSetsOneRow(table: Table, e: EventId, token: nat, sent: bool, now: int, backoff: nat)
    requires Guard(table, e, token)
    ensures Marked(table, e, token, sent, now, backoff) == table[e := Outcomed(table[e], sent, now, backoff)]
  {
  }

  /** A claimed batch meets the guard of every later transition. */
  lemma ClaimedIsGuarded(table: Table, batch: seq<EventId>, now: int, locked: set<EventId>, token: nat, until: int)
    requires forall e | e in batch :: e in Candidates(table, now, locked)
    ensures AllGuarded(Outbox.Claim(table, (set e | e in batch), token, until), batch, token)
  {
    hide Blocked;
    assert forall i | 0 <= i < |batch| :: batch[i] in batch && batch[i] in Candidates(table, now, locked);
  }
}
