/** Any number of outbox relays, interleaved with flushes, and the broadcast log they produce. */
module Relay {
  import opened Domain
  import opened Outbox
  import opened Store

  /** One message in the realtime exchange: a copy of an event, and whether its confirm reached the relay. */
  datatype Copy = Copy(id: EventId, confirmed: bool)

  /** Where a relay is with the head of its batch. */
  datatype Phase = Sending | Sent(confirmed: bool) | Releasing

  datatype RelayState = RelayState(token: nat, batch: seq<EventId>, phase: Phase)

  datatype State = State(db: Tables, relays: map<nat, RelayState>, nextToken: nat, log: seq<Copy>, clock: int)

  const INITIAL := State(EMPTY, map[], 0, [], 0)

  datatype Step =
    | Flush(rows: seq<Row>, order: seq<string>)
    | Claim(rid: nat, batch: seq<EventId>, lease: int)
    /** Publish the head: the copy may be lost, arrive unconfirmed, or arrive and be confirmed. */
    | Send(rid: nat, copied: bool, confirmed: bool)
    /** Record the result of the head. The statement may fail, with or without taking effect, and it
        reports success only when it found its claim. */
    | Mark(rid: nat, reached: bool, ok: bool, backoff: int)
    | Release(rid: nat, reached: bool)
    | Finish(rid: nat)
    | Crash(rid: nat)
    | Tick(now: int)

  ghost predicate Distinct(batch: seq<EventId>) {
    forall i, j | 0 <= i < j < |batch| :: batch[i] != batch[j]
  }

  ghost predicate Enabled(st: State, step: Step) {
    match step
    case Flush(rows, order) => Enumerates(order, TasksOf(Inserted(st.db.points, rows)))
    case Claim(rid, batch, lease) =>
      rid !in st.relays && Distinct(batch) && forall e | e in batch :: Eligible(st.db.outbox, e, st.clock)
    case Send(rid, copied, confirmed) =>
      rid in st.relays && st.relays[rid].batch != [] && st.relays[rid].phase == Sending && (confirmed ==> copied)
    case Mark(rid, reached, ok, backoff) =>
      && rid in st.relays && st.relays[rid].batch != [] && st.relays[rid].phase.Sent?
      && (ok ==> reached && Guard(st.db.outbox, st.relays[rid].batch[0], st.relays[rid].token))
    case Release(rid, reached) => rid in st.relays && st.relays[rid].batch != [] && st.relays[rid].phase == Releasing
    case Finish(rid) => rid in st.relays && st.relays[rid].batch == []
    case Crash(rid) => rid in st.relays
    case Tick(now) => st.clock <= now
  }

  function MarkedTable(table: Table, relay: RelayState, now: int, backoff: int): Table
    requires relay.batch != [] && relay.phase.Sent?
  {
    if relay.phase.confirmed
    then MarkPublished(table, relay.batch[0], relay.token, now)
    else MarkFailed(table, relay.batch[0], relay.token, now, backoff)
  }

  function Apply(st: State, step: Step): State
    requires Enabled(st, step)
  {
    match step
    case Flush(rows, order) => st.(db := Store.Flush(st.db, rows, order, st.clock))
    case Claim(rid, batch, lease) =>
      st.(db := st.db.(outbox := Outbox.Claim(st.db.outbox, (set e | e in batch), st.nextToken, st.clock + lease)),
          relays := st.relays[rid := RelayState(st.nextToken, batch, Sending)],
          nextToken := st.nextToken + 1)
    case Send(rid, copied, confirmed) =>
      var relay := st.relays[rid];
      st.(relays := st.relays[rid := relay.(phase := Sent(confirmed))],
          log := if copied then st.log + [Copy(relay.batch[0], confirmed)] else st.log)
    case Mark(rid, reached, ok, backoff) =>
      var relay := st.relays[rid];
      st.(db := if reached then st.db.(outbox := MarkedTable(st.db.outbox, relay, st.clock, backoff)) else st.db,
          relays := st.relays[rid := RelayState(relay.token, relay.batch[1..], if ok then Sending else Releasing)])
    case Release(rid, reached) =>
      var relay := st.relays[rid];
      st.(db := if reached then st.db.(outbox := ReleaseClaim(st.db.outbox, relay.batch[0], relay.token)) else st.db,
          relays := st.relays[rid := relay.(batch := relay.batch[1..])])
    case Finish(rid) => st.(relays := st.relays - {rid})
    case Crash(rid) => st.(relays := st.relays - {rid})
    case Tick(now) => st.(clock := now)
  }

  ghost predicate PossibleRun(st: State, steps: seq<Step>)
    decreases |steps|
  {
    steps == [] || (Enabled(st, steps[0]) && PossibleRun(Apply(st, steps[0]), steps[1..]))
  }

  function Run(st: State, steps: seq<Step>): State
    requires PossibleRun(st, steps)
    decreases |steps|
  {
    if steps == [] then st else Run(Apply(st, steps[0]), steps[1..])
  }

  // ---------------------------------------------------------------- the invariant

  /** A confirmed copy of the event is in the log. */
  ghost predicate Broadcast(log: seq<Copy>, e: EventId) {
    Copy(e, true) in log
  }

  /** Every copy of event k+1 of a task comes after a confirmed copy of event k. */
  ghost predicate FirstCopyOrder(log: seq<Copy>) {
    forall i | 0 <= i < |log| && log[i].id.number > 1 ::
      Broadcast(log[..i], EventId(log[i].id.task, log[i].id.number - 1))
  }

  /** Everything the relay still holds was the head of its task when claimed, and so stays unblocked. */
  ghost predicate Holds(table: Table, log: seq<Copy>, relay: RelayState) {
    && (forall e | e in relay.batch :: e in table && !Blocked(table, e))
    && (relay.phase == Sent(true) && relay.batch != [] ==> Broadcast(log, relay.batch[0]))
  }

  ghost predicate Consistent(table: Table, relays: map<nat, RelayState>, log: seq<Copy>) {
    && Safe(table)
    && (forall e | Published(table, e) :: Broadcast(log, e))
    && (forall rid | rid in relays :: Holds(table, log, relays[rid]))
    && (forall i | 0 <= i < |log| :: log[i].id in table)
    && FirstCopyOrder(log)
  }

  ghost predicate Inv(st: State) {
    && Numbered(st.db)
    && st.db.outbox.Keys == st.db.events.Keys
    && Consistent(st.db.outbox, st.relays, st.log)
  }

  /** A step changes the table only by advancing it; no new row precedes an old one of its task. */
  ghost predicate Grows(before: Table, after: Table) {
    && Advances(before, after)
    && (forall e, f | e in before && f in after && f !in before && f.task == e.task :: e.number <= f.number)
  }

  lemma HoldsGrows(before: Table, after: Table, log: seq<Copy>, more: seq<Copy>, relay: RelayState)
    requires Holds(before, log, relay) && Grows(before, after) && log <= more
    ensures Holds(after, more, relay)
  {
    forall e | e in relay.batch
      ensures e in after && !Blocked(after, e)
    {
      StaysUnblocked(before, after, e);
    }
    BroadcastGrows(log, more);
  }

  lemma BroadcastGrows(log: seq<Copy>, more: seq<Copy>)
    requires log <= more
    ensures forall e | Broadcast(log, e) :: Broadcast(more, e)
  {
    forall e | Broadcast(log, e)
      ensures Broadcast(more, e)
    {
      var i :| 0 <= i < |log| && log[i] == Copy(e, true);
      assert more[i] == log[i];
    }
  }

  lemma InsertKeeps(table: Table, added: Table, relays: map<nat, RelayState>, log: seq<Copy>)
    requires Consistent(table, relays, log) && table.Keys !! added.Keys
    requires forall e | e in added ::
               added[e].claimToken == None && added[e].claimedUntil == None && added[e].publishedAt == None
    requires forall e, f | e in table && f in added && e.task == f.task :: e.number < f.number
    ensures Consistent(table + added, relays, log) && Grows(table, table + added)
  {
    hide Blocked;
    InsertKeepsSafe(table, added);
    assert forall e | Published(table + added, e) :: Published(table, e);
    forall rid | rid in relays
      ensures Holds(table + added, log, relays[rid])
    {
      HoldsGrows(table, table + added, log, log, relays[rid]);
    }
  }

  lemma FlushKeeps(st: State, rows: seq<Row>, order: seq<string>)
    requires Inv(st) && Enabled(st, Step.Flush(rows, order))
    ensures Inv(Apply(st, Step.Flush(rows, order)))
    ensures Grows(st.db.outbox, Apply(st, Step.Flush(rows, order)).db.outbox)
  {
    hide NewOutbox, NewEvents, InsertRows, Inserted, TasksOf, Blocked, Consistent, Grows, Numbered;
    var delta := Inserted(st.db.points, rows);
    FlushKeepsNumbered(st.db, rows, order, st.clock);
    NewOutboxMirrors(st.db, delta, order, st.clock);
    NewOutboxIsFresh(st.db, delta, order, st.clock);
    InsertKeeps(st.db.outbox, NewOutbox(st.db, delta, order, st.clock), st.relays, st.log);
  }

  lemma NewOutboxIsFresh(db: Tables, delta: map<PointKey, real>, order: seq<string>, now: int)
    requires Numbered(db) && db.outbox.Keys == db.events.Keys
    ensures var added := NewOutbox(db, delta, order, now);
            && db.outbox.Keys !! added.Keys
            && (forall e | e in added ::
                added[e].claimToken == None && added[e].claimedUntil == None && added[e].publishedAt == None)
            && (forall e, f | e in db.outbox && f in added && e.task == f.task :: e.number < f.number)
  {
    hide TaskPayload, OfTask, TasksOf;
  }

  lemma ClaimKeeps(st: State, rid: nat, batch: seq<EventId>, lease: int)
    requires Inv(st) && Enabled(st, Step.Claim(rid, batch, lease))
    ensures Inv(Apply(st, Step.Claim(rid, batch, lease)))
    ensures Grows(st.db.outbox, Apply(st, Step.Claim(rid, batch, lease)).db.outbox)
  {
    hide Numbered, Blocked;
    var next := Apply(st, Step.Claim(rid, batch, lease));
    ClaimKeepsSafe(st.db.outbox, (set e | e in batch), st.nextToken, st.clock, st.clock + lease);
    forall other | other in next.relays
      ensures Holds(next.db.outbox, next.log, next.relays[other])
    {
      if other != rid {
        HoldsGrows(st.db.outbox, next.db.outbox, st.log, st.log, st.relays[other]);
      }
    }
    assert next.db.events == st.db.events && next.db.counters == st.db.counters;
    NumberedAlike(st.db, next.db);
  }

  lemma NumberedAlike(db: Tables, next: Tables)
    requires Numbered(db) && next.events == db.events && next.counters == db.counters
    ensures Numbered(next)
  {
    assert forall t :: LastNumber(next, t) == LastNumber(db, t);
  }

  lemma SendKeeps(st: State, rid: nat, copied: bool, confirmed: bool)
    requires Inv(st) && Enabled(st, Send(rid, copied, confirmed))
    ensures Inv(Apply(st, Send(rid, copied, confirmed)))
  {
    hide Numbered, Blocked, Safe;
    var next, relay := Apply(st, Send(rid, copied, confirmed)), st.relays[rid];
    var head := relay.batch[0];
    assert head in relay.batch;
    BroadcastGrows(st.log, next.log);
    if copied {
      assert next.log[|st.log|] == Copy(head, confirmed);
      PredecessorIsBroadcast(st, head);
      LogExtends(st.log, Copy(head, confirmed));
    }
    forall other | other in next.relays
      ensures Holds(next.db.outbox, next.log, next.relays[other])
    {
      HoldsMore(st.db.outbox, st.log, next.log, st.relays[other]);
    }
  }

  lemma HoldsMore(table: Table, log: seq<Copy>, more: seq<Copy>, relay: RelayState)
    requires Holds(table, log, relay) && log <= more
    ensures Holds(table, more, relay)
  {
    BroadcastGrows(log, more);
  }

  /** An unblocked event's predecessor is published, hence broadcast. */
  lemma PredecessorIsBroadcast(st: State, e: EventId)
    requires Inv(st) && e in st.db.outbox && !Blocked(st.db.outbox, e)
    ensures e.number > 1 ==> Broadcast(st.log, EventId(e.task, e.number - 1))
  {
    if e.number > 1 {
      var previous := EventId(e.task, e.number - 1);
      assert previous in st.db.outbox;
      assert Published(st.db.outbox, previous);
    }
  }

  lemma LogExtends(log: seq<Copy>, copy: Copy)
    requires FirstCopyOrder(log)
    requires copy.id.number > 1 ==> Broadcast(log, EventId(copy.id.task, copy.id.number - 1))
    ensures FirstCopyOrder(log + [copy])
  {
    var more := log + [copy];
    forall i | 0 <= i < |more| && more[i].id.number > 1
      ensures Broadcast(more[..i], EventId(more[i].id.task, more[i].id.number - 1))
    {
      if i < |log| {
        assert more[..i] == log[..i];
      } else {
        assert more[..i] == log;
      }
    }
  }

  lemma MarkKeeps(st: State, rid: nat, reached: bool, ok: bool, backoff: int)
    requires Inv(st) && Enabled(st, Mark(rid, reached, ok, backoff))
    ensures Inv(Apply(st, Mark(rid, reached, ok, backoff)))
    ensures Grows(st.db.outbox, Apply(st, Mark(rid, reached, ok, backoff)).db.outbox)
  {
    hide Numbered, Blocked, FirstCopyOrder, MarkedTable, Safe, Broadcast, Published;
    var relay := st.relays[rid];
    var phase := if ok then Sending else Releasing;
    MarkedGrows(st.db.outbox, st.log, relay, st.clock, backoff);
    var table := if reached then MarkedTable(st.db.outbox, relay, st.clock, backoff) else st.db.outbox;
    OneRelayMoves(st.db.outbox, table, st.relays, st.log, rid, RelayState(relay.token, relay.batch[1..], phase));
    NumberedAlike(st.db, st.db.(outbox := table));
  }

  lemma MarkedGrows(table: Table, log: seq<Copy>, relay: RelayState, now: int, backoff: int)
    requires Safe(table) && relay.batch != [] && relay.phase.Sent? && Holds(table, log, relay)
    requires forall e | Published(table, e) :: Broadcast(log, e)
    ensures var after := MarkedTable(table, relay, now, backoff);
            Safe(after) && Grows(table, after) && after.Keys == table.Keys && forall e | Published(after, e) ::
                Broadcast(log, e)
  {
    hide Blocked, Broadcast;
    MarkPublishedKeepsSafe(table, relay.batch[0], relay.token, now);
    MarkFailedKeepsSafe(table, relay.batch[0], relay.token, now, backoff);
  }

  /** One relay drops the head of its batch while the table advances. */
  lemma OneRelayMoves(table: Table, after: Table, relays: map<nat, RelayState>, log: seq<Copy>, rid: nat,
          mine: RelayState)
    requires Consistent(table, relays, log) && Safe(after) && Grows(table, after) && after.Keys == table.Keys
    requires forall e | Published(after, e) :: Broadcast(log, e)
    requires rid in relays && relays[rid].batch != [] && mine.batch == relays[rid].batch[1..] && !mine.phase.Sent?
    ensures Consistent(after, relays[rid := mine], log)
  {
    hide Blocked, FirstCopyOrder, Safe, Broadcast, Published, Grows;
    var next := relays[rid := mine];
    forall other | other in next
      ensures Holds(after, log, next[other])
    {
      HoldsGrows(table, after, log, log, relays[other]);
      assert forall e | e in relays[rid].batch[1..] :: e in relays[rid].batch;
    }
  }

  lemma ReleaseKeeps(st: State, rid: nat, reached: bool)
    requires Inv(st) && Enabled(st, Release(rid, reached))
    ensures Inv(Apply(st, Release(rid, reached)))
    ensures Grows(st.db.outbox, Apply(st, Release(rid, reached)).db.outbox)
  {
    hide Numbered, Blocked, FirstCopyOrder, Safe, Broadcast;
    var relay := st.relays[rid];
    ReleaseKeepsSafe(st.db.outbox, relay.batch[0], relay.token);
    var table := if reached then ReleaseClaim(st.db.outbox, relay.batch[0], relay.token) else st.db.outbox;
    OneRelayMoves(st.db.outbox, table, st.relays, st.log, rid, relay.(batch := relay.batch[1..]));
    NumberedAlike(st.db, st.db.(outbox := table));
  }

  /** Every step keeps the invariant, and in every step publication advances: it never reverts. */
  lemma StepKeeps(st: State, step: Step)
    requires Inv(st) && Enabled(st, step)
    ensures Inv(Apply(st, step)) && Grows(st.db.outbox, Apply(st, step).db.outbox)
    ensures st.log <= Apply(st, step).log
  {
    match step {
      case Flush(rows, order) => FlushKeeps(st, rows, order);
      case Claim(rid, batch, lease) => ClaimKeeps(st, rid, batch, lease);
      case Send(rid, copied, confirmed) => SendKeeps(st, rid, copied, confirmed);
      case Mark(rid, reached, ok, backoff) => MarkKeeps(st, rid, reached, ok, backoff);
      case Release(rid, reached) => ReleaseKeeps(st, rid, reached);
      case Finish(_) =>
      case Crash(_) =>
      case Tick(_) =>
    }
  }

  lemma {:induction false} RunKeeps(st: State, steps: seq<Step>)
    requires Inv(st) && PossibleRun(st, steps)
    ensures Inv(Run(st, steps))
    ensures forall e | Published(st.db.outbox, e) :: Published(Run(st, steps).db.outbox, e)
    decreases |steps|
  {
    hide Inv, Apply, Enabled;
    if steps != [] {
      StepKeeps(st, steps[0]);
      RunKeeps(Apply(st, steps[0]), steps[1..]);
    }
  }

  lemma InitialInv()
    ensures Inv(INITIAL)
  {
  }

  /** Prefix safety in every run: the published rows of each task are a prefix of its event order,
      and at most one row per task carries a claim token. */
  lemma PrefixSafety(steps: seq<Step>, e: EventId, f: EventId)
    requires PossibleRun(INITIAL, steps)
    requires var table := Run(INITIAL, steps).db.outbox; e in table && f in table && e.task == f.task
    ensures var table := Run(INITIAL, steps).db.outbox;
            && (e.number <= f.number && Published(table, f) ==> Published(table, e))
            && (table[e].claimToken.Some? && table[f].claimToken.Some? ==> e == f)
            && (Published(table, e) ==> Broadcast(Run(INITIAL, steps).log, e))
  {
    InitialInv();
    RunKeeps(INITIAL, steps);
    var table := Run(INITIAL, steps).db.outbox;
    if e.number <= f.number && Published(table, f) { PublishedIsPrefix(table, e, f); }
    if table[e].claimToken.Some? && table[f].claimToken.Some? { OneClaimPerTask(table, e, f); }
  }

  /** First-copy order in every run. */
  lemma LogIsOrdered(steps: seq<Step>)
    requires PossibleRun(INITIAL, steps)
    ensures FirstCopyOrder(Run(INITIAL, steps).log)
    ensures forall copy | copy in Run(INITIAL, steps).log :: copy.id in Run(INITIAL, steps).db.events
  {
    InitialInv();
    RunKeeps(INITIAL, steps);
  }

  /** Each step touches only its own: a relay no other relay, only a send the exchange, only a flush the
      events, only a claim the tokens, only time the clock. */
  lemma StepFrame(st: State, step: Step)
    requires Enabled(st, step)
    ensures var next := Apply(st, step);
            && (!step.Send? ==> next.log == st.log) && (!step.Tick? ==> next.clock == st.clock)
            && (!step.Claim? ==> next.nextToken == st.nextToken)
            && (!step.Flush? ==> next.db == st.db.(outbox := next.db.outbox))
            && (step.Send? || step.Finish? || step.Crash? || step.Tick? ==> next.db == st.db)
            && (step.Flush? || step.Tick? ==> next.relays == st.relays)
            && (!step.Flush? && !step.Tick? ==> forall other | other != step.rid ::
                  (other in next.relays <==> other in st.relays)
                  && (other in st.relays ==> next.relays[other] == st.relays[other]))
  {
    hide Store.Flush;
  }

  // ---------------------------------------------------------------- the raw order

  /** No copy of an event comes after a copy of a later one of its task. */
  ghost predicate Monotone(log: seq<Copy>) {
    forall i, j | 0 <= i < j < |log| && log[i].id.task == log[j].id.task :: log[i].id.number <= log[j].id.number
  }

  ghost predicate Copied(log: seq<Copy>, e: EventId) {
    exists i :: 0 <= i < |log| && log[i].id == e
  }

  function Successor(e: EventId): EventId {
    EventId(e.task, e.number + 1)
  }

  /** Everything ever copied was at the head of its task when it was sent, and stays unblocked. */
  ghost predicate CopiedUnblocked(table: Table, log: seq<Copy>) {
    forall i | 0 <= i < |log| :: log[i].id in table && !Blocked(table, log[i].id)
  }

  ghost predicate OrderInv(st: State) {
    Inv(st) && CopiedUnblocked(st.db.outbox, st.log)
  }

  lemma OrderInvKept(st: State, step: Step)
    requires OrderInv(st) && Enabled(st, step)
    ensures OrderInv(Apply(st, step))
  {
    hide Blocked, Inv, Apply, Enabled;
    StepKeeps(st, step);
    var next := Apply(st, step);
    forall i | 0 <= i < |next.log|
      ensures next.log[i].id in next.db.outbox && !Blocked(next.db.outbox, next.log[i].id)
    {
      if i < |st.log| {
        assert next.log[i] == st.log[i];
        StaysUnblocked(st.db.outbox, next.db.outbox, st.log[i].id);
      } else {
        SentIsUnblocked(st, step, i);
      }
    }
  }

  lemma SentIsUnblocked(st: State, step: Step, i: nat)
    requires Inv(st) && Enabled(st, step) && |st.log| <= i < |Apply(st, step).log|
    ensures var e := Apply(st, step).log[i].id; e in Apply(st, step).db.outbox && !Blocked(Apply(st, step).db.outbox, e)
  {
    hide Blocked;
    assert step.Send? && st.relays[step.rid].batch[0] in st.relays[step.rid].batch;
  }

  /** In a log in first-copy order, a copy of a later event means a copy of the next one. */
  lemma {:induction false} NextIsCopied(log: seq<Copy>, i: nat, e: EventId)
    requires FirstCopyOrder(log) && i < |log| && log[i].id.task == e.task && e.number < log[i].id.number
    requires e.number >= 0
    ensures Copied(log[..i + 1], Successor(e))
    decreases log[i].id.number
  {
    if log[i].id.number == e.number + 1 {
      assert log[..i + 1][i].id == Successor(e);
    } else {
      var before := EventId(e.task, log[i].id.number - 1);
      assert Broadcast(log[..i], before);
      var k :| 0 <= k < |log[..i]| && log[..i][k] == Copy(before, true);
      NextIsCopied(log, k, e);
      var j :| 0 <= j < |log[..k + 1]| && log[..k + 1][j].id == Successor(e);
      assert log[..i + 1][j].id == Successor(e);
    }
  }

  lemma LaterMeansNext(log: seq<Copy>, i: nat, e: EventId)
    requires FirstCopyOrder(log) && i < |log| && log[i].id.task == e.task && 0 <= e.number < log[i].id.number
    ensures Copied(log, Successor(e))
  {
    NextIsCopied(log, i, e);
    var j :| 0 <= j < |log[..i + 1]| && log[..i + 1][j].id == Successor(e);
    assert log[j].id == Successor(e);
  }

  /** One more copy keeps the raw order if and only if the next event of its task has no copy yet. */
  lemma CopyKeepsOrder(log: seq<Copy>, copy: Copy)
    requires FirstCopyOrder(log) && Monotone(log) && copy.id.number >= 0
    ensures Monotone(log + [copy]) <==> !Copied(log, Successor(copy.id))
  {
    hide FirstCopyOrder;
    var more := log + [copy];
    if Copied(log, Successor(copy.id)) {
      var i :| 0 <= i < |log| && log[i].id == Successor(copy.id);
      assert more[i].id.number > more[|log|].id.number && more[i].id.task == more[|log|].id.task;
    } else {
      forall i | 0 <= i < |log| && log[i].id.task == copy.id.task
        ensures log[i].id.number <= copy.id.number
      {
        if log[i].id.number > copy.id.number { LaterMeansNext(log, i, copy.id); }
      }
    }
  }

  /** Nothing after an unpublished event has ever been copied. */
  lemma UnpublishedIsLast(st: State, e: EventId)
    requires OrderInv(st) && e in st.db.outbox && !Published(st.db.outbox, e)
    ensures !Copied(st.log, Successor(e))
  {
    forall i | 0 <= i < |st.log|
      ensures st.log[i].id != Successor(e)
    {
      assert !Blocked(st.db.outbox, st.log[i].id);
    }
  }

  /** The steps that put a copy into the exchange, and when they keep the order. */
  ghost predicate Timely(st: State, step: Step)
    requires Enabled(st, step)
  {
    step.Send? && step.copied ==> !Copied(st.log, Successor(st.relays[step.rid].batch[0]))
  }

  /** What a relay can ask its own table just before it publishes: is the row still unpublished? While
      its claim stands, it is. */
  ghost predicate Checked(st: State, step: Step)
    requires Enabled(st, step)
  {
    step.Send? && step.copied ==> !Published(st.db.outbox, st.relays[step.rid].batch[0])
  }

  lemma StandingClaimIsChecked(st: State, step: Step)
    requires Enabled(st, step)
    requires step.Send? ==> Guard(st.db.outbox, st.relays[step.rid].batch[0], st.relays[step.rid].token)
    ensures Checked(st, step)
  {
  }

  lemma CheckedIsTimely(st: State, step: Step)
    requires OrderInv(st) && Enabled(st, step) && Checked(st, step)
    ensures Timely(st, step)
  {
    hide Blocked;
    if step.Send? && step.copied {
      var batch := st.relays[step.rid].batch;
      assert batch[0] in batch;
      UnpublishedIsLast(st, batch[0]);
    }
  }

  lemma StepOrder(st: State, step: Step)
    requires OrderInv(st) && Enabled(st, step) && Monotone(st.log)
    ensures Monotone(Apply(st, step).log) <==> Timely(st, step)
  {
    hide Blocked, Monotone, Safe, FirstCopyOrder;
    if step.Send? && step.copied {
      var batch := st.relays[step.rid].batch;
      assert batch[0] in batch && batch[0] in st.db.events;
      CopyKeepsOrder(st.log, Copy(batch[0], step.confirmed));
    }
  }

  ghost predicate AllTimely(st: State, steps: seq<Step>)
    requires PossibleRun(st, steps)
    decreases |steps|
  {
    steps == [] || (Timely(st, steps[0]) && AllTimely(Apply(st, steps[0]), steps[1..]))
  }

  ghost predicate AllChecked(st: State, steps: seq<Step>)
    requires PossibleRun(st, steps)
    decreases |steps|
  {
    steps == [] || (Checked(st, steps[0]) && AllChecked(Apply(st, steps[0]), steps[1..]))
  }

  lemma {:induction false} OrderOfRuns(st: State, steps: seq<Step>)
    requires OrderInv(st) && PossibleRun(st, steps) && Monotone(st.log)
    ensures Monotone(Run(st, steps).log) <==> AllTimely(st, steps)
    ensures AllChecked(st, steps) ==> AllTimely(st, steps)
    decreases |steps|
  {
    hide OrderInv, Apply, Enabled, Monotone, Timely, Checked;
    if steps != [] {
      var next := Apply(st, steps[0]);
      OrderInvKept(st, steps[0]);
      StepOrder(st, steps[0]);
      if Checked(st, steps[0]) { CheckedIsTimely(st, steps[0]); }
      if Timely(st, steps[0]) {
        OrderOfRuns(next, steps[1..]);
      } else {
        DisorderStays(next, steps[1..]);
      }
    }
  }

  lemma {:induction false} DisorderStays(st: State, steps: seq<Step>)
    requires PossibleRun(st, steps) && !Monotone(st.log)
    ensures !Monotone(Run(st, steps).log)
    decreases |steps|
  {
    if steps != [] {
      var next := Apply(st, steps[0]);
      assert st.log <= next.log;
      var i, j :|
        0 <= i < j < |st.log| && st.log[i].id.task == st.log[j].id.task && st.log[i].id.number > st.log[j].id.number;
      assert next.log[i] == st.log[i] && next.log[j] == st.log[j];
      DisorderStays(next, steps[1..]);
    }
  }

  /** Exactly when the raw order of the exchange is monotone, for every run of any number of relays: if
      and only if no event is copied after the next one of its task has been. */
  lemma RawOrderIsExact(steps: seq<Step>)
    requires PossibleRun(INITIAL, steps)
    ensures Monotone(Run(INITIAL, steps).log) <==> AllTimely(INITIAL, steps)
  {
    OrderOfRuns(INITIAL, steps);
  }

  /** And a relay could see to it: when every copy is sent while its row is still unpublished (so in
      particular while the relay's own claim stands), the raw order is monotone. */
  lemma CheckedRunsAreMonotone(steps: seq<Step>)
    requires PossibleRun(INITIAL, steps) && AllChecked(INITIAL, steps)
    ensures Monotone(Run(INITIAL, steps).log)
  {
    OrderOfRuns(INITIAL, steps);
  }
}
