/** What a claim is worth while its lease runs, and that the outbox can always be drained. */
module Leases {
  import opened Domain
  import opened Outbox
  import opened Relay
  import opened Store
  import Leader

  // ---------------------------------------------------------------- while the lease runs

  /** The row as the claim left it. */
  ghost predicate Leased(table: Table, e: EventId, token: nat, until: int) {
    && e in table && table[e].claimToken == Some(token) && table[e].claimedUntil == Some(until)
    && table[e].publishedAt.None?
  }

  /** The step records or releases this very claim of the event, and takes effect. */
  ghost predicate EndsClaim(st: State, step: Step, e: EventId, token: nat)
    requires Enabled(st, step)
  {
    (step.Mark? || step.Release?) && step.reached
    && st.relays[step.rid].batch[0] == e && st.relays[step.rid].token == token
  }

  ghost predicate ClaimStands(st: State, steps: seq<Step>, e: EventId, token: nat)
    requires PossibleRun(st, steps)
    decreases |steps|
  {
    steps == [] || (!EndsClaim(st, steps[0], e, token) && ClaimStands(Apply(st, steps[0]), steps[1..], e, token))
  }

  lemma LeasedIsTaken(table: Table, e: EventId, token: nat, until: int, now: int)
    requires Leased(table, e, token, until) && now < until
    ensures !Eligible(table, e, now)
  {
  }

  lemma LeaseStep(st: State, step: Step, e: EventId, token: nat, until: int)
    requires Relay.Inv(st) && Enabled(st, step) && !EndsClaim(st, step, e, token)
    requires Leased(st.db.outbox, e, token, until) && st.clock < until
    ensures Leased(Apply(st, step).db.outbox, e, token, until)
  {
    hide Relay.Consistent, TaskPayload, OfTask, Inserted, TasksOf, InsertRows, Position;
    match step {
      case Claim(_, batch, _) =>
        LeasedIsTaken(st.db.outbox, e, token, until, st.clock);
        assert e !in batch;
      case _ =>
    }
  }

  lemma {:induction false} ClockAdvances(st: State, steps: seq<Step>)
    requires PossibleRun(st, steps)
    ensures st.clock <= Run(st, steps).clock
    decreases |steps|
  {
    hide Store.Flush;
    if steps != [] { ClockAdvances(Apply(st, steps[0]), steps[1..]); }
  }

  lemma {:induction false} LeaseRuns(st: State, steps: seq<Step>, e: EventId, token: nat, until: int)
    requires Relay.Inv(st) && PossibleRun(st, steps) && ClaimStands(st, steps, e, token)
    requires Leased(st.db.outbox, e, token, until) && Run(st, steps).clock < until
    ensures Leased(Run(st, steps).db.outbox, e, token, until)
    decreases |steps|
  {
    hide Relay.Inv, Enabled, Apply, Leased, EndsClaim;
    ClockAdvances(st, steps);
    if steps != [] {
      StepKeeps(st, steps[0]);
      LeaseStep(st, steps[0], e, token, until);
      LeaseRuns(Apply(st, steps[0]), steps[1..], e, token, until);
    }
  }

  /** Mutual exclusion by lease, in every run of any number of relays: from the claim of an event until its
      lease ends, and unless that claim has been marked or released in between, the event's row is as the
      claim left it, and no relay can claim the event. */
  lemma LeaseHolds(st: State, rid: nat, batch: seq<EventId>, lease: int, steps: seq<Step>, e: EventId)
    requires Relay.Inv(st) && Enabled(st, Step.Claim(rid, batch, lease)) && e in batch
    requires PossibleRun(Apply(st, Step.Claim(rid, batch, lease)), steps)
    requires ClaimStands(Apply(st, Step.Claim(rid, batch, lease)), steps, e, st.nextToken)
    requires Run(Apply(st, Step.Claim(rid, batch, lease)), steps).clock < st.clock + lease
    ensures var end := Run(Apply(st, Step.Claim(rid, batch, lease)), steps);
            && Leased(end.db.outbox, e, st.nextToken, st.clock + lease)
            && !Eligible(end.db.outbox, e, end.clock)
            && forall other, more, term | Enabled(end, Step.Claim(other, more, term)) :: e !in more
  {
    hide Relay.Inv, Leased, Eligible, Blocked, ClaimStands, PossibleRun, Run;
    var claim := Step.Claim(rid, batch, lease);
    ClaimedIsLeased(st, rid, batch, lease, e);
    StepKeeps(st, claim);
    LeaseRuns(Apply(st, claim), steps, e, st.nextToken, st.clock + lease);
    var end := Run(Apply(st, claim), steps);
    LeasedIsTaken(end.db.outbox, e, st.nextToken, st.clock + lease, end.clock);
  }

  lemma ClaimedIsLeased(st: State, rid: nat, batch: seq<EventId>, lease: int, e: EventId)
    requires Enabled(st, Step.Claim(rid, batch, lease)) && e in batch
    ensures Leased(Apply(st, Step.Claim(rid, batch, lease)).db.outbox, e, st.nextToken, st.clock + lease)
  {
    assert Eligible(st.db.outbox, e, st.clock);
  }

  /** A relay whose claim no longer stands changes nothing by recording or releasing it, and is not told
      that it succeeded. */
  lemma StaleClaimIsHarmless(st: State, step: Step)
    requires Enabled(st, step) && (step.Mark? || step.Release?)
    requires !Guard(st.db.outbox, st.relays[step.rid].batch[0], st.relays[step.rid].token)
    ensures Apply(st, step).db == st.db && (step.Mark? ==> !step.ok)
  {
  }

  // ---------------------------------------------------------------- draining the outbox

  /** The relays and the clock alone can bring the system from one state to the other. */
  ghost predicate Leads(st: State, end: State) {
    exists steps: seq<Step> :: Leader.Reaches(st, steps, end) && forall step: Step | step in steps :: !step.Flush?
  }

  lemma LeadsNowhere(st: State)
    ensures Leads(st, st)
  {
    Leader.StartReached(st);
  }

  lemma LeadsStep(st: State, step: Step)
    requires Enabled(st, step) && !step.Flush?
    ensures Leads(st, Apply(st, step))
  {
    hide Enabled, Apply, Leader.Reaches;
    Leader.StartReached(st);
    Leader.ReachesOneMore(st, [], st, step);
    assert forall s: Step | s in [] + [step] :: !s.Flush?;
  }

  lemma LeadsThen(st: State, middle: State, end: State)
    requires Leads(st, middle) && Leads(middle, end)
    ensures Leads(st, end)
  {
    hide Leader.Reaches;
    var a: seq<Step> :| Leader.Reaches(st, a, middle) && forall step: Step | step in a :: !step.Flush?;
    var b: seq<Step> :| Leader.Reaches(middle, b, end) && forall step: Step | step in b :: !step.Flush?;
    Leader.ReachesConcat(st, a, middle, b, end);
    assert forall step: Step | step in a + b :: !step.Flush?;
  }

  lemma LeadsKeeps(st: State, end: State)
    requires Relay.Inv(st) && Leads(st, end)
    ensures Relay.Inv(end)
  {
    hide Relay.Inv;
    var steps: seq<Step> :| Leader.Reaches(st, steps, end) && forall step: Step | step in steps :: !step.Flush?;
    RunKeeps(st, steps);
  }

  /** All relays may crash. */
  lemma {:induction false} AllCrash(st: State)
    ensures Leads(st, st.(relays := map[]))
    decreases |st.relays|
  {
    hide Leads;
    if st.relays == map[] {
      LeadsNowhere(st);
      assert st == st.(relays := map[]);
    } else {
      var rid :| rid in st.relays;
      var next := st.(relays := st.relays - {rid});
      LeadsStep(st, Crash(rid));
      assert (st.relays - {rid}).Keys == st.relays.Keys - {rid};
      assert |st.relays - {rid}| < |st.relays| by {
        assert |st.relays.Keys| == |st.relays| && |(st.relays - {rid}).Keys| == |st.relays - {rid}|;
      }
      AllCrash(next);
      LeadsThen(st, next, st.(relays := map[]));
    }
  }

  function Unpublished(table: Table): set<EventId> {
    set e | e in table && !Published(table, e)
  }

  function Later(a: int, b: int): int {
    if a < b then b else a
  }

  /** A claim and a publish that are confirmed and recorded make one row less. */
  lemma PublishHead(st: State, head: EventId) returns (end: State)
    requires st.relays == map[] && Eligible(st.db.outbox, head, st.clock)
    ensures Leads(st, end) && end.relays == map[] && end.clock == st.clock
    ensures end.db == st.db.(outbox := end.db.outbox) && end.log == st.log + [Copy(head, true)]
    ensures Unpublished(end.db.outbox) == Unpublished(st.db.outbox) - {head} && end.db.outbox.Keys == st.db.outbox.Keys
  {
    hide Leader.Reaches, Blocked;
    var claimed := Leader.OneClaim(st, 0, head);
    var steps, published := Leader.OnePublish(claimed, 0, head, st.nextToken);
    OneClaimLeads(st, head, claimed);
    assert Leads(claimed, published);
    LeadsThen(st, claimed, published);
    assert map[0 := RelayState(st.nextToken, [head], Sending)] - {0} == map[];
    end := published;
  }

  lemma OneClaimLeads(st: State, head: EventId, claimed: State)
    requires Leader.Reaches(st, [Step.Claim(0, [head], 1)], claimed)
    ensures Leads(st, claimed)
  {
    hide Leader.Reaches;
    assert forall step | step in [Step.Claim(0, [head], 1)] :: !step.Flush?;
  }

  /** Once its leases and retry times have passed, every waiting event can be published. */
  lemma {:induction false} PublishRest(st: State) returns (end: State)
    requires Relay.Inv(st) && st.relays == map[]
    ensures Leads(st, end) && end.relays == map[] && Unpublished(end.db.outbox) == {}
    ensures end.db == st.db.(outbox := end.db.outbox) && end.db.outbox.Keys == st.db.outbox.Keys
    ensures st.log <= end.log
    decreases |Unpublished(st.db.outbox)|
  {
    hide Relay.Inv, Leads, Eligible;
    if Unpublished(st.db.outbox) == {} {
      LeadsNowhere(st);
      end := st;
    } else {
      var e :| e in Unpublished(st.db.outbox);
      var head := HeadIsClaimable(st.db.outbox, e);
      var row := st.db.outbox[head];
      var until := if row.claimedUntil.Some? then row.claimedUntil.value else st.clock;
      var now := Later(Later(st.clock, row.nextAttemptAt), until);
      var later := st.(clock := now);
      LeadsStep(st, Tick(now));
      var next := PublishHead(later, head);
      LeadsThen(st, later, next);
      LeadsKeeps(st, next);
      assert |Unpublished(next.db.outbox)| < |Unpublished(st.db.outbox)|;
      end := PublishRest(next);
      LeadsThen(st, next, end);
    }
  }

  /** Nothing gets stuck: from every state that any run of flushes and relays can reach, whatever claims,
      leases, failures and crashes it went through, the relays and the clock alone can bring every event
      into the exchange and have it recorded as published. */
  lemma OutboxDrains(steps: seq<Step>) returns (end: State)
    requires PossibleRun(INITIAL, steps)
    ensures Leads(Run(INITIAL, steps), end) && end.relays == map[]
    ensures end.db == Run(INITIAL, steps).db.(outbox := end.db.outbox)
    ensures forall e | e in end.db.events :: Published(end.db.outbox, e) && Broadcast(end.log, e)
  {
    hide Leads, Relay.Consistent;
    InitialInv();
    RunKeeps(INITIAL, steps);
    end := DrainFrom(Run(INITIAL, steps));
    LeadsKeeps(Run(INITIAL, steps), end);
    PublishedIsBroadcast(end);
  }

  lemma DrainFrom(st: State) returns (end: State)
    requires Relay.Inv(st)
    ensures Leads(st, end) && end.relays == map[] && Unpublished(end.db.outbox) == {}
    ensures end.db == st.db.(outbox := end.db.outbox) && end.db.outbox.Keys == st.db.outbox.Keys && st.log <= end.log
  {
    hide Relay.Inv, Leads;
    var alone := st.(relays := map[]);
    AllCrash(st);
    LeadsKeeps(st, alone);
    end := PublishRest(alone);
    LeadsThen(st, alone, end);
  }

  lemma PublishedIsBroadcast(st: State)
    requires Relay.Inv(st) && Unpublished(st.db.outbox) == {}
    ensures forall e | e in st.db.events :: Published(st.db.outbox, e) && Broadcast(st.log, e)
  {
    hide Safe, Numbered;
    forall e | e in st.db.events
      ensures Published(st.db.outbox, e) && Broadcast(st.log, e)
    {
      assert e !in Unpublished(st.db.outbox);
    }
  }
}
