/** The worker's consume session as the program runs it: delivery states are heap objects shared by
    the buffer, and flushing updates them in place. Each method is proved against the value-level
    session of module Consumer, and is a run of that session in the system of module Delivery. */
module Worker {
  import opened Backoffs
  import opened Domain
  import opened Order
  import opened Consumer
  import opened Databases
  import Delivery
  import Store

  /** One call on a delivery's channel: whether it reports success, and whether it took effect anyway. */
  datatype Response = Response(took: bool, ok: bool)

  /** What one flush meets: the store, the wait after a failure, and the calls on the deliveries' channels. */
  datatype FlushFate = FlushFate(store: Fate, waited: bool, respond: nat -> Response)

  class DeliveryState {
    const tag: nat
    ghost const msg: nat
    ghost const rows: seq<MetricPoint>
    const totalRows: nat
    var committedRows: nat
    var terminal: bool
    ghost var fed: nat
    var verdicts: seq<Verdict>

    constructor (tag: nat, ghost msg: nat, ghost rows: seq<MetricPoint>, totalRows: nat)
      requires totalRows == |rows|
      ensures Abs() == Tracker(msg, rows, 0, 0, false, []) && this.tag == tag && this.totalRows == |this.rows|
    {
      this.tag, this.msg, this.rows, this.totalRows := tag, msg, rows, totalRows;
      committedRows, terminal, fed, verdicts := 0, false, 0, [];
    }

    ghost function Abs(): Tracker
      reads this
    {
      Tracker(msg, rows, fed, committedRows, terminal, verdicts)
    }

    method Respond(verdict: Verdict, r: Response) returns (ok: bool)
      modifies this`verdicts
      ensures ok == r.ok && verdicts == if r.took || r.ok then old(verdicts) + [verdict] else old(verdicts)
    {
      ok := r.ok;
      if r.took || r.ok { verdicts := verdicts + [verdict]; }
    }
  }

  datatype BufferedPoint = BufferedPoint(point: MetricPoint, delivery: DeliveryState)

  /** The batch with every delivery state replaced by its position in the session. */
  ghost function Items(batch: seq<BufferedPoint>): (items: seq<Item>)
    ensures |items| == |batch| && forall i | 0 <= i < |items| :: items[i] == Item(batch[i].point, batch[i].delivery.tag)
  {
    seq(|batch|, i requires 0 <= i < |batch| => Item(batch[i].point, batch[i].delivery.tag))
  }

  /** `states` are all delivery states of the session, and the batch points into them. */
  ghost predicate Indexed(states: seq<DeliveryState>, batch: seq<BufferedPoint>) {
    && (forall i | 0 <= i < |states| :: states[i].tag == i && states[i].totalRows == |states[i].rows|)
    && (forall i | 0 <= i < |batch| :: batch[i].delivery in states)
  }

  ghost function Trackers(states: seq<DeliveryState>): (r: seq<Tracker>)
    reads states
    ensures |r| == |states| && forall i | 0 <= i < |r| :: r[i] == states[i].Abs()
  {
    seq(|states|, i requires 0 <= i < |states| reads states => states[i].Abs())
  }

  lemma SameState(states: seq<DeliveryState>, batch: seq<BufferedPoint>, s: DeliveryState)
    requires Indexed(states, batch) && s in states
    ensures s.tag < |states| && states[s.tag] == s
  {
  }

  /** The batch's deliveries in order of first appearance. */
  ghost function Appearances(batch: seq<BufferedPoint>): (r: seq<DeliveryState>)
    ensures forall s | s in r :: exists i :: 0 <= i < |batch| && batch[i].delivery == s
    ensures forall i | 0 <= i < |batch| :: batch[i].delivery in r
    ensures forall i, j | 0 <= i < j < |r| :: r[i] != r[j]
  {
    if batch == [] then []
    else
      var before, last := Appearances(batch[..|batch| - 1]), batch[|batch| - 1];
      assert batch == batch[..|batch| - 1] + [last];
      if last.delivery in before then before else before + [last.delivery]
  }

  method UniqueDeliveryStates(batch: seq<BufferedPoint>) returns (unique: seq<DeliveryState>)
    ensures unique == Appearances(batch)
  {
    var seen: set<DeliveryState> := {};
    unique := [];
    for index := 0 to |batch|
      invariant unique == Appearances(batch[..index]) && forall s :: s in seen <==> s in unique
    {
      var s := batch[index].delivery;
      assert batch[..index + 1][..index] == batch[..index];
      if s !in seen {
        seen := seen + {s};
        unique := unique + [s];
      }
    }
    assert batch[..|batch|] == batch;
  }

  lemma ShareStep(states: seq<DeliveryState>, batch: seq<BufferedPoint>, index: nat, u: DeliveryState)
    requires Indexed(states, batch) && index < |batch| && u in states
    ensures |ItemsOf(Items(batch[..index + 1]), u.tag)|
         == |ItemsOf(Items(batch[..index]), u.tag)| + if u == batch[index].delivery then 1 else 0
  {
    var s := batch[index].delivery;
    assert Items(batch[..index + 1]) == Items(batch[..index]) + [Item(batch[index].point, s.tag)];
    ItemsAppend(Items(batch[..index]), Item(batch[index].point, s.tag), u.tag);
    SameState(states, batch, u);
    SameState(states, batch, s);
  }

  ghost function Share(batch: seq<BufferedPoint>, s: DeliveryState): nat {
    |ItemsOf(Items(batch), s.tag)|
  }

  method CommittedRowsByDelivery(batch: seq<BufferedPoint>, ghost states: seq<DeliveryState>)
    returns (rows: map<DeliveryState, nat>)
    requires Indexed(states, batch)
    ensures forall s | s in rows :: s in states && rows[s] == Share(batch, s) > 0
    ensures forall s | s in states && s !in rows :: Share(batch, s) == 0
  {
    hide Share;
    rows := map[];
    NoShares(states);
    assert batch[..0] == [];
    for index := 0 to |batch|
      invariant forall s | s in rows :: s in states && rows[s] == Share(batch[..index], s) > 0
      invariant forall s | s in states && s !in rows :: Share(batch[..index], s) == 0
    {
      var s := batch[index].delivery;
      forall u | u in states
        ensures Share(batch[..index + 1], u) == Share(batch[..index], u) + if u == s then 1 else 0
      {
        ShareStep(states, batch, index, u);
        SharesAre(batch[..index], u);
        SharesAre(batch[..index + 1], u);
      }
      rows := rows[s := (if s in rows then rows[s] else 0) + 1];
    }
    assert batch[..|batch|] == batch;
  }

  lemma SharesAre(batch: seq<BufferedPoint>, s: DeliveryState)
    ensures Share(batch, s) == |ItemsOf(Items(batch), s.tag)|
  {
  }

  lemma NoShares(states: seq<DeliveryState>)
    ensures forall s | s in states :: Share([], s) == 0
  {
  }

  // ---------------------------------------------------------------- settling and giving back

  /** How one flush of the session ended. */
  datatype Outcome =
    | Done           // committed, and every completed delivery acknowledged
    | Requeued       // failed, and every touched delivery given back
    | Aborted        // the session is over

  /** This share of a committed flush is the delivery's last. */
  ghost predicate Completes(t: Tracker, rows: nat) {
    rows > 0 && !t.terminal && t.committed + rows == |t.rows|
  }

  /** A delivery whose acknowledgement reported an error. */
  ghost function HalfSettled(t: Tracker, rows: nat, took: bool): Tracker {
    t.(committed := t.committed + rows, verdicts := if took then t.verdicts + [Ack] else t.verdicts)
  }

  /** A delivery after a settling that broke off somewhere: untouched, settled, or half settled. */
  ghost predicate MaybeSettled(before: Tracker, after: Tracker, rows: nat) {
    || after == before || after == Settle(before, rows)
    || (Completes(before, rows)
        && (after == HalfSettled(before, rows, true) || after == HalfSettled(before, rows, false)))
  }

  /** A delivery after a giving back that broke off somewhere. */
  ghost predicate MaybeAbandoned(before: Tracker, after: Tracker) {
    after == before || after == Abandon(before, 1) || after == before.(terminal := true)
  }

  /** The share of one delivery in a committed batch. */
  method SettleOne(state: DeliveryState, rows: nat, r: Response) returns (ok: bool)
    requires state.totalRows == |state.rows| && rows > 0
    modifies state
    ensures ok <==> !Completes(old(state.Abs()), rows) || r.ok
    ensures ok ==> state.Abs() == Settle(old(state.Abs()), rows)
    ensures !ok ==> state.Abs() == HalfSettled(old(state.Abs()), rows, r.took)
  {
    if !state.terminal {
      state.committedRows := state.committedRows + rows;
      if state.committedRows == state.totalRows {
        var acked := state.Respond(Ack, r);
        if !acked {
          return false;
        }
        state.terminal := true;
      }
    }
    ok := true;
  }

  /** Settle every delivery of a committed batch; the map is visited in any order. */
  method SettleAll(rows: map<DeliveryState, nat>, respond: nat -> Response, ghost states: seq<DeliveryState>)
    returns (ok: bool)
    requires Indexed(states, [])
    requires forall s | s in rows :: s in states && rows[s] > 0
    modifies states
    ensures ok <==> forall s | s in rows :: !Completes(old(s.Abs()), rows[s]) || respond(s.tag).ok
    ensures ok ==> forall s | s in states :: s.Abs() == Settle(old(s.Abs()), if s in rows then rows[s] else 0)
    ensures forall s | s in states :: MaybeSettled(old(s.Abs()), s.Abs(), if s in rows then rows[s] else 0)
  {
    hide Settle, Completes, HalfSettled, MaybeSettled, Indexed;
    assert forall s | s in states :: s.totalRows == |s.rows| by { RowsAreCounted(states); }
    SettlingIsSafe();
    var remaining := rows.Keys;
    while remaining != {}
      invariant remaining <= rows.Keys
      invariant forall s | s in rows && s !in remaining :: !Completes(old(s.Abs()), rows[s]) || respond(s.tag).ok
      invariant forall s | s in rows && s !in remaining :: s.Abs() == Settle(old(s.Abs()), rows[s])
      invariant forall s | s in states && (s in remaining || s !in rows) :: s.Abs() == old(s.Abs())
      decreases remaining
    {
      var state :| state in remaining;
      remaining := remaining - {state};
      var settled := SettleOne(state, rows[state], respond(state.tag));
      if !settled {
        return false;
      }
    }
    ok := true;
  }

  lemma RowsAreCounted(states: seq<DeliveryState>)
    requires Indexed(states, [])
    ensures forall s | s in states :: s.totalRows == |s.rows|
  {
  }

  lemma SettlingIsSafe()
    ensures forall t :: Settle(t, 0) == t
    ensures forall t, n :: MaybeSettled(t, Settle(t, n), n) && MaybeSettled(t, t, n)
    ensures forall t, n, b | Completes(t, n) :: MaybeSettled(t, HalfSettled(t, n, b), n)
  {
  }

  /** Give back every delivery of a failed batch, in order of first appearance. */
  method RequeueAll(unique: seq<DeliveryState>, respond: nat -> Response, ghost states: seq<DeliveryState>)
    returns (ok: bool)
    requires Indexed(states, [])
    requires forall s | s in unique :: s in states
    requires forall i, j | 0 <= i < j < |unique| :: unique[i] != unique[j]
    modifies states
    ensures ok <==> forall s | s in unique :: respond(s.tag).ok
    ensures ok ==> forall s | s in states :: s.Abs() == Abandon(old(s.Abs()), if s in unique then 1 else 0)
    ensures forall s | s in states ::
              if s in unique then MaybeAbandoned(old(s.Abs()), s.Abs()) else s.Abs() == old(s.Abs())
  {
    for index := 0 to |unique|
      invariant forall s | s in unique[..index] :: respond(s.tag).ok
      invariant forall s | s in states :: s.Abs() == Abandon(old(s.Abs()), if s in unique[..index] then 1 else 0)
    {
      var state := unique[index];
      assert state !in unique[..index];
      assert unique[..index + 1] == unique[..index] + [state];
      state.terminal := true;
      var nacked := state.Respond(Requeue, respond(state.tag));
      if !nacked {
        return false;
      }
    }
    assert unique[..|unique|] == unique;
    ok := true;
  }

  // ---------------------------------------------------------------- one flush on values

  ghost predicate AllAnswered(tags: set<nat>, respond: nat -> Response) {
    forall tag | tag in tags :: respond(tag).ok
  }

  /** How the flush of a session ends under a given fate. */
  ghost function OutcomeOf(s: Session, fate: FlushFate): Outcome {
    if s.buffer == [] then Done
    else if FlushSucceeds(Points(s.buffer), fate.store)
    then if AllAnswered(Delivery.Completed(s), fate.respond) then Done else Aborted
    else if fate.waited && AllAnswered(Delivery.Touched(s), fate.respond) then Requeued else Aborted
  }

  /** What the objects show after the session has ended in the middle of a flush. */
  ghost predicate LeftBehind(before: Tracker, after: Tracker, stored: bool, acked: bool) {
    && after.msg == before.msg && after.rows == before.rows
    && (after.committed == before.committed || (stored && before.verdicts == [] && after.committed == before.fed))
    && (Ack in after.verdicts <==> Ack in before.verdicts || acked)
  }

  /** The session stood at `at` and ended there by the break `last`; the objects and the tables are what
      that break leaves. */
  ghost predicate Ended(cfg: Config, sid: nat, at: Delivery.System, last: Delivery.Step, states: seq<DeliveryState>,
          db: Store.Tables)
    reads states
  {
    && last.Break? && last.sid == sid && Delivery.Enabled(cfg, at, last) && Delivery.Apply(cfg, at, last).db == db
    && |states| == |at.sessions[sid].trackers|
    && forall i: nat | i < |states| ::
        LeftBehind(at.sessions[sid].trackers[i], states[i].Abs(), last.stored, i in last.acked)
  }

  /** Whatever has been acknowledged is stored, and so is the part of every delivery counted as committed. */
  ghost predicate SafeStates(states: seq<DeliveryState>, points: map<PointKey, real>)
    reads states
  {
    forall i: nat | i < |states| ::
      var t := states[i].Abs();
      && t.committed <= |t.rows| && Delivery.AllStored(points, t.rows[..t.committed])
      && (Ack in t.verdicts ==> Delivery.AllStored(points, t.rows))
  }

  lemma EndedIsSafe(cfg: Config, sid: nat, at: Delivery.System, last: Delivery.Step, states: seq<DeliveryState>,
          db: Store.Tables)
    requires cfg.Valid() && Delivery.Good(cfg, at) && Ended(cfg, sid, at, last, states, db)
    ensures SafeStates(states, db.points)
    ensures forall i: nat | i < |states| && at.sessions[sid].trackers[i].verdicts == [] && i !in last.acked ::
              states[i].msg in Delivery.Apply(cfg, at, last).ready
    ensures forall i: nat | i < |states| && i in last.lost :: states[i].msg in Delivery.Apply(cfg, at, last).ready
  {
    hide Delivery.Good, Delivery.Apply, Delivery.AllStored;
    forall i: nat | i < |states|
      ensures var t := states[i].Abs();
              && t.committed <= |t.rows| && Delivery.AllStored(db.points, t.rows[..t.committed])
              && (Ack in t.verdicts ==> Delivery.AllStored(db.points, t.rows))
      ensures (at.sessions[sid].trackers[i].verdicts == [] && i !in last.acked) || i in last.lost ==>
                states[i].msg in Delivery.Apply(cfg, at, last).ready
    {
      Delivery.BreakLosesNothing(cfg, at, last, i);
      Delivery.AckedIsStored(cfg, at, sid, i);
      FedWithin(cfg, at, sid, i);
      assert LeftBehind(at.sessions[sid].trackers[i], states[i].Abs(), last.stored, i in last.acked);
    }
  }

  /** However it ended, any of its acknowledgements and rejections may be lost on the way besides. */
  lemma EndedWithLosses(cfg: Config, sid: nat, at: Delivery.System, last: Delivery.Step, states: seq<DeliveryState>,
                        db: Store.Tables, lost: set<nat>)
    requires Ended(cfg, sid, at, last, states, db)
    requires lost <= Delivery.SettledTags(at.sessions[sid]) + last.acked
    ensures Ended(cfg, sid, at, last.(lost := lost), states, db)
  {
    hide Delivery.Completed, LeftBehind;
  }

  lemma FedWithin(cfg: Config, at: Delivery.System, sid: nat, tag: nat)
    requires Delivery.Good(cfg, at) && sid in at.sessions && tag < |at.sessions[sid].trackers|
    ensures var t := at.sessions[sid].trackers[tag];
            && t.committed <= t.fed <= |t.rows|
            && (t.committed < t.fed && !t.terminal ==> t.verdicts == [])
            && (t.terminal <==> t.verdicts != [])
  {
    var owner :| Delivery.Inv(cfg, at, owner);
    var s := at.sessions[sid];
    assert Delivery.FaithfulSession(cfg, at.published, at.db.points, s);
    assert Conserved(s.buffer, tag, s.trackers[tag]);
  }

  // ---------------------------------------------------------------- feeding on values

  /** A delivery fed to its end, or the session as it stood before the flush it died in. */
  datatype Feeding = Alive(session: Session, used: nat) | Dead(session: Session, used: nat)

  /** Buffer the rest of a delivery, flushing whenever the buffer is full, the i-th time with fate i. */
  ghost function FeedWith(cfg: Config, s: Session, tag: nat, fates: nat -> FlushFate, used: nat): Feeding
    requires tag < |s.trackers|
    decreases if s.trackers[tag].fed < |s.trackers[tag].rows| then |s.trackers[tag].rows| - s.trackers[tag].fed else 0
  {
    if s.trackers[tag].terminal || s.trackers[tag].fed >= |s.trackers[tag].rows| then Alive(s, used)
    else
      var next := Append(s, tag);
      if |next.buffer| != cfg.batchMax then FeedWith(cfg, next, tag, fates, used)
      else
        match OutcomeOf(next, fates(used))
        case Done => FeedWith(cfg, Committed(cfg, next), tag, fates, used + 1)
        case Requeued => FeedWith(cfg, Failed(cfg, next), tag, fates, used + 1)
        case Aborted => Dead(next, used)
  }

  /** A feeding that survives is one of the value model's, with the outcomes as its script. */
  lemma {:induction false} FeedWithIsFeed(cfg: Config, s: Session, tag: nat, fates: nat -> FlushFate, used: nat)
    returns (script: seq<bool>)
    requires tag < |s.trackers| && FeedWith(cfg, s, tag, fates, used).Alive?
    ensures Feed(cfg, s, tag, script) == (FeedWith(cfg, s, tag, fates, used).session, [])
    decreases if s.trackers[tag].fed < |s.trackers[tag].rows| then |s.trackers[tag].rows| - s.trackers[tag].fed else 0
  {
    hide Committed, Failed, OutcomeOf;
    if s.trackers[tag].terminal || s.trackers[tag].fed >= |s.trackers[tag].rows| {
      script := [];
    } else {
      var next := Append(s, tag);
      if |next.buffer| != cfg.batchMax {
        script := FeedWithIsFeed(cfg, next, tag, fates, used);
      } else {
        var ok := OutcomeOf(next, fates(used)).Done?;
        FlushLeavesRows(cfg, next, ok);
        var rest := FeedWithIsFeed(cfg, Flushed(cfg, next, ok), tag, fates, used + 1);
        script := [ok] + rest;
        assert script[1..] == rest;
      }
    }
  }

  // ---------------------------------------------------------------- the session

  method Refuse(tag: nat, ghost msg: nat, r: Response) returns (ok: bool, refused: DeliveryState)
    ensures fresh(refused) && refused.tag == tag && refused.rows == [] && refused.totalRows == 0
    ensures ok == r.ok && refused.Abs() == Tracker(msg, [], 0, 0, true, if r.took || r.ok then [DeadLetter] else [])
  {
    refused := new DeliveryState(tag, msg, [], 0);
    ok := refused.Respond(DeadLetter, r);
    refused.terminal := true;
    assert [] + [DeadLetter] == [DeadLetter];
  }

  class ConsumeSession {
    const cfg: Config
    const db: Database
    /** The session's number in the system. */
    ghost const sid: nat
    var buffer: seq<BufferedPoint>
    var timerArmed: bool
    var failureBackoff: nat
    ghost var failures: nat
    ghost var states: seq<DeliveryState>

    ghost function Abs(): Session
      reads this, states
    {
      Session(Items(buffer), Trackers(states), timerArmed, failureBackoff, failures)
    }

    ghost predicate Valid()
      reads this, states
    {
      cfg.Valid() && Indexed(states, buffer) && Consumer.Inv(cfg, Abs())
    }

    /** The object is the system's session, and its database the system's. */
    ghost predicate Attached(st: Delivery.System)
      reads this, states, db
    {
      Delivery.Good(cfg, st) && sid in st.sessions && st.sessions[sid] == Abs() && st.db == db.Tables()
    }

    constructor (cfg: Config, db: Database, ghost sid: nat)
      requires cfg.Valid()
      ensures Valid() && Abs() == Opened(cfg) && this.cfg == cfg && this.db == db && this.sid == sid && states == []
    {
      this.cfg, this.db, this.sid := cfg, db, sid;
      buffer, timerArmed, failureBackoff, failures, states := [], false, cfg.failureBackoff, 0, [];
      new;
      OpenedConserves(cfg);
      assert Abs() == Opened(cfg);
    }

    /** After a committed flush. */
    method SettleBatch(batch: seq<BufferedPoint>, respond: nat -> Response, ghost s: Session) returns (outcome: Outcome)
      requires cfg.Valid() && Indexed(states, batch) && Consumer.Inv(cfg, s)
      requires s.buffer == Items(batch) && s.trackers == Trackers(states)
      modifies states
      ensures outcome == if AllAnswered(Delivery.Completed(s), respond) then Done else Aborted
      ensures outcome.Done? ==> Trackers(states) == SettledAll(s.trackers, s.buffer)
      ensures forall i: nat | i < |states| :: MaybeSettled(s.trackers[i], states[i].Abs(), |ItemsOf(s.buffer, i)|)
    {
      hide Settle, ItemsOf, Completes, MaybeSettled, Consumer.Inv;
      var rows := CommittedRowsByDelivery(batch, states);
      forall i: nat | i < |states|
        ensures Share(batch, states[i]) == |ItemsOf(s.buffer, i)|
        ensures i in Delivery.Completed(s) <==> Completes(s.trackers[i], |ItemsOf(s.buffer, i)|)
      {
        CompletedMeans(cfg, s, i);
      }
      assert forall t, n | Completes(t, n) :: n > 0 by { CompletingNeedsRows(); }
      var settled := SettleAll(rows, respond, states);
      outcome := if settled then Done else Aborted;
    }

    /** After a failed flush: wait out the backoff, then give back every touched delivery. */
    method RequeueBatch(batch: seq<BufferedPoint>, fate: FlushFate, ghost s: Session) returns (outcome: Outcome)
      requires Indexed(states, batch) && s.buffer == Items(batch) && s.trackers == Trackers(states)
      modifies states
      ensures outcome == if fate.waited && AllAnswered(Delivery.Touched(s), fate.respond) then Requeued else Aborted
      ensures outcome.Requeued? ==> Trackers(states) == AbandonedAll(s.trackers, s.buffer)
      ensures forall i: nat | i < |states| :: MaybeAbandoned(s.trackers[i], states[i].Abs())
    {
      hide ItemsOf, Items, AllAnswered, Appearances, Delivery.Touched, MaybeAbandoned;
      UntouchedIsSafe();
      if !fate.waited {
        return Aborted;
      }
      var unique := UniqueDeliveryStates(batch);
      TouchedAre(states, batch, s, fate.respond);
      var requeued := RequeueAll(unique, fate.respond, states);
      outcome := if requeued then Requeued else Aborted;
    }

    /** One batch against the store, and then the calls on its deliveries. */
    method FlushBatch(batch: seq<BufferedPoint>, now: int, fate: FlushFate, ghost s: Session, ghost st: Delivery.System)
      returns (outcome: Outcome, ghost end: Delivery.System, ghost last: Delivery.Step)
      requires cfg.Valid() && Indexed(states, batch) && Consumer.Inv(cfg, s) && batch != []
      requires s.buffer == Items(batch) && s.trackers == Trackers(states)
      requires Delivery.Good(cfg, st) && sid in st.sessions && st.sessions[sid] == s && st.db == db.Tables()
      modifies db, states
      ensures outcome == OutcomeOf(s, fate)
      ensures outcome.Done? ==> Trackers(states) == SettledAll(s.trackers, s.buffer)
      ensures outcome.Requeued? ==> Trackers(states) == AbandonedAll(s.trackers, s.buffer)
      ensures outcome.Done? ==> end.sessions == st.sessions[sid := Committed(cfg, s)]
      ensures outcome.Requeued? ==> end.sessions == st.sessions[sid := Failed(cfg, s)]
      ensures !outcome.Aborted? ==>
                Delivery.Good(cfg, end) && Delivery.Alone(cfg, st, sid, end) && end.db == db.Tables()
      ensures outcome.Aborted? ==> end == st && Ended(cfg, sid, st, last, states, db.Tables())
    {
      hide Delivery.Good, Delivery.Alone, ItemsOf, Consumer.Inv, MaybeSettled, MaybeAbandoned, SettledAll, AbandonedAll,
           FlushedTables, Committed, Failed, Delivery.Completed, Delivery.Touched, LeftBehind, Delivery.Apply,
           Delivery.Enabled, Acknowledged, OrderOf, Delivery.CanFlush, Delivery.Stored;
      var points := seq(|batch|, i requires 0 <= i < |batch| => batch[i].point);
      assert points == Points(s.buffer);
      ghost var order := OrderOf(cfg, st, sid);
      ghost var committed := FlushCommits(points, fate.store);
      FlushIsEnabled(cfg, st, sid, now);
      var stored := db.Flush(points, now, fate.store);
      assert db.Tables() == if committed then Delivery.Stored(st.db, s, order, now) else st.db;
      if stored {
        outcome := SettleBatch(batch, fate.respond, s);
        LeftSettled(cfg, s, states);
      } else {
        outcome := RequeueBatch(batch, fate, s);
        LeftAbandoned(cfg, s, states, committed);
      }
      last := Delivery.Break(sid, committed, if stored then Acknowledged(s, states) else {}, {}, order, now);
      if outcome.Done? {
        end := CommitStep(cfg, st, sid, order, now);
      } else if outcome.Requeued? {
        end := FailStep(cfg, st, sid, committed, order, now);
      } else {
        end := st;
        BreakStep(cfg, st, sid, last, db.Tables());
      }
    }

    /** Stop the timer and flush whatever is buffered. The outcome is the value model's, and a step of the
        system: a commit, a failure, or the break that ends the session. */
    method Flush(now: int, fate: FlushFate, ghost st: Delivery.System)
      returns (outcome: Outcome, ghost end: Delivery.System, ghost last: Delivery.Step)
      requires Valid() && Attached(st)
      modifies this`buffer, this`timerArmed, this`failureBackoff, this`failures, db, states
      ensures outcome == OutcomeOf(old(Abs()), fate)
      ensures outcome.Done? ==> Valid() && Abs() == Committed(cfg, old(Abs()))
      ensures outcome.Requeued? ==> Valid() && Abs() == Failed(cfg, old(Abs()))
      ensures !outcome.Aborted? ==> Attached(end) && Delivery.Alone(cfg, st, sid, end)
      ensures outcome.Aborted? ==> end == st && Ended(cfg, sid, st, last, states, db.Tables())
    {
      hide Consumer.Inv, ItemsOf, SettledAll, AbandonedAll, BackoffAfter, Items, Trackers, Delivery.Good,
           Delivery.Alone, OutcomeOf, Ended, Committed, Failed, Flushed, Next, Indexed;
      ghost var before := Abs();
      FlushedForms(cfg, before);
      StillIndexed(states, buffer);
      end, last := st, Delivery.Break(sid, false, {}, {}, [], now);
      ArmedWhenBuffered(cfg, before);
      timerArmed := false;
      if buffer == [] {
        FlushKeeps(cfg, before, true);
        Delivery.AloneStart(cfg, st, sid);
        EmptyIsDone(before, fate);
        assert Abs() == before;
        return Done, end, last;
      }
      var batch := buffer;
      buffer := [];
      outcome, end, last := FlushBatch(batch, now, fate, before, st);
      if outcome.Done? {
        failureBackoff, failures := cfg.failureBackoff, 0;
        assert Abs() == Committed(cfg, before);
      } else {
        failureBackoff := Next(failureBackoff, cfg.failureMaxBackoff);
        failures := failures + 1;
        assert outcome.Requeued? ==> Abs() == Failed(cfg, before);
      }
      FlushKeeps(cfg, before, outcome.Done?);
    }

    /** Buffer one point of the delivery and start the timer if it is not running. */
    method Add(point: MetricPoint, state: DeliveryState)
      requires Valid() && state in states && CanAppend(cfg, Abs(), state.tag)
      requires point == state.rows[state.fed]
      modifies this`buffer, this`timerArmed, state`fed
      ensures Valid() && Abs() == Append(old(Abs()), state.tag)
    {
      hide Consumer.Inv;
      ghost var before := Abs();
      SameState(states, buffer, state);
      buffer := buffer + [BufferedPoint(point, state)];
      state.fed := state.fed + 1;
      if !timerArmed {
        timerArmed := true;
      }
      AppendKeeps(cfg, before, state.tag);
      ArmedWhenBuffered(cfg, before);
      assert Abs() == Append(before, state.tag);
    }

    /** Buffer one point of the delivery in hand, and flush if that filled the buffer. */
    method Push(point: MetricPoint, state: DeliveryState, now: int, fate: FlushFate, ghost st: Delivery.System)
      returns (alive: bool, ghost at: Delivery.System, ghost last: Delivery.Step)
      requires Valid() && Attached(st) && state in states && state.tag == |states| - 1
      requires CanAppend(cfg, Abs(), state.tag) && point == state.rows[state.fed]
      modifies this`buffer, this`timerArmed, this`failureBackoff, this`failures, db, states
      ensures alive <==> PushedWith(cfg, old(Abs()), state.tag, fate).Alive?
      ensures alive ==> Abs() == PushedWith(cfg, old(Abs()), state.tag, fate).session
      ensures alive ==> Valid() && |buffer| < cfg.batchMax && Attached(at) && Delivery.Alone(cfg, st, sid, at)
      ensures !alive ==> Delivery.Good(cfg, at) && Delivery.Alone(cfg, st, sid, at)
      ensures !alive ==> Ended(cfg, sid, at, last, states, db.Tables())
      ensures !alive ==> sid in at.sessions && at.sessions[sid] == PushedWith(cfg, old(Abs()), state.tag, fate).session
    {
      hide Consumer.Inv, Committed, Failed, Delivery.Good, Delivery.Alone, OutcomeOf, Ended, Items, Trackers;
      ghost var before := Abs();
      Add(point, state);
      ghost var fed := BufferStep(cfg, st, sid, before, state.tag);
      at, last := fed, Delivery.Break(sid, false, {}, {}, [], now);
      alive := true;
      if |buffer| == cfg.batchMax {
        ghost var full := Abs();
        var outcome;
        outcome, at, last := Flush(now, fate, fed);
        alive := outcome != Aborted;
        FlushKeeps(cfg, full, outcome.Done?);
        if alive { Delivery.AloneThen(cfg, st, sid, fed, at); }
      }
    }

    /** Buffer all points of the delivery in hand, unless a flush on the way gives it back. */
    method PushAll(points: seq<MetricPoint>, state: DeliveryState, now: int, fates: nat -> FlushFate,
            ghost st: Delivery.System)
      returns (alive: bool, ghost at: Delivery.System, ghost last: Delivery.Step)
      requires Valid() && |buffer| < cfg.batchMax && Attached(st)
      requires state in states && state.tag == |states| - 1 && state.rows == points && state.fed == 0 && !state.terminal
      modifies this`buffer, this`timerArmed, this`failureBackoff, this`failures, db, states
      ensures alive <==> FeedWith(cfg, old(Abs()), state.tag, fates, 0).Alive?
      ensures alive ==> Valid() && |buffer| < cfg.batchMax && Attached(at) && Delivery.Alone(cfg, st, sid, at)
      ensures alive ==> Abs() == FeedWith(cfg, old(Abs()), state.tag, fates, 0).session
      ensures !alive ==> Delivery.Good(cfg, at) && Delivery.Alone(cfg, st, sid, at)
      ensures !alive ==> Ended(cfg, sid, at, last, states, db.Tables())
      ensures !alive ==>
                sid in at.sessions && at.sessions[sid] == FeedWith(cfg, old(Abs()), state.tag, fates, 0).session
    {
      hide Consumer.Inv, FeedWith, PushedWith, CanAppend, Delivery.Good, Delivery.Alone, Ended, Items, Trackers,
           BackoffAfter, Append;
      ghost var begun, tag := Abs(), state.tag;
      ghost var goal := FeedWith(cfg, begun, tag, fates, 0);
      SameState(states, buffer, state);
      Delivery.AloneStart(cfg, st, sid);
      at, last := st, Delivery.Break(sid, false, {}, {}, [], now);
      var used := 0;
      for index := 0 to |points|
        invariant Valid() && |buffer| < cfg.batchMax && Attached(at) && Delivery.Alone(cfg, st, sid, at)
        invariant state.terminal || state.fed == index
        invariant FeedWith(cfg, Abs(), tag, fates, used) == goal
      {
        if state.terminal {
          break;
        }
        ghost var s, before := Abs(), at;
        assert s.trackers[tag] == state.Abs();
        OpenCanAppend(cfg, s, tag);
        FeedWithStep(cfg, s, tag, fates, used);
        var fills := |buffer| + 1 == cfg.batchMax;
        alive, at, last := Push(points[index], state, now, fates(used), before);
        Delivery.AloneThen(cfg, st, sid, before, at);
        assert alive ==> Abs().trackers[tag] == state.Abs();
        if !alive {
          return;
        }
        used := if fills then used + 1 else used;
      }
      FeedWithStep(cfg, Abs(), tag, fates, used);
      alive := true;
    }

    /** A delivery that fails validation is refused without requeue; no point of it is buffered. */
    method Discard(tag: nat, ghost msg: nat, refusal: Response, now: int, ghost st: Delivery.System)
      returns (alive: bool, ghost at: Delivery.System, ghost last: Delivery.Step)
      requires Valid() && Idle(cfg, Abs()) && Attached(st) && tag == |states| && msg in st.ready && msg < |st.published|
      requires st.published[msg] == Delivery.Malformed
      modifies this`states
      ensures alive == refusal.ok
      ensures Valid() && Attached(at) && Delivery.Alone(cfg, st, sid, at)
      ensures Abs() == if refusal.took || refusal.ok then Reject(old(Abs()), msg) else old(Abs())
      ensures !alive ==> Ended(cfg, sid, at, last, states, db.Tables())
    {
      hide Consumer.Inv, Items, Trackers, BackoffAfter, Delivery.Good, Delivery.Alone, Ended;
      ghost var before := Abs();
      at, last := st, Delivery.Break(sid, false, {}, {}, [], now);
      Delivery.AloneStart(cfg, st, sid);
      var refused;
      alive, refused := Refuse(tag, msg, refusal);
      if refusal.took || refusal.ok {
        TrackersAppend(states, refused);
        states := states + [refused];
        RejectKeeps(cfg, before, msg);
        at := ReceiveStep(cfg, st, sid, before, msg);
        assert Abs() == Reject(before, msg);
      }
      LeavingEnds(cfg, sid, at, last, states, db.Tables());
    }

    /** What becomes of the session when a valid delivery with these rows is begun and fed to its end. */
    ghost function Fed(s: Session, msg: nat, rows: seq<MetricPoint>, fates: nat -> FlushFate): Feeding {
      FeedWith(cfg, Begin(s, msg, rows), |s.trackers|, fates, 0)
    }

    /** A valid delivery: all of its points go into the buffer, with the flushes that fill it up. */
    method FeedDelivery(tag: nat, ghost msg: nat, points: seq<MetricPoint>, now: int, fates: nat -> FlushFate,
            ghost st: Delivery.System)
      returns (alive: bool, ghost at: Delivery.System, ghost last: Delivery.Step)
      requires Valid() && Idle(cfg, Abs()) && Attached(st) && tag == |states| && msg in st.ready && msg < |st.published|
      requires st.published[msg] == Delivery.Valid(points)
      modifies this`buffer, this`timerArmed, this`failureBackoff, this`failures, this`states, db, states
      ensures alive == Fed(old(Abs()), msg, points, fates).Alive?
      ensures alive ==> Valid() && Idle(cfg, Abs()) && Attached(at)
      ensures alive ==> Abs() == Fed(old(Abs()), msg, points, fates).session
      ensures Delivery.Good(cfg, at) && Delivery.Alone(cfg, st, sid, at)
      ensures !alive ==> Ended(cfg, sid, at, last, states, db.Tables())
      ensures !alive ==> sid in at.sessions && at.sessions[sid] == Fed(old(Abs()), msg, points, fates).session
    {
      hide Consumer.Inv, FeedWith, Delivery.Good, Delivery.Alone, Ended, Items, Trackers, BackoffAfter;
      ghost var before := Abs();
      ghost var begun := Begin(before, msg, points);
      BodyHasRows(cfg, st, msg);
      BeginKeeps(cfg, before, msg, points);
      ghost var received := ReceiveStep(cfg, st, sid, before, msg);
      var state := new DeliveryState(tag, msg, points, |points|);
      TrackersAppend(states, state);
      states := states + [state];
      assert Abs() == begun;
      alive, at, last := PushAll(points, state, now, fates, received);
      Delivery.AloneThen(cfg, st, sid, received, at);
      if alive { FedIsIdle(cfg, begun, tag, fates); }
    }

    /** The select's delivery case. Delivery tags count up from zero here, and `decoded` is what validation
        and expansion make of the body. The
        session lives on unless a call on the channel reports an error or a flush is cancelled; either
        way everything it did is a run of the system, and everything acknowledged is stored. */
    method HandleDelivery(tag: nat, ghost msg: nat, decoded: Option<seq<MetricPoint>>, now: int, refusal: Response,
                          fates: nat -> FlushFate, ghost st: Delivery.System)
      returns (alive: bool, ghost at: Delivery.System, ghost last: Delivery.Step)
      requires Valid() && Idle(cfg, Abs()) && Attached(st) && tag == |states| && msg in st.ready && msg < |st.published|
      requires st.published[msg] ==
                 match decoded case None => Delivery.Malformed case Some(rows) => Delivery.Valid(rows)
      modifies this, db, states
      ensures decoded.None? ==> alive == refusal.ok
      ensures decoded.Some? ==> alive == Fed(old(Abs()), msg, decoded.value, fates).Alive?
      ensures alive ==> Valid() && Idle(cfg, Abs()) && Attached(at)
      ensures alive && decoded.None? ==> Abs() == Reject(old(Abs()), msg)
      ensures alive && decoded.Some? ==> Abs() == Fed(old(Abs()), msg, decoded.value, fates).session
      ensures !alive ==> sid in at.sessions
      ensures !alive && decoded.Some? ==> at.sessions[sid] == Fed(old(Abs()), msg, decoded.value, fates).session
      ensures Delivery.Good(cfg, at) && Delivery.Alone(cfg, st, sid, at)
      ensures !alive ==> Ended(cfg, sid, at, last, states, db.Tables())
      ensures SafeStates(states, db.points)
    {
      hide Consumer.Inv, FeedWith, Delivery.Good, Delivery.Alone, Ended, SafeStates;
      ghost var before := Abs();
      match decoded {
        case None =>
          alive, at, last := Discard(tag, msg, refusal, now, st);
        case Some(points) =>
          alive, at, last := FeedDelivery(tag, msg, points, now, fates, st);
      }
      if alive {
        AttachedIsSafe(cfg, at, sid, states);
      } else {
        EndedIsSafe(cfg, sid, at, last, states, db.Tables());
      }
    }

    /** The select's timer case: flush what is buffered. */
    method HandleTimer(now: int, fate: FlushFate, ghost st: Delivery.System)
      returns (alive: bool, ghost at: Delivery.System, ghost last: Delivery.Step)
      requires Valid() && Idle(cfg, Abs()) && Attached(st) && timerArmed
      modifies this`buffer, this`timerArmed, this`failureBackoff, this`failures, db, states
      ensures alive == !OutcomeOf(old(Abs()), fate).Aborted?
      ensures alive ==> Valid() && Idle(cfg, Abs()) && Attached(at)
      ensures alive ==> Abs() == Flushed(cfg, old(Abs()), OutcomeOf(old(Abs()), fate).Done?)
      ensures Delivery.Good(cfg, at) && Delivery.Alone(cfg, st, sid, at)
      ensures !alive ==> at == st && Ended(cfg, sid, at, last, states, db.Tables())
      ensures SafeStates(states, db.points)
    {
      hide Consumer.Inv, Committed, Failed, Delivery.Good, Delivery.Alone, Ended, SafeStates, OutcomeOf;
      ghost var before := Abs();
      Delivery.AloneStart(cfg, st, sid);
      var outcome;
      outcome, at, last := Flush(now, fate, st);
      alive := !outcome.Aborted?;
      if alive {
        FlushedIsIdle(cfg, before, outcome.Done?);
        AttachedIsSafe(cfg, at, sid, states);
      } else {
        EndedIsSafe(cfg, sid, at, last, states, db.Tables());
      }
    }

    /** The select's shutdown case: one last flush, and the session ends however that goes. */
    method HandleShutdown(now: int, fate: FlushFate, ghost st: Delivery.System)
      returns (clean: bool, ghost at: Delivery.System, ghost last: Delivery.Step)
      requires Valid() && Idle(cfg, Abs()) && Attached(st)
      modifies this`buffer, this`timerArmed, this`failureBackoff, this`failures, db, states
      ensures clean == !OutcomeOf(old(Abs()), fate).Aborted?
      ensures Delivery.Good(cfg, at) && Delivery.Alone(cfg, st, sid, at)
      ensures Ended(cfg, sid, at, last, states, db.Tables())
      ensures at.sessions[sid] ==
                if clean then Flushed(cfg, old(Abs()), OutcomeOf(old(Abs()), fate).Done?) else old(Abs())
      ensures SafeStates(states, db.points)
    {
      hide Consumer.Inv, Committed, Failed, Delivery.Good, Delivery.Alone, Ended, SafeStates, OutcomeOf;
      Delivery.AloneStart(cfg, st, sid);
      var outcome;
      outcome, at, last := Flush(now, fate, st);
      clean := !outcome.Aborted?;
      if clean {
        last := Delivery.Break(sid, false, {}, {}, [], now);
        LeavingEnds(cfg, sid, at, last, states, db.Tables());
      }
      EndedIsSafe(cfg, sid, at, last, states, db.Tables());
    }
  }

  /** A flush that the session survives leaves it idle. */
  lemma FlushedIsIdle(cfg: Config, s: Session, ok: bool)
    requires cfg.Valid() && Consumer.Inv(cfg, s) && Idle(cfg, s)
    ensures Idle(cfg, Flushed(cfg, s, ok))
  {
    hide Consumer.Inv, BackoffAfter, ItemsOf;
    FlushKeeps(cfg, s, ok);
    FlushLeavesRows(cfg, s, ok);
  }

  /** A session that returns between two flushes leaves its objects as they are. */
  lemma LeavingEnds(cfg: Config, sid: nat, at: Delivery.System, last: Delivery.Step, states: seq<DeliveryState>,
          db: Store.Tables)
    requires sid in at.sessions && at.sessions[sid].trackers == Trackers(states) && at.db == db
    requires last.Break? && last.sid == sid && !last.stored && last.acked == {}
    requires last.lost <= Delivery.SettledTags(at.sessions[sid])
    ensures Ended(cfg, sid, at, last, states, db)
  {
    hide Delivery.Completed;
  }

  /** One step of the feeding: the append, and the flush when that fills the buffer. */
  ghost function PushedWith(cfg: Config, s: Session, tag: nat, fate: FlushFate): Feeding
    requires tag < |s.trackers| && s.trackers[tag].fed < |s.trackers[tag].rows|
  {
    var next := Append(s, tag);
    if |next.buffer| != cfg.batchMax then Alive(next, 0)
    else
      match OutcomeOf(next, fate)
      case Done => Alive(Committed(cfg, next), 1)
      case Requeued => Alive(Failed(cfg, next), 1)
      case Aborted => Dead(next, 0)
  }

  lemma FeedWithStep(cfg: Config, s: Session, tag: nat, fates: nat -> FlushFate, used: nat)
    requires tag < |s.trackers|
    ensures s.trackers[tag].terminal || s.trackers[tag].fed >= |s.trackers[tag].rows| ==>
              FeedWith(cfg, s, tag, fates, used) == Alive(s, used)
    ensures !s.trackers[tag].terminal && s.trackers[tag].fed < |s.trackers[tag].rows| ==>
              var p := PushedWith(cfg, s, tag, fates(used));
              && (p.Alive? ==> p.used == if |s.buffer| + 1 == cfg.batchMax then 1 else 0)
              && |p.session.trackers| == |s.trackers| && p.session.trackers[tag].fed == s.trackers[tag].fed + 1
              && FeedWith(cfg, s, tag, fates, used) ==
                   match p
                   case Alive(next, n) => FeedWith(cfg, next, tag, fates, used + n)
                   case Dead(next, n) => Dead(next, used + n)
  {
    hide OutcomeOf, Committed, Failed;
    if !s.trackers[tag].terminal && s.trackers[tag].fed < |s.trackers[tag].rows| {
      var next := Append(s, tag);
      FlushLeavesRows(cfg, next, true);
      FlushLeavesRows(cfg, next, false);
      assert Committed(cfg, next).trackers[tag].fed == next.trackers[tag].fed;
      assert Failed(cfg, next).trackers[tag].fed == next.trackers[tag].fed;
    }
  }

  /** A feeding that survives leaves the session idle. */
  lemma FedIsIdle(cfg: Config, begun: Session, tag: nat, fates: nat -> FlushFate)
    requires cfg.Valid() && Consumer.Inv(cfg, begun) && tag < |begun.trackers| && |begun.buffer| < cfg.batchMax
    requires forall i: nat | i < |begun.trackers| && i != tag ::
               begun.trackers[i].terminal || begun.trackers[i].fed == |begun.trackers[i].rows|
    requires FeedWith(cfg, begun, tag, fates, 0).Alive?
    requires |FeedWith(cfg, begun, tag, fates, 0).session.buffer| < cfg.batchMax
    ensures Idle(cfg, FeedWith(cfg, begun, tag, fates, 0).session)
  {
    hide Consumer.Inv, FeedWith, Feed;
    var script := FeedWithIsFeed(cfg, begun, tag, fates, 0);
    FeedKeeps(cfg, begun, tag, script);
  }

  /** Taking a valid message from the queue is a step of the system. */
  lemma ReceiveStep(cfg: Config, st: Delivery.System, sid: nat, s: Session, msg: nat) returns (end: Delivery.System)
    requires cfg.Valid() && Delivery.Good(cfg, st) && sid in st.sessions && st.sessions[sid] == s && Idle(cfg, s)
    requires msg in st.ready && msg < |st.published|
    ensures Delivery.Good(cfg, end) && Delivery.Alone(cfg, st, sid, end) && end.db == st.db
    ensures end.sessions == st.sessions[sid :=
              match st.published[msg] case Valid(rows) => Begin(s, msg, rows) case Malformed => Reject(s, msg)]
  {
    hide Delivery.Good, Delivery.Alone;
    Delivery.AloneStart(cfg, st, sid);
    Delivery.AloneStep(cfg, st, sid, st, Delivery.Receive(sid, msg));
    Delivery.GoodStep(cfg, st, Delivery.Receive(sid, msg));
    end := Delivery.Apply(cfg, st, Delivery.Receive(sid, msg));
  }

  lemma BodyHasRows(cfg: Config, st: Delivery.System, msg: nat)
    requires Delivery.Good(cfg, st) && msg < |st.published| && st.published[msg].Valid?
    ensures st.published[msg].rows != []
  {
    var owner :| Delivery.Inv(cfg, st, owner);
    assert st.published[msg] in st.published;
  }

  lemma AttachedIsSafe(cfg: Config, st: Delivery.System, sid: nat, states: seq<DeliveryState>)
    requires Delivery.Good(cfg, st) && sid in st.sessions && st.sessions[sid].trackers == Trackers(states)
    ensures SafeStates(states, st.db.points)
  {
    hide Delivery.Good;
    forall i: nat | i < |states|
      ensures var t := states[i].Abs();
              && t.committed <= |t.rows| && Delivery.AllStored(st.db.points, t.rows[..t.committed])
              && (Ack in t.verdicts ==> Delivery.AllStored(st.db.points, t.rows))
    {
      Delivery.AckedIsStored(cfg, st, sid, i);
    }
  }

  lemma TrackersAppend(states: seq<DeliveryState>, state: DeliveryState)
    ensures Trackers(states + [state]) == Trackers(states) + [state.Abs()]
  {
  }

  lemma StillIndexed(states: seq<DeliveryState>, batch: seq<BufferedPoint>)
    requires Indexed(states, batch)
    ensures Indexed(states, [])
  {
  }

  lemma FlushedForms(cfg: Config, s: Session)
    ensures s.buffer == [] ==> Committed(cfg, s) == s.(armed := false)
    ensures s.buffer != [] ==>
              Committed(cfg, s) == Session([], SettledAll(s.trackers, s.buffer), false, cfg.failureBackoff, 0)
    ensures s.buffer != [] ==>
              Failed(cfg, s) == Session([], AbandonedAll(s.trackers, s.buffer), false,
                                        Next(s.backoff, cfg.failureMaxBackoff), s.failures + 1)
    ensures Flushed(cfg, s, true) == Committed(cfg, s) && Flushed(cfg, s, false) == Failed(cfg, s)
  {
  }

  lemma EmptyIsDone(s: Session, fate: FlushFate)
    requires s.buffer == []
    ensures OutcomeOf(s, fate) == Done
  {
  }

  lemma ArmedWhenBuffered(cfg: Config, s: Session)
    requires Consumer.Inv(cfg, s)
    ensures s.armed <==> s.buffer != []
  {
  }

  /** Buffering one point of the last delivery is a step of the system. */
  lemma BufferStep(cfg: Config, st: Delivery.System, sid: nat, s: Session, tag: nat) returns (end: Delivery.System)
    requires cfg.Valid() && Delivery.Good(cfg, st) && sid in st.sessions && st.sessions[sid] == s
    requires CanAppend(cfg, s, tag) && tag == |s.trackers| - 1
    ensures Delivery.Good(cfg, end) && Delivery.Alone(cfg, st, sid, end)
    ensures end.sessions == st.sessions[sid := Append(s, tag)] && end.db == st.db
  {
    hide Delivery.Good, Delivery.Alone;
    Delivery.AloneStart(cfg, st, sid);
    Delivery.AloneStep(cfg, st, sid, st, Delivery.Buffer(sid));
    Delivery.GoodStep(cfg, st, Delivery.Buffer(sid));
    end := Delivery.Apply(cfg, st, Delivery.Buffer(sid));
  }

  lemma CommitStep(cfg: Config, st: Delivery.System, sid: nat, order: seq<string>, now: int)
    returns (end: Delivery.System)
    requires cfg.Valid() && Delivery.Good(cfg, st) && sid in st.sessions
    requires Delivery.CanFlush(st.db, st.sessions[sid], order)
    ensures Delivery.Good(cfg, end) && Delivery.Alone(cfg, st, sid, end)
    ensures end.sessions == st.sessions[sid := Committed(cfg, st.sessions[sid])]
    ensures end.db == Delivery.Stored(st.db, st.sessions[sid], order, now)
  {
    hide Delivery.Good, Delivery.Alone, Committed;
    Delivery.AloneStart(cfg, st, sid);
    Delivery.AloneStep(cfg, st, sid, st, Delivery.Commit(sid, order, now));
    Delivery.GoodStep(cfg, st, Delivery.Commit(sid, order, now));
    end := Delivery.Apply(cfg, st, Delivery.Commit(sid, order, now));
  }

  lemma FailStep(cfg: Config, st: Delivery.System, sid: nat, stored: bool, order: seq<string>, now: int)
    returns (end: Delivery.System)
    requires cfg.Valid() && Delivery.Good(cfg, st) && sid in st.sessions
    requires Delivery.CanFlush(st.db, st.sessions[sid], order)
    ensures Delivery.Good(cfg, end) && Delivery.Alone(cfg, st, sid, end)
    ensures end.sessions == st.sessions[sid := Failed(cfg, st.sessions[sid])]
    ensures end.db == if stored then Delivery.Stored(st.db, st.sessions[sid], order, now) else st.db
  {
    hide Delivery.Good, Delivery.Alone, Failed;
    Delivery.AloneStart(cfg, st, sid);
    Delivery.AloneStep(cfg, st, sid, st, Delivery.Fail(sid, stored, order, now));
    Delivery.GoodStep(cfg, st, Delivery.Fail(sid, stored, order, now));
    end := Delivery.Apply(cfg, st, Delivery.Fail(sid, stored, order, now));
  }

  lemma BreakStep(cfg: Config, st: Delivery.System, sid: nat, last: Delivery.Step, db: Store.Tables)
    requires sid in st.sessions && last.Break? && last.sid == sid
    requires Delivery.CanFlush(st.db, st.sessions[sid], last.order)
    requires (last.acked != {} ==> last.stored) && last.acked <= Delivery.Completed(st.sessions[sid])
    requires last.lost <= Delivery.SettledTags(st.sessions[sid]) + last.acked
    requires db == if last.stored then Delivery.Stored(st.db, st.sessions[sid], last.order, last.now) else st.db
    ensures Delivery.Enabled(cfg, st, last) && Delivery.Apply(cfg, st, last).db == db
  {
    hide Delivery.Completed;
  }

  /** The deliveries whose acknowledgement got through. */
  ghost function Acknowledged(s: Session, states: seq<DeliveryState>): set<nat>
    requires |states| == |s.trackers|
    reads states
  {
    set tag: nat | tag < |states| && s.trackers[tag].verdicts == [] && Ack in states[tag].verdicts
  }

  /** The order in which a flush of the session numbers its tasks. */
  ghost function OrderOf(cfg: Config, st: Delivery.System, sid: nat): seq<string>
    requires Delivery.Good(cfg, st) && sid in st.sessions
  {
    Delivery.BufferIsStorable(cfg, st, sid);
    SortTexts(Store.TasksOf(Store.Inserted(st.db.points, Store.Encode(Points(st.sessions[sid].buffer)))))
  }

  /** What the system needs for a flush of the session, and what it does. */
  lemma FlushIsEnabled(cfg: Config, st: Delivery.System, sid: nat, now: int)
    requires Delivery.Good(cfg, st) && sid in st.sessions && st.sessions[sid].buffer != []
    ensures Store.AllStorable(Points(st.sessions[sid].buffer))
    ensures Delivery.CanFlush(st.db, st.sessions[sid], OrderOf(cfg, st, sid))
    ensures Delivery.Stored(st.db, st.sessions[sid], OrderOf(cfg, st, sid), now)
         == FlushedTables(st.db, Points(st.sessions[sid].buffer), now)
  {
    hide Delivery.Good, Store.Flush, Store.Inserted, Store.TasksOf, SortTexts;
    Delivery.BufferIsStorable(cfg, st, sid);
  }

  /** After a settling that broke off, the acknowledged deliveries were complete, and every object shows
      what the break says. */
  lemma LeftSettled(cfg: Config, s: Session, states: seq<DeliveryState>)
    requires Consumer.Inv(cfg, s) && |states| == |s.trackers|
    requires forall i: nat | i < |states| :: MaybeSettled(s.trackers[i], states[i].Abs(), |ItemsOf(s.buffer, i)|)
    ensures Acknowledged(s, states) <= Delivery.Completed(s)
    ensures forall i: nat | i < |states| ::
              LeftBehind(s.trackers[i], states[i].Abs(), true, i in Acknowledged(s, states))
  {
    hide ItemsOf;
    forall i: nat | i < |states|
      ensures LeftBehind(s.trackers[i], states[i].Abs(), true, i in Acknowledged(s, states))
      ensures i in Acknowledged(s, states) ==> i in Delivery.Completed(s)
    {
      var t := s.trackers[i];
      assert Conserved(s.buffer, i, t);
      assert [] + [Ack] == [Ack] && [Ack][0] == Ack;
      CompletedMeans(cfg, s, i);
    }
  }

  lemma LeftAbandoned(cfg: Config, s: Session, states: seq<DeliveryState>, stored: bool)
    requires Consumer.Inv(cfg, s) && |states| == |s.trackers|
    requires forall i: nat | i < |states| :: MaybeAbandoned(s.trackers[i], states[i].Abs())
    ensures forall i: nat | i < |states| :: LeftBehind(s.trackers[i], states[i].Abs(), stored, false)
  {
    forall i: nat | i < |states|
      ensures LeftBehind(s.trackers[i], states[i].Abs(), stored, false)
    {
      var v := s.trackers[i].verdicts;
      assert Ack in v + [Requeue] ==> Ack in v;
    }
  }

  lemma CompletedMeans(cfg: Config, s: Session, tag: nat)
    requires Consumer.Inv(cfg, s) && tag < |s.trackers|
    ensures tag in Delivery.Completed(s) <==> Completes(s.trackers[tag], |ItemsOf(s.buffer, tag)|)
  {
    hide ItemsOf;
    var t := s.trackers[tag];
    assert Conserved(s.buffer, tag, t);
    assert [] + [Ack] == [Ack];
  }

  lemma CompletingNeedsRows()
    ensures forall t, n | Completes(t, n) :: n > 0
  {
  }

  lemma UntouchedIsSafe()
    ensures forall t :: MaybeAbandoned(t, t)
  {
  }

  /** The deliveries of a batch are those its failure touches. */
  lemma TouchedAre(states: seq<DeliveryState>, batch: seq<BufferedPoint>, s: Session, respond: nat -> Response)
    requires Indexed(states, batch) && s.buffer == Items(batch) && |s.trackers| == |states|
    ensures forall u | u in Appearances(batch) :: u in states
    ensures forall i: nat | i < |states| :: states[i] in Appearances(batch) <==> |ItemsOf(s.buffer, i)| > 0
    ensures AllAnswered(Delivery.Touched(s), respond) <==> forall u | u in Appearances(batch) :: respond(u.tag).ok
  {
    hide ItemsOf, Items, Appearances;
    BatchShares(states, batch);
    forall i: nat | i < |states|
      ensures states[i] in Appearances(batch) <==> |ItemsOf(s.buffer, i)| > 0
    {
      assert Share(batch, states[i]) == |ItemsOf(s.buffer, i)|;
    }
    forall u | u in Appearances(batch)
      ensures u in states && u.tag in Delivery.Touched(s)
    {
      SameState(states, batch, u);
    }
  }

  /** A delivery has a share in the batch exactly when some point of the batch is its own. */
  lemma BatchShares(states: seq<DeliveryState>, batch: seq<BufferedPoint>)
    requires Indexed(states, batch)
    ensures forall s | s in states :: Share(batch, s) > 0 <==> exists i :: 0 <= i < |batch| && batch[i].delivery == s
  {
    forall s | s in states
      ensures |ItemsOf(Items(batch), s.tag)| > 0 <==> exists i :: 0 <= i < |batch| && batch[i].delivery == s
    {
      NoItems(Items(batch), s.tag);
      if |ItemsOf(Items(batch), s.tag)| > 0 {
        var i :| 0 <= i < |batch| && Items(batch)[i].tag == s.tag;
        SameState(states, batch, s);
        SameState(states, batch, batch[i].delivery);
      }
      if i :| 0 <= i < |batch| && batch[i].delivery == s {
        assert Items(batch)[i].tag == s.tag;
      }
    }
  }
}
