/** Who holds a message: at most one place at a time, so that an acknowledgement settles it; and that
    everything the broker owes can be settled. */
module Settling {
  import opened Consumer
  import opened Delivery
  import opened Domain
  import Order
  import Store

  // ---------------------------------------------------------------- one place for each message

  /** A delivery of the message that has not been given back. */
  ghost predicate Holding(s: Session, tag: nat, msg: nat) {
    tag < |s.trackers| && s.trackers[tag].msg == msg && s.trackers[tag].verdicts != [Requeue]
  }

  ghost predicate Held(s: Session, msg: nat) {
    exists tag: nat :: Holding(s, tag, msg)
  }

  ghost predicate HeldOnce(s: Session) {
    forall a: nat, b: nat, msg: nat | Holding(s, a, msg) && Holding(s, b, msg) :: a == b
  }

  ghost predicate OnlyRejected(s: Session, msg: nat) {
    forall tag: nat | Holding(s, tag, msg) :: s.trackers[tag].verdicts == [DeadLetter]
  }

  /** A message waits in the queue or has been delivered and not given back, never both; it has been
      delivered at most once like that; and what is dead-lettered is malformed, does not wait, and has at
      most been rejected. */
  ghost predicate Unique(st: System) {
    && (forall sid | sid in st.sessions :: HeldOnce(st.sessions[sid]))
    && (forall a, b, msg: nat | a in st.sessions && b in st.sessions && a != b && Held(st.sessions[a], msg) ::
          !Held(st.sessions[b], msg))
    && (forall sid, msg: nat | sid in st.sessions && Held(st.sessions[sid], msg) :: msg !in st.ready)
    && (forall msg | msg in st.dead :: msg !in st.ready && msg < |st.published| && st.published[msg].Malformed?)
    && (forall sid, msg | sid in st.sessions && msg in st.dead :: OnlyRejected(st.sessions[sid], msg))
  }

  /** When one session moves, and takes messages only from the queue and puts back only its own. */
  lemma MoveKeepsUnique(st: System, next: System, sid: nat)
    requires Unique(st) && sid in st.sessions && next.published == st.published
    requires forall other | other != sid ::
               (other in next.sessions <==> other in st.sessions)
               && (other in st.sessions ==> next.sessions[other] == st.sessions[other])
    requires sid in next.sessions ==>
               && HeldOnce(next.sessions[sid])
               && forall msg: nat | Held(next.sessions[sid], msg) ::
                    msg !in next.ready && (msg in st.ready || Held(st.sessions[sid], msg))
    requires forall msg | msg in next.ready :: msg in st.ready || Held(st.sessions[sid], msg)
    requires forall msg | msg in next.dead ::
               && msg !in next.ready && msg < |st.published| && st.published[msg].Malformed?
               && (msg in st.dead || msg in st.ready)
               && (sid in next.sessions ==> OnlyRejected(next.sessions[sid], msg))
    ensures Unique(next)
  {
    hide Held, HeldOnce, OnlyRejected;
    forall other, msg | other in next.sessions && msg in next.dead
      ensures OnlyRejected(next.sessions[other], msg)
    {
      if other != sid && msg !in st.dead { NotHeldIsOnlyRejected(st.sessions[other], msg); }
    }
  }

  lemma NotHeldIsOnlyRejected(s: Session, msg: nat)
    requires !Held(s, msg)
    ensures OnlyRejected(s, msg)
  {
  }

  lemma PublishKeepsUnique(cfg: Config, st: System, owner: map<PointKey, Store.EventId>, body: Body)
    requires cfg.Valid() && Delivery.Inv(cfg, st, owner) && Unique(st) && Enabled(cfg, st, Publish(body))
    ensures Unique(Apply(cfg, st, Publish(body)))
  {
    hide Store.Sound, Accounted, SentAs, Consumer.Inv, HeldOnce, OnlyRejected;
    forall sid, tag: nat | sid in st.sessions && tag < |st.sessions[sid].trackers|
      ensures st.sessions[sid].trackers[tag].msg < |st.published|
    {
      assert FaithfulSession(cfg, st.published, st.db.points, st.sessions[sid]);
      assert st.sessions[sid].trackers[tag] in st.sessions[sid].trackers;
    }
  }

  lemma OpenKeepsUnique(cfg: Config, st: System, sid: nat)
    requires Unique(st) && Enabled(cfg, st, Step.Open(sid))
    ensures Unique(Apply(cfg, st, Step.Open(sid)))
  {
    assert !exists tag: nat, msg: nat :: Holding(Opened(cfg), tag, msg);
  }

  lemma ReceiveKeepsUnique(cfg: Config, st: System, sid: nat, msg: nat)
    requires Unique(st) && Enabled(cfg, st, Receive(sid, msg))
    ensures Unique(Apply(cfg, st, Receive(sid, msg)))
  {
    var next := Apply(cfg, st, Receive(sid, msg));
    var (s, t) := (st.sessions[sid], next.sessions[sid]);
    assert forall tag: nat, m: nat | tag < |s.trackers| :: Holding(t, tag, m) <==> Holding(s, tag, m);
    assert forall m: nat :: Holding(t, |s.trackers|, m) <==> m == msg;
    assert forall tag: nat, m: nat | Holding(t, tag, m) && tag != |s.trackers| :: Held(s, m) && m != msg;
    assert OnlyRejected(t, msg) || next.dead == st.dead;
    MoveKeepsUnique(st, next, sid);
  }

  lemma BufferKeepsUnique(cfg: Config, st: System, sid: nat)
    requires Unique(st) && Enabled(cfg, st, Buffer(sid))
    ensures Unique(Apply(cfg, st, Buffer(sid)))
  {
    var next := Apply(cfg, st, Buffer(sid));
    var (s, t) := (st.sessions[sid], next.sessions[sid]);
    assert forall tag: nat | tag < |s.trackers| ::
        t.trackers[tag].msg == s.trackers[tag].msg && t.trackers[tag].verdicts == s.trackers[tag].verdicts;
    SameHolding(s, t);
    MoveKeepsUnique(st, next, sid);
  }

  /** Deliveries keep their messages; none is taken back, and none rejected. */
  lemma SameHolding(s: Session, t: Session)
    requires |t.trackers| == |s.trackers|
    requires forall tag: nat | tag < |s.trackers| :: t.trackers[tag].msg == s.trackers[tag].msg
    requires forall tag: nat | tag < |s.trackers| && t.trackers[tag].verdicts != [Requeue] ::
               s.trackers[tag].verdicts != [Requeue]
               && (s.trackers[tag].verdicts == [DeadLetter] ==> t.trackers[tag].verdicts == [DeadLetter])
    ensures HeldOnce(s) ==> HeldOnce(t)
    ensures forall msg: nat | Held(t, msg) :: Held(s, msg)
    ensures forall msg: nat | OnlyRejected(s, msg) :: OnlyRejected(t, msg)
  {
    assert forall tag: nat, msg: nat | Holding(t, tag, msg) :: Holding(s, tag, msg);
  }

  /** What a flush does to the verdicts: nothing to a delivery settled before. */
  lemma FlushVerdicts(cfg: Config, s: Session, tag: nat)
    requires cfg.Valid() && Consumer.Inv(cfg, s) && s.buffer != [] && tag < |s.trackers|
    ensures Committed(cfg, s).trackers[tag].msg == Failed(cfg, s).trackers[tag].msg == s.trackers[tag].msg
    ensures Committed(cfg, s).trackers[tag].verdicts == if tag in Completed(s) then [Ack] else s.trackers[tag].verdicts
    ensures Failed(cfg, s).trackers[tag].verdicts == if tag in Touched(s) then [Requeue] else s.trackers[tag].verdicts
    ensures tag in Completed(s) || tag in Touched(s) ==> s.trackers[tag].verdicts == []
  {
    hide ItemsOf, BackoffAfter;
    assert Conserved(s.buffer, tag, s.trackers[tag]);
    assert [] + [Ack] == [Ack] && [] + [Requeue] == [Requeue];
  }

  lemma CommitKeepsUnique(cfg: Config, st: System, sid: nat, order: seq<string>, now: int)
    requires cfg.Valid() && Unique(st) && Enabled(cfg, st, Commit(sid, order, now))
    requires Consumer.Inv(cfg, st.sessions[sid])
    ensures Unique(Apply(cfg, st, Commit(sid, order, now)))
  {
    hide Consumer.Inv, Store.Flush, Committed, Unique, Completed;
    var next := Apply(cfg, st, Commit(sid, order, now));
    var (s, t) := (st.sessions[sid], next.sessions[sid]);
    forall tag: nat | tag < |s.trackers|
      ensures t.trackers[tag].msg == s.trackers[tag].msg
      ensures t.trackers[tag].verdicts == if tag in Completed(s) then [Ack] else s.trackers[tag].verdicts
      ensures tag in Completed(s) ==> s.trackers[tag].verdicts == []
    {
      FlushVerdicts(cfg, s, tag);
    }
    SameHolding(s, t);
    assert HeldOnce(s) && (forall msg: nat | Held(s, msg) :: msg !in st.ready) by { UniqueSession(st, sid); }
    DeadStaysDead(st, sid);
    MoveKeepsUnique(st, next, sid);
  }

  lemma UniqueSession(st: System, sid: nat)
    requires Unique(st) && sid in st.sessions
    ensures HeldOnce(st.sessions[sid]) && forall msg: nat | Held(st.sessions[sid], msg) :: msg !in st.ready
  {
  }

  lemma DeadStaysDead(st: System, sid: nat)
    requires Unique(st) && sid in st.sessions
    ensures forall msg | msg in st.dead ::
              && msg !in st.ready && msg < |st.published| && st.published[msg].Malformed?
              && OnlyRejected(st.sessions[sid], msg)
  {
  }

  lemma FailKeepsUnique(cfg: Config, st: System, sid: nat, stored: bool, order: seq<string>, now: int)
    requires cfg.Valid() && Unique(st) && Enabled(cfg, st, Fail(sid, stored, order, now))
    requires Consumer.Inv(cfg, st.sessions[sid])
    ensures Unique(Apply(cfg, st, Fail(sid, stored, order, now)))
  {
    hide Consumer.Inv, Store.Flush, Failed, Unique, Touched;
    var next := Apply(cfg, st, Fail(sid, stored, order, now));
    var (s, t) := (st.sessions[sid], next.sessions[sid]);
    forall tag: nat | tag < |s.trackers|
      ensures t.trackers[tag].msg == s.trackers[tag].msg
      ensures t.trackers[tag].verdicts == if tag in Touched(s) then [Requeue] else s.trackers[tag].verdicts
      ensures tag in Touched(s) ==> s.trackers[tag].verdicts == []
    {
      FlushVerdicts(cfg, s, tag);
    }
    SameHolding(s, t);
    UniqueSession(st, sid);
    DeadStaysDead(st, sid);
    forall msg | msg in Messages(s, Touched(s))
      ensures Held(s, msg) && !Held(t, msg) && msg !in st.dead
    {
      var tag :| tag in Touched(s) && tag < |s.trackers| && s.trackers[tag].msg == msg;
      assert Holding(s, tag, msg);
      assert forall other: nat :: Holding(t, other, msg) ==> Holding(s, other, msg) && other == tag;
    }
    MoveKeepsUnique(st, next, sid);
  }

  lemma BreakKeepsUnique(cfg: Config, st: System, step: Step)
    requires Unique(st) && step.Break? && Enabled(cfg, st, step)
    ensures Unique(Apply(cfg, st, step))
  {
    hide Store.Flush, Unique, Completed;
    var next, s := Apply(cfg, st, step), st.sessions[step.sid];
    UniqueSession(st, step.sid);
    DeadStaysDead(st, step.sid);
    CompletedAreOpen(s);
    forall msg | msg in Messages(s, OpenTags(s) - step.acked) || msg in Messages(s, step.lost)
      ensures Held(s, msg) && msg !in next.dead
    {
      var tag :| 0 <= tag < |s.trackers| && (tag in OpenTags(s) || tag in step.lost) && s.trackers[tag].msg == msg
        && (tag in OpenTags(s) - step.acked || tag in step.lost);
      assert Holding(s, tag, msg);
    }
    MoveKeepsUnique(st, next, step.sid);
  }

  lemma CompletedAreOpen(s: Session)
    ensures forall tag | tag in Completed(s) :: tag < |s.trackers| && s.trackers[tag].verdicts == []
  {
  }

  lemma StepKeepsUnique(cfg: Config, st: System, owner: map<PointKey, Store.EventId>, step: Step)
    requires cfg.Valid() && Delivery.Inv(cfg, st, owner) && Unique(st) && Enabled(cfg, st, step)
    ensures Unique(Apply(cfg, st, step))
  {
    hide Unique, Apply, Store.Sound, Accounted, SentAs;
    match step {
      case Publish(body) => PublishKeepsUnique(cfg, st, owner, body);
      case Open(sid) => OpenKeepsUnique(cfg, st, sid);
      case Receive(sid, msg) => ReceiveKeepsUnique(cfg, st, sid, msg);
      case Buffer(sid) => BufferKeepsUnique(cfg, st, sid);
      case Commit(sid, order, now) => CommitKeepsUnique(cfg, st, sid, order, now);
      case Fail(sid, stored, order, now) => FailKeepsUnique(cfg, st, sid, stored, order, now);
      case Break(_, _, _, _, _, _) => BreakKeepsUnique(cfg, st, step);
    }
  }

  lemma {:induction false} RunKeepsUnique(cfg: Config, st: System, owner: map<PointKey, Store.EventId>,
          steps: seq<Step>)
    returns (finalOwner: map<PointKey, Store.EventId>)
    requires cfg.Valid() && Delivery.Inv(cfg, st, owner) && Unique(st) && Delivery.PossibleRun(cfg, st, steps)
    ensures Delivery.Inv(cfg, Delivery.Run(cfg, st, steps), finalOwner) && Unique(Delivery.Run(cfg, st, steps))
    decreases |steps|
  {
    hide Apply, Delivery.Inv, Enabled, Unique;
    if steps == [] {
      finalOwner := owner;
    } else {
      StepKeepsInv(cfg, st, owner, steps[0]);
      StepKeepsUnique(cfg, st, owner, steps[0]);
      finalOwner := RunKeepsUnique(cfg, Apply(cfg, st, steps[0]), OwnerAfter(cfg, st, owner, steps[0]), steps[1..]);
    }
  }

  // ---------------------------------------------------------------- what the broker owes

  /** The messages that a step settles: the broker hears of their acknowledgement or rejection. */
  function Settles(cfg: Config, st: System, step: Step): set<nat>
    requires Enabled(cfg, st, step)
  {
    match step
    case Commit(sid, _, _) => Messages(st.sessions[sid], Completed(st.sessions[sid]))
    case Receive(sid, msg) => if st.published[msg].Malformed? then {msg} else {}
    case Break(sid, _, acked, lost, _, _) => Messages(st.sessions[sid], acked - lost)
    case _ => {}
  }

  /** The messages that a step makes the broker owe. */
  function Incurs(cfg: Config, st: System, step: Step): set<nat>
    requires Enabled(cfg, st, step)
  {
    match step
    case Publish(_) => {|st.published|}
    case Break(sid, _, _, lost, _, _) => Messages(st.sessions[sid], lost)
    case _ => {}
  }

  /** Owed means waiting, or delivered without a verdict. */
  lemma OwedElsewhere(st: System, next: System, sid: nat, msg: nat)
    requires forall other | other != sid ::
               (other in next.sessions <==> other in st.sessions)
               && (other in st.sessions ==> next.sessions[other] == st.sessions[other])
    requires (msg in next.ready || (sid in next.sessions && Holds(next.sessions[sid], msg)))
             <==> (msg in st.ready || (sid in st.sessions && Holds(st.sessions[sid], msg)))
    ensures Owed(next, msg) <==> Owed(st, msg)
  {
    hide Holds;
  }

  /** A message held by a session is owed for its sake alone. */
  lemma OwedHere(st: System, sid: nat, msg: nat)
    requires Unique(st) && sid in st.sessions && Held(st.sessions[sid], msg)
    ensures Owed(st, msg) <==> Holds(st.sessions[sid], msg)
    ensures msg !in st.ready && forall other | other in st.sessions && other != sid :: !Holds(st.sessions[other], msg)
  {
    hide HeldOnce, OnlyRejected;
    forall other | other in st.sessions && other != sid
      ensures !Holds(st.sessions[other], msg)
    {
      HoldsIsHeld(st.sessions[other], msg);
    }
  }

  lemma OnlyHolder(s: Session, tag: nat, msg: nat)
    requires HeldOnce(s) && Holding(s, tag, msg)
    ensures Holds(s, msg) <==> s.trackers[tag].verdicts == []
  {
    if other: nat :| other < |s.trackers| && s.trackers[other].msg == msg && s.trackers[other].verdicts == [] {
      assert Holding(s, other, msg);
    }
  }

  lemma HoldsIsHeld(s: Session, msg: nat)
    ensures Holds(s, msg) ==> Held(s, msg)
  {
    if tag: nat :| tag < |s.trackers| && s.trackers[tag].msg == msg && s.trackers[tag].verdicts == [] {
      assert Holding(s, tag, msg);
    }
  }

  lemma CommitSettles(cfg: Config, st: System, sid: nat, order: seq<string>, now: int, msg: nat)
    requires cfg.Valid() && Unique(st) && Enabled(cfg, st, Commit(sid, order, now))
    requires Consumer.Inv(cfg, st.sessions[sid])
    ensures var step := Commit(sid, order, now);
            Owed(Apply(cfg, st, step), msg) <==> Owed(st, msg) && msg !in Settles(cfg, st, step)
  {
    hide Consumer.Inv, Store.Flush, Committed, Unique, Completed, Owed;
    var next := Apply(cfg, st, Commit(sid, order, now));
    var (s, t) := (st.sessions[sid], next.sessions[sid]);
    forall tag: nat | tag < |s.trackers|
      ensures t.trackers[tag].msg == s.trackers[tag].msg
      ensures t.trackers[tag].verdicts == if tag in Completed(s) then [Ack] else s.trackers[tag].verdicts
      ensures tag in Completed(s) ==> s.trackers[tag].verdicts == []
    {
      FlushVerdicts(cfg, s, tag);
    }
    CommitKeepsUnique(cfg, st, sid, order, now);
    UniqueSession(st, sid);
    if msg in Messages(s, Completed(s)) {
      var tag: nat :| tag in Completed(s) && tag < |s.trackers| && s.trackers[tag].msg == msg;
      assert Holding(s, tag, msg) && Holding(t, tag, msg);
      OwedHere(next, sid, msg);
      UniqueSession(next, sid);
      OnlyHolder(t, tag, msg);
    } else {
      assert Holds(t, msg) <==> Holds(s, msg) by { SameHolds(s, t, msg, Completed(s)); }
      OwedElsewhere(st, next, sid, msg);
    }
  }

  /** Only the deliveries among `tags` get a verdict. */
  lemma SameHolds(s: Session, t: Session, msg: nat, tags: set<nat>)
    requires |t.trackers| == |s.trackers| && msg !in Messages(s, tags)
    requires forall tag: nat | tag < |s.trackers| :: t.trackers[tag].msg == s.trackers[tag].msg
    requires forall tag: nat | tag < |s.trackers| && tag !in tags ::
               t.trackers[tag].verdicts == s.trackers[tag].verdicts
    ensures Holds(t, msg) <==> Holds(s, msg)
  {
    assert forall tag: nat | tag < |s.trackers| && tag in tags :: s.trackers[tag].msg in Messages(s, tags);
  }

  lemma FailSettlesNothing(cfg: Config, st: System, sid: nat, stored: bool, order: seq<string>, now: int, msg: nat)
    requires cfg.Valid() && Enabled(cfg, st, Fail(sid, stored, order, now)) && Consumer.Inv(cfg, st.sessions[sid])
    ensures Owed(Apply(cfg, st, Fail(sid, stored, order, now)), msg) <==> Owed(st, msg)
  {
    hide Consumer.Inv, Store.Flush, Failed, Touched, Owed;
    var next := Apply(cfg, st, Fail(sid, stored, order, now));
    var (s, t) := (st.sessions[sid], next.sessions[sid]);
    forall tag: nat | tag < |s.trackers|
      ensures t.trackers[tag].msg == s.trackers[tag].msg
      ensures t.trackers[tag].verdicts == if tag in Touched(s) then [Requeue] else s.trackers[tag].verdicts
      ensures tag in Touched(s) ==> s.trackers[tag].verdicts == []
    {
      FlushVerdicts(cfg, s, tag);
    }
    if msg in Messages(s, Touched(s)) {
      var tag: nat :| tag in Touched(s) && tag < |s.trackers| && s.trackers[tag].msg == msg;
      assert Holds(s, msg);
    } else {
      SameHolds(s, t, msg, Touched(s));
    }
    OwedElsewhere(st, next, sid, msg);
  }

  lemma BreakSettles(cfg: Config, st: System, step: Step, msg: nat)
    requires Unique(st) && step.Break? && Enabled(cfg, st, step)
    ensures Owed(Apply(cfg, st, step), msg) <==>
              (Owed(st, msg) && msg !in Settles(cfg, st, step)) || msg in Incurs(cfg, st, step)
  {
    hide Store.Flush, Unique, Completed, Owed;
    var next, s := Apply(cfg, st, step), st.sessions[step.sid];
    UniqueSession(st, step.sid);
    CompletedAreOpen(s);
    HoldsIsHeld(s, msg);
    if Held(s, msg) {
      var tag: nat :| Holding(s, tag, msg);
      OwedHere(st, step.sid, msg);
      assert forall other: nat | other < |s.trackers| && s.trackers[other].msg == msg
                              && s.trackers[other].verdicts != [Requeue] ::
          Holding(s, other, msg) && other == tag;
      assert Holds(s, msg) <==> tag in OpenTags(s);
      assert forall tags: set<nat> | tags <= OpenTags(s) || tags == step.lost ::
          msg in Messages(s, tags) <==> tag in tags;
      assert Owed(next, msg) <==> msg in next.ready by { NoSessionHolds(next, msg, st, step.sid); }
    } else {
      assert msg !in Messages(s, OpenTags(s) - step.acked) && msg !in Messages(s, step.lost)
          && msg !in Messages(s, step.acked - step.lost) by { NotHeldNotListed(s, msg, step.acked, step.lost); }
      OwedElsewhere(st, next, step.sid, msg);
    }
  }

  lemma NotHeldNotListed(s: Session, msg: nat, acked: set<nat>, lost: set<nat>)
    requires !Held(s, msg) && lost <= SettledTags(s) + acked && acked <= OpenTags(s)
    ensures msg !in Messages(s, OpenTags(s) - acked) && msg !in Messages(s, lost) && msg !in Messages(s, acked - lost)
  {
    forall tag: nat | tag < |s.trackers| && s.trackers[tag].msg == msg
      ensures tag !in OpenTags(s) && tag !in lost
    {
      assert !Holding(s, tag, msg);
    }
  }

  lemma NoSessionHolds(next: System, msg: nat, st: System, sid: nat)
    requires next.sessions == st.sessions - {sid}
    requires forall other | other in st.sessions && other != sid :: !Holds(st.sessions[other], msg)
    ensures Owed(next, msg) <==> msg in next.ready
  {
  }

  lemma ReceiveSettles(cfg: Config, st: System, sid: nat, msg: nat, m: nat)
    requires Unique(st) && Enabled(cfg, st, Receive(sid, msg))
    ensures var step := Receive(sid, msg);
            Owed(Apply(cfg, st, step), m) <==> Owed(st, m) && m !in Settles(cfg, st, step)
  {
    hide Unique, Owed;
    var next := Apply(cfg, st, Receive(sid, msg));
    var (s, t) := (st.sessions[sid], next.sessions[sid]);
    assert forall tag: nat | tag < |s.trackers| :: t.trackers[tag] == s.trackers[tag];
    if m == msg {
      ReceiveKeepsUnique(cfg, st, sid, msg);
      assert Holding(t, |s.trackers|, msg);
      OwedHere(next, sid, msg);
      UniqueSession(next, sid);
      assert Owed(st, msg) by { WaitingIsOwed(st, msg); }
      OnlyHolder(t, |s.trackers|, msg);
    } else {
      assert Holds(t, m) <==> Holds(s, m);
      OwedElsewhere(st, next, sid, m);
    }
  }

  lemma WaitingIsOwed(st: System, msg: nat)
    requires msg in st.ready
    ensures Owed(st, msg)
  {
  }

  lemma OthersSettleNothing(cfg: Config, st: System, step: Step, msg: nat)
    requires Enabled(cfg, st, step) && (step.Publish? || step.Open? || step.Buffer?)
    ensures Owed(Apply(cfg, st, step), msg) <==> Owed(st, msg) || msg in Incurs(cfg, st, step)
  {
    var next := Apply(cfg, st, step);
    match step {
      case Publish(_) =>
      case Open(sid) => OwedElsewhere(st, next, sid, msg);
      case Buffer(sid) =>
        var (s, t) := (st.sessions[sid], next.sessions[sid]);
        assert Messages(s, {}) == {};
        SameHolds(s, t, msg, {});
        OwedElsewhere(st, next, sid, msg);
    }
  }

  /** Exactly what the broker owes after each step: what it owed before and the step did not settle, and
      what it has just accepted or lost the verdict of. */
  lemma OwedExactly(cfg: Config, st: System, owner: map<PointKey, Store.EventId>, step: Step, msg: nat)
    requires cfg.Valid() && Delivery.Inv(cfg, st, owner) && Unique(st) && Enabled(cfg, st, step)
    ensures Owed(Apply(cfg, st, step), msg) <==>
              (Owed(st, msg) && msg !in Settles(cfg, st, step)) || msg in Incurs(cfg, st, step)
  {
    hide Unique, Apply, Store.Sound, Accounted, SentAs, Owed, CanFlush, Completed, Messages;
    if step.Commit? || step.Fail? { assert FaithfulSession(cfg, st.published, st.db.points, st.sessions[step.sid]); }
    match step {
      case Commit(sid, order, now) => CommitSettles(cfg, st, sid, order, now, msg);
      case Fail(sid, stored, order, now) => FailSettlesNothing(cfg, st, sid, stored, order, now, msg);
      case Break(_, _, _, _, _, _) => BreakSettles(cfg, st, step, msg);
      case Receive(sid, m) => ReceiveSettles(cfg, st, sid, m, msg);
      case _ => OthersSettleNothing(cfg, st, step, msg);
    }
  }

  /** Each step touches only its own: a session no other, only publishing the published messages, only a
      flush the store, only a rejection and the loss of one the dead letters. */
  lemma StepFrame(cfg: Config, st: System, step: Step)
    requires Enabled(cfg, st, step)
    ensures var next := Apply(cfg, st, step);
            && next.published == st.published + (if step.Publish? then [step.body] else [])
            && (!step.Commit? && !step.Fail? && !step.Break? ==> next.db == st.db)
            && ((step.Fail? || step.Break?) && !step.stored ==> next.db == st.db)
            && (!step.Receive? && !step.Break? ==> next.dead == st.dead)
            && (step.Publish? ==> next.sessions == st.sessions)
            && (!step.Publish? ==> forall other | other != step.sid ::
                  (other in next.sessions <==> other in st.sessions)
                  && (other in st.sessions ==> next.sessions[other] == st.sessions[other]))
            && (step.Break? <==> st.sessions.Keys - next.sessions.Keys != {})
  {
    hide Store.Flush, CanFlush, Completed, Touched;
    if step.Break? { assert step.sid in st.sessions.Keys - Apply(cfg, st, step).sessions.Keys; }
  }

  /** In every run, an acknowledged or rejected delivery is settled: the broker does not owe its message,
      and never will unless the verdict is lost with the session. */
  lemma VerdictSettles(cfg: Config, steps: seq<Step>, sid: nat, tag: nat)
    requires cfg.Valid() && Delivery.PossibleRun(cfg, INITIAL, steps)
    requires sid in Delivery.Run(cfg, INITIAL, steps).sessions
    requires tag < |Delivery.Run(cfg, INITIAL, steps).sessions[sid].trackers|
    ensures var st := Delivery.Run(cfg, INITIAL, steps);
            var t := st.sessions[sid].trackers[tag];
            && (t.verdicts == [Ack] || t.verdicts == [DeadLetter] ==> !Owed(st, t.msg))
            && (t.verdicts == [] ==> t.msg !in st.ready)
  {
    hide Delivery.Inv, Unique, Owed;
    InitialInv(cfg);
    InitialUnique();
    var owner := RunKeepsUnique(cfg, INITIAL, map[], steps);
    var st := Delivery.Run(cfg, INITIAL, steps);
    var s, t := st.sessions[sid], st.sessions[sid].trackers[tag];
    UniqueSession(st, sid);
    if t.verdicts != [Requeue] {
      assert Holding(s, tag, t.msg);
      OwedHere(st, sid, t.msg);
      OnlyHolder(s, tag, t.msg);
    }
  }

  lemma InitialUnique()
    ensures Unique(INITIAL)
  {
  }
}
