/** The write path can always finish: whatever has happened, everything the broker owes can be settled. */
module Draining {
  import opened Consumer
  import opened Delivery
  import opened Domain
  import opened Settling
  import Order
  import Store

  /** Without another message the system can come from one state to the other. */
  ghost predicate Quietly(cfg: Config, st: System, end: System) {
    exists steps: seq<Step> ::
      && Delivery.PossibleRun(cfg, st, steps) && Delivery.Run(cfg, st, steps) == end
      && forall step: Step | step in steps :: !step.Publish?
  }

  ghost predicate Underway(cfg: Config, first: System, st: System) {
    cfg.Valid() && Quietly(cfg, first, st) && Good(cfg, st) && Unique(st) && st.published == first.published
  }

  lemma QuietlyStart(cfg: Config, st: System)
    ensures Quietly(cfg, st, st)
  {
    var none: seq<Step> := [];
    assert Delivery.PossibleRun(cfg, st, none) && Delivery.Run(cfg, st, none) == st;
  }

  lemma QuietlyThen(cfg: Config, first: System, st: System, step: Step)
    requires Quietly(cfg, first, st) && Enabled(cfg, st, step) && !step.Publish?
    ensures Quietly(cfg, first, Apply(cfg, st, step))
  {
    hide Delivery.PossibleRun, Delivery.Run, Enabled, Apply;
    var steps: seq<Step> :|
      Delivery.PossibleRun(cfg, first, steps) && Delivery.Run(cfg, first, steps) == st
      && forall s: Step | s in steps :: !s.Publish?;
    RunOneMore(cfg, first, steps, step);
    assert forall s: Step | s in steps + [step] :: !s.Publish?;
  }

  lemma Advance(cfg: Config, first: System, st: System, step: Step) returns (next: System)
    requires Underway(cfg, first, st) && Enabled(cfg, st, step) && !step.Publish?
    ensures next == Apply(cfg, st, step) && Underway(cfg, first, next)
  {
    hide Quietly, Enabled, Unique, Delivery.Inv, CanFlush, Store.Flush;
    next := Apply(cfg, st, step);
    QuietlyThen(cfg, first, st, step);
    GoodStep(cfg, st, step);
    var owner :| Delivery.Inv(cfg, st, owner);
    StepKeepsUnique(cfg, st, owner, step);
  }

  /** Every session may end. */
  lemma {:induction false} AllBreak(cfg: Config, first: System, st: System) returns (end: System)
    requires Underway(cfg, first, st)
    ensures Underway(cfg, first, end) && end.sessions == map[]
    decreases |st.sessions|
  {
    hide Underway, CanFlush, Completed, SettledTags;
    if st.sessions == map[] {
      end := st;
    } else {
      var sid :| sid in st.sessions;
      var next := Advance(cfg, first, st, Break(sid, false, {}, {}, [], 0));
      assert next.sessions.Keys == st.sessions.Keys - {sid};
      assert |next.sessions.Keys| < |st.sessions.Keys| && |next.sessions.Keys| == |next.sessions|
          && |st.sessions.Keys| == |st.sessions|;
      end := AllBreak(cfg, first, next);
    }
  }

  /** One session, with one delivery in hand. */
  ghost predicate InHand(st: System, msg: nat) {
    && st.sessions.Keys == {0} && |st.sessions[0].trackers| == 1 && st.sessions[0].trackers[0].msg == msg
  }

  lemma Flushes(cfg: Config, first: System, st: System, msg: nat) returns (next: System)
    requires Underway(cfg, first, st) && InHand(st, msg)
    requires st.sessions[0].buffer != [] && st.sessions[0].trackers[0].verdicts == []
    ensures Underway(cfg, first, next) && InHand(next, msg) && next.ready == st.ready
    ensures var (t, u) := (st.sessions[0].trackers[0], next.sessions[0].trackers[0]);
            && u.fed == t.fed && u.rows == t.rows && next.sessions[0].buffer == []
            && u.verdicts == if t.fed == |t.rows| then [Ack] else []
  {
    hide Underway, Store.Inserted, Store.TasksOf, Store.Flush, Order.SortTexts;
    SessionIsConserved(cfg, first, st);
    assert Good(cfg, st) by { UnderwayIsGood(cfg, first, st); }
    BufferIsStorable(cfg, st, 0);
    var s := st.sessions[0];
    var order := Order.SortTexts(Store.TasksOf(Store.Inserted(st.db.points, Store.Encode(Points(s.buffer)))));
    FlushForms(cfg, s);
    next := Advance(cfg, first, st, Commit(0, order, 0));
  }

  /** The only delivery of a flushed session. */
  lemma FlushForms(cfg: Config, s: Session)
    requires cfg.Valid() && Consumer.Inv(cfg, s) && s.buffer != [] && |s.trackers| == 1 && s.trackers[0].verdicts == []
    ensures var u := Committed(cfg, s).trackers[0];
            && u.msg == s.trackers[0].msg && u.rows == s.trackers[0].rows && u.fed == s.trackers[0].fed
            && u.verdicts == (if u.fed == |u.rows| then [Ack] else []) && Committed(cfg, s).buffer == []
  {
    hide BackoffAfter, ItemsOf;
    assert Conserved(s.buffer, 0, s.trackers[0]);
    CommittedSettles(cfg, s, 0);
    assert [] + [Ack] == [Ack];
  }

  lemma UnderwayIsGood(cfg: Config, first: System, st: System)
    requires Underway(cfg, first, st)
    ensures Good(cfg, st) && cfg.Valid() && Unique(st) && st.published == first.published
  {
  }

  lemma SessionIsConserved(cfg: Config, first: System, st: System)
    requires Underway(cfg, first, st)
    ensures cfg.Valid() && forall sid | sid in st.sessions :: Consumer.Inv(cfg, st.sessions[sid])
  {
    hide Store.Sound, Accounted, SentAs, Unique, Consumer.Inv;
    var owner :| Delivery.Inv(cfg, st, owner);
    assert forall sid | sid in st.sessions :: FaithfulSession(cfg, st.published, st.db.points, st.sessions[sid]);
  }

  /** The delivery in hand is buffered, flushed and acknowledged. */
  lemma {:induction false} FeedsAll(cfg: Config, first: System, st: System, msg: nat) returns (end: System)
    requires Underway(cfg, first, st) && InHand(st, msg)
    requires var (s, t) := (st.sessions[0], st.sessions[0].trackers[0]);
             |s.buffer| < cfg.batchMax && t.verdicts == [] && t.fed < |t.rows|
    ensures Underway(cfg, first, end) && InHand(end, msg) && end.ready == st.ready
    ensures end.sessions[0].trackers[0].verdicts == [Ack]
    decreases |st.sessions[0].trackers[0].rows| - st.sessions[0].trackers[0].fed
  {
    hide Underway;
    SessionIsConserved(cfg, first, st);
    assert Conserved(st.sessions[0].buffer, 0, st.sessions[0].trackers[0]);
    var next := Advance(cfg, first, st, Buffer(0));
    var (s, t) := (next.sessions[0], next.sessions[0].trackers[0]);
    if |s.buffer| == cfg.batchMax || t.fed == |t.rows| {
      next := Flushes(cfg, first, next, msg);
    }
    if t.fed == |t.rows| {
      end := next;
    } else {
      end := FeedsAll(cfg, first, next, msg);
    }
  }

  /** One waiting message is taken and settled. */
  lemma SettlesOne(cfg: Config, first: System, st: System, msg: nat) returns (end: System)
    requires Underway(cfg, first, st) && st.sessions == map[] && msg in st.ready
    ensures Underway(cfg, first, end) && end.sessions == map[] && end.ready == st.ready - {msg}
  {
    hide Underway, CanFlush;
    WaitingIsPublished(cfg, first, st, msg);
    var joined := Advance(cfg, first, st, Step.Open(0));
    var taken := Advance(cfg, first, joined, Receive(0, msg));
    var done := taken;
    if st.published[msg].Valid? {
      done := FeedsAll(cfg, first, taken, msg);
    }
    var last := Break(0, false, {}, {}, [], 0);
    NoneOpen(done.sessions[0]);
    end := Advance(cfg, first, done, last);
    assert end.sessions.Keys == {};
  }

  lemma NoneOpen(s: Session)
    requires |s.trackers| == 1 && s.trackers[0].verdicts != []
    ensures OpenTags(s) == {} && Messages(s, {}) == {} && Messages(s, OpenTags(s) - {}) == {}
  {
  }

  lemma WaitingIsPublished(cfg: Config, first: System, st: System, msg: nat)
    requires Underway(cfg, first, st) && msg in st.ready
    ensures msg < |st.published| && (st.published[msg].Valid? ==> st.published[msg].rows != [])
    ensures cfg.Valid()
  {
    hide Store.Sound, Accounted, SentAs, Unique, FaithfulSession;
    var owner :| Delivery.Inv(cfg, st, owner);
    assert st.published[msg] in st.published;
  }

  lemma {:induction false} SettlesAll(cfg: Config, first: System, st: System) returns (end: System)
    requires Underway(cfg, first, st) && st.sessions == map[]
    ensures Underway(cfg, first, end) && end.sessions == map[] && end.ready == {}
    decreases |st.ready|
  {
    hide Underway;
    if st.ready == {} {
      end := st;
    } else {
      var msg :| msg in st.ready;
      var next := SettlesOne(cfg, first, st, msg);
      end := SettlesAll(cfg, first, next);
    }
  }

  /** From every state that any run can reach, whatever was lost, refused or left half done on the way, the
      workers and the store can, without another message, settle everything the broker owes. */
  lemma EverythingSettles(cfg: Config, steps: seq<Step>) returns (more: seq<Step>)
    requires cfg.Valid() && Delivery.PossibleRun(cfg, INITIAL, steps)
    ensures Delivery.PossibleRun(cfg, INITIAL, steps + more) && forall step: Step | step in more :: !step.Publish?
    ensures var end := Delivery.Run(cfg, INITIAL, steps + more);
            && end.published == Delivery.Run(cfg, INITIAL, steps).published
            && forall msg: nat :: !Owed(end, msg)
  {
    hide Delivery.Inv, Unique, Delivery.PossibleRun, Delivery.Run;
    InitialInv(cfg);
    InitialUnique();
    var owner := RunKeepsUnique(cfg, INITIAL, map[], steps);
    var st := Delivery.Run(cfg, INITIAL, steps);
    QuietlyStart(cfg, st);
    var alone := AllBreak(cfg, st, st);
    var end := SettlesAll(cfg, st, alone);
    more :| Delivery.PossibleRun(cfg, st, more) && Delivery.Run(cfg, st, more) == end
         && forall step: Step | step in more :: !step.Publish?;
    Delivery.RunThen(cfg, INITIAL, steps, more);
  }

  /** So exactly-once effect is always within reach: every run can be continued, without another message, to
      one after which the stored keys are exactly the keys of the valid messages. */
  lemma ExactlyOnceIsReached(cfg: Config, steps: seq<Step>) returns (more: seq<Step>)
    requires cfg.Valid() && Delivery.PossibleRun(cfg, INITIAL, steps)
    ensures Delivery.PossibleRun(cfg, INITIAL, steps + more)
    ensures var (st, end) := (Delivery.Run(cfg, INITIAL, steps), Delivery.Run(cfg, INITIAL, steps + more));
            end.published == st.published && forall k :: k in end.db.points <==> Sent(st.published, k)
  {
    hide Delivery.PossibleRun, Delivery.Run, Owed, Sent;
    more := EverythingSettles(cfg, steps);
    ExactlyOnce(cfg, steps + more);
  }
}
