/** The write path as a whole: the ingest queue, any number of worker sessions, and the store. */
module Delivery {
  import opened Domain
  import opened Consumer
  import Store
  import Payloads

  /** A broker message: one that passes the worker's checks, with its expansion, or one that does not. */
  datatype Body = Valid(rows: seq<MetricPoint>) | Malformed

  /** `published` is every message the broker ever accepted; `ready` the ones waiting in the queue;
      `dead` the dead-lettered ones. A message being handled is held by its session. */
  datatype System = System(
    published: seq<Body>, ready: set<nat>, dead: set<nat>, sessions: map<nat, Session>, db: Store.Tables)

  const INITIAL := System([], {}, {}, map[], Store.EMPTY)

  datatype Step =
    | Publish(body: Body)
    | Open(sid: nat)
    | Receive(sid: nat, msg: nat)
    | Buffer(sid: nat)
    | Commit(sid: nat, order: seq<string>, now: int)
    /** The flush reported an error; the transaction may or may not have committed. */
    | Fail(sid: nat, stored: bool, order: seq<string>, now: int)
    /** The session ends: crash, lost channel, shutdown, or an error while settling. A flush may have been
        under way, and after a committed one some of its acknowledgements may have been made. And of all
        acknowledgements and rejections of the session, reported as successful or not, any may be `lost`
        on the way: the broker then redelivers those messages too. */
    | Break(sid: nat, stored: bool, acked: set<nat>, lost: set<nat>, order: seq<string>, now: int)

  /** The delivery a session is still buffering is its last one. */
  predicate Feeding(s: Session) {
    s.trackers != [] && var t := s.trackers[|s.trackers| - 1]; !t.terminal && t.fed < |t.rows|
  }

  predicate StorableBody(body: Body) {
    body.Valid? ==> body.rows != [] && Store.AllStorable(body.rows)
  }

  ghost predicate CanFlush(db: Store.Tables, s: Session, order: seq<string>) {
    && s.buffer != [] && Store.AllStorable(Points(s.buffer))
    && Store.Enumerates(order, Store.TasksOf(Store.Inserted(db.points, Store.Encode(Points(s.buffer)))))
  }

  function Stored(db: Store.Tables, s: Session, order: seq<string>, now: int): Store.Tables
    requires Store.AllStorable(Points(s.buffer))
  {
    Store.Flush(db, Store.Encode(Points(s.buffer)), order, now)
  }

  /** The deliveries that a committed flush of the whole buffer completes. */
  function Completed(s: Session): set<nat> {
    set tag: nat | tag < |s.trackers| && s.trackers[tag].verdicts == []
                && Settle(s.trackers[tag], |ItemsOf(s.buffer, tag)|).verdicts == [Ack]
  }

  /** Messages of the deliveries selected by `tags`. */
  function Messages(s: Session, tags: set<nat>): set<nat> {
    set tag | tag in tags && tag < |s.trackers| :: s.trackers[tag].msg
  }

  function OpenTags(s: Session): set<nat> {
    set tag: nat | tag < |s.trackers| && s.trackers[tag].verdicts == []
  }

  /** The deliveries acknowledged or rejected: those that the broker gives up when it hears of it. */
  function SettledTags(s: Session): set<nat> {
    set tag: nat | tag < |s.trackers| && (s.trackers[tag].verdicts == [Ack] || s.trackers[tag].verdicts == [DeadLetter])
  }

  /** The deliveries a failed flush gives back. */
  function Touched(s: Session): set<nat> {
    set tag: nat | tag < |s.trackers| && ItemsOf(s.buffer, tag) != []
  }

  ghost predicate Enabled(cfg: Config, st: System, step: Step) {
    match step
    case Publish(body) => StorableBody(body)
    case Open(sid) => sid !in st.sessions
    case Receive(sid, msg) => sid in st.sessions && !Feeding(st.sessions[sid]) && msg in st.ready
        && msg < |st.published|
    case Buffer(sid) => sid in st.sessions && Feeding(st.sessions[sid]) && |st.sessions[sid].buffer| < cfg.batchMax
    case Commit(sid, order, now) => sid in st.sessions && CanFlush(st.db, st.sessions[sid], order)
    case Fail(sid, stored, order, now) => sid in st.sessions && CanFlush(st.db, st.sessions[sid], order)
    case Break(sid, stored, acked, lost, order, now) =>
      && sid in st.sessions && lost <= SettledTags(st.sessions[sid]) + acked
      && (stored ==> CanFlush(st.db, st.sessions[sid], order))
      && (acked != {} ==> stored) && acked <= Completed(st.sessions[sid])
  }

  function Apply(cfg: Config, st: System, step: Step): System
    requires Enabled(cfg, st, step)
  {
    match step
    case Publish(body) =>
      st.(published := st.published + [body], ready := st.ready + {|st.published|})
    case Open(sid) =>
      st.(sessions := st.sessions[sid := Opened(cfg)])
    case Receive(sid, msg) =>
      var s := st.sessions[sid];
      (match st.published[msg]
       case Valid(rows) =>
         st.(ready := st.ready - {msg}, sessions := st.sessions[sid := Begin(s, msg, rows)])
       case Malformed =>
         st.(ready := st.ready - {msg}, dead := st.dead + {msg}, sessions := st.sessions[sid := Reject(s, msg)]))
    case Buffer(sid) =>
      st.(sessions := st.sessions[sid := Append(st.sessions[sid], |st.sessions[sid].trackers| - 1)])
    case Commit(sid, order, now) =>
      var s := st.sessions[sid];
      st.(sessions := st.sessions[sid := Committed(cfg, s)], db := Stored(st.db, s, order, now))
    case Fail(sid, stored, order, now) =>
      var s := st.sessions[sid];
      st.(sessions := st.sessions[sid := Failed(cfg, s)],
          ready := st.ready + Messages(s, Touched(s)),
          db := if stored then Stored(st.db, s, order, now) else st.db)
    case Break(sid, stored, acked, lost, order, now) =>
      var s := st.sessions[sid];
      st.(sessions := st.sessions - {sid},
          ready := st.ready + Messages(s, OpenTags(s) - acked) + Messages(s, lost),
          dead := st.dead - Messages(s, lost),
          db := if stored then Stored(st.db, s, order, now) else st.db)
  }

  ghost predicate PossibleRun(cfg: Config, st: System, steps: seq<Step>)
    decreases |steps|
  {
    steps == [] || (Enabled(cfg, st, steps[0]) && PossibleRun(cfg, Apply(cfg, st, steps[0]), steps[1..]))
  }

  function Run(cfg: Config, st: System, steps: seq<Step>): System
    requires PossibleRun(cfg, st, steps)
    decreases |steps|
  {
    if steps == [] then st else Run(cfg, Apply(cfg, st, steps[0]), steps[1..])
  }

  // ---------------------------------------------------------------- the system invariant

  /** The session holds the message unsettled: the broker will redeliver it if the session dies. */
  ghost predicate Holds(s: Session, msg: nat) {
    exists tag: nat :: tag < |s.trackers| && s.trackers[tag].msg == msg && s.trackers[tag].verdicts == []
  }

  /** The broker still owes the message: queued, or delivered and unsettled. */
  ghost predicate Owed(st: System, msg: nat) {
    msg in st.ready || exists sid :: sid in st.sessions && Holds(st.sessions[sid], msg)
  }

  ghost predicate AllStored(points: map<PointKey, real>, rows: seq<MetricPoint>) {
    forall p | p in rows :: p.id in points
  }

  ghost predicate Accounted(st: System, msg: nat)
    requires msg < |st.published|
  {
    Owed(st, msg) ||
    match st.published[msg]
    case Valid(rows) => AllStored(st.db.points, rows)
    case Malformed => msg in st.dead
  }

  /** A tracker carries its message's own expansion, and its committed part is in the store. */
  ghost predicate Faithful(published: seq<Body>, points: map<PointKey, real>, t: Tracker) {
    && t.msg < |published|
    && StorableBody(published[t.msg])
    && (t.verdicts == [DeadLetter] || published[t.msg] == Valid(t.rows))
    && t.committed <= |t.rows|
    && AllStored(points, t.rows[..t.committed])
  }

  ghost predicate FaithfulSession(cfg: Config, published: seq<Body>, points: map<PointKey, real>, s: Session) {
    Consumer.Inv(cfg, s) && forall t | t in s.trackers :: Faithful(published, points, t)
  }

  /** The key belongs to the expansion of some valid published message. */
  ghost predicate Sent(published: seq<Body>, k: PointKey) {
    exists b :: b in published && b.Valid? && k in KeysOf(b.rows)
  }

  /** The value is the one that some valid published message carries for the key. */
  ghost predicate SentAs(published: seq<Body>, k: PointKey, value: real) {
    exists b, p :: b in published && b.Valid? && p in b.rows && p == MetricPoint(k, Finite(value))
  }

  ghost predicate Inv(cfg: Config, st: System, owner: map<PointKey, Store.EventId>) {
    && Store.Sound(st.db, owner)
    && (forall b | b in st.published :: StorableBody(b))
    && (forall msg | msg in st.ready :: msg < |st.published|)
    && (forall sid | sid in st.sessions :: FaithfulSession(cfg, st.published, st.db.points, st.sessions[sid]))
    && (forall msg: nat | msg < |st.published| :: Accounted(st, msg))
    && (forall k | k in st.db.points :: SentAs(st.published, k, st.db.points[k]))
  }

  lemma SentAsIsSent(published: seq<Body>, k: PointKey, value: real)
    requires SentAs(published, k, value)
    ensures Sent(published, k)
  {
    var b, p :| b in published && b.Valid? && p in b.rows && p == MetricPoint(k, Finite(value));
  }

  // ---------------------------------------------------------------- one flush, seen from outside

  lemma FlushGrows(db: Store.Tables, points: seq<MetricPoint>, order: seq<string>, now: int)
    requires Store.AllStorable(points)
    ensures var out := Store.Flush(db, Store.Encode(points), order, now).points;
            && (forall k | k in db.points :: k in out && out[k] == db.points[k])
            && AllStored(out, points)
            && (forall k | k in out && k !in db.points :: MetricPoint(k, Finite(out[k])) in points)
  {
    hide Store.InsertRows;
    var rows := Store.Encode(points);
    var out := Store.Flush(db, rows, order, now).points;
    assert out == Store.InsertRows(db.points, rows);
    forall k
      ensures k in db.points ==> k in out && out[k] == db.points[k]
      ensures k in out && k !in db.points ==> MetricPoint(k, Finite(out[k])) in points
    {
      Store.FirstWins(db.points, rows, k);
      if k in out && k !in db.points {
        var r := Store.FirstWith(rows, k);
        var i :| 0 <= i < |rows| && rows[i] == r;
        assert points[i] in points && points[i] == MetricPoint(k, Finite(out[k]));
      }
    }
    forall p | p in points
      ensures p.id in out
    {
      var i :| 0 <= i < |points| && points[i] == p;
      assert rows[i] in rows && rows[i].id == p.id;
      Store.FirstWins(db.points, rows, p.id);
    }
  }

  lemma {:induction false} BufferedRowsAreSent(cfg: Config, published: seq<Body>, points: map<PointKey, real>,
          s: Session, p: MetricPoint)
    requires FaithfulSession(cfg, published, points, s) && p in Points(s.buffer)
    ensures Store.Storable(p) && exists b :: b in published && b.Valid? && p in b.rows
  {
    var i :| 0 <= i < |s.buffer| && Points(s.buffer)[i] == p;
    var tag := s.buffer[i].tag;
    var t := s.trackers[tag];
    BufferedItem(s.buffer, i);
    assert Conserved(s.buffer, tag, t);
    BufferedIsOpen(cfg, s, i);
    assert p in t.rows[t.committed..t.fed];
    assert p in t.rows;
    assert t in s.trackers;
    assert published[t.msg] in published;
  }

  lemma {:induction false} BufferedItem(buffer: seq<Item>, i: nat)
    requires i < |buffer|
    ensures buffer[i].point in ItemsOf(buffer, buffer[i].tag)
  {
    if i < |buffer| - 1 {
      BufferedItem(buffer[..|buffer| - 1], i);
    }
  }

  /** The rows of a delivery after a stored flush: what was committed plus what was buffered. */
  lemma StoredPrefix(cfg: Config, published: seq<Body>, before: map<PointKey, real>,
                     after: map<PointKey, real>, s: Session, tag: nat)
    requires FaithfulSession(cfg, published, before, s) && tag < |s.trackers| && !s.trackers[tag].terminal
    requires before.Keys <= after.Keys && AllStored(after, Points(s.buffer))
    ensures AllStored(after, s.trackers[tag].rows[..s.trackers[tag].fed])
  {
    var t := s.trackers[tag];
    assert t in s.trackers && Conserved(s.buffer, tag, t);
    forall p | p in t.rows[..t.fed]
      ensures p.id in after
    {
      assert t.rows[..t.fed] == t.rows[..t.committed] + t.rows[t.committed..t.fed];
      if p in t.rows[t.committed..t.fed] { ItemsAreBuffered(s.buffer, tag, p); }
    }
  }

  // ---------------------------------------------------------------- sessions across a step

  /** A session stays faithful while the log of messages and the store grow. */
  lemma FaithfulGrows(cfg: Config, published: seq<Body>, before: map<PointKey, real>, more: seq<Body>,
          after: map<PointKey, real>, s: Session)
    requires FaithfulSession(cfg, published, before, s)
    requires published <= more && before.Keys <= after.Keys
    ensures FaithfulSession(cfg, more, after, s)
  {
  }

  ghost predicate MessageStored(published: seq<Body>, points: map<PointKey, real>, msg: nat) {
    msg < |published| && published[msg].Valid? && AllStored(points, published[msg].rows)
  }

  /** An acknowledged delivery is completely stored. */
  lemma CommitStaysFaithful(cfg: Config, published: seq<Body>, before: map<PointKey, real>,
          after: map<PointKey, real>, s: Session)
    requires cfg.Valid() && FaithfulSession(cfg, published, before, s) && s.buffer != []
    requires before.Keys <= after.Keys && AllStored(after, Points(s.buffer))
    ensures FaithfulSession(cfg, published, after, Committed(cfg, s))
    ensures forall tag | tag in Completed(s) :: MessageStored(published, after, s.trackers[tag].msg)
    ensures forall tag: nat | tag < |s.trackers| && s.trackers[tag].verdicts == [] && tag !in Completed(s) ::
              Committed(cfg, s).trackers[tag].verdicts == []
  {
    FlushKeeps(cfg, s, true);
    var next := Committed(cfg, s);
    forall tag: nat | tag < |s.trackers|
      ensures tag < |next.trackers| && Faithful(published, after, next.trackers[tag])
      ensures tag in Completed(s) ==> MessageStored(published, after, s.trackers[tag].msg)
    {
      var t := s.trackers[tag];
      assert t in s.trackers && Conserved(s.buffer, tag, t) && Faithful(published, before, t);
      if !t.terminal {
        CommittedSettles(cfg, s, tag);
        StoredPrefix(cfg, published, before, after, s, tag);
        assert [] + [Ack] == [Ack];
        assert t.rows[..|t.rows|] == t.rows;
        assert published[t.msg] == Valid(t.rows);
      }
    }
  }

  lemma FailStaysFaithful(cfg: Config, published: seq<Body>, before: map<PointKey, real>,
                          after: map<PointKey, real>, s: Session)
    requires cfg.Valid() && FaithfulSession(cfg, published, before, s) && s.buffer != []
    requires before.Keys <= after.Keys
    ensures FaithfulSession(cfg, published, after, Failed(cfg, s))
    ensures forall tag: nat | tag < |s.trackers| && s.trackers[tag].verdicts == [] && tag !in Touched(s) ::
              Failed(cfg, s).trackers[tag].verdicts == []
  {
    FlushKeeps(cfg, s, false);
    var next := Failed(cfg, s);
    forall tag: nat | tag < |s.trackers|
      ensures tag < |next.trackers| && Faithful(published, after, next.trackers[tag])
    {
      var t := s.trackers[tag];
      assert t in s.trackers && Conserved(s.buffer, tag, t) && Faithful(published, before, t);
      assert [] + [Requeue] == [Requeue];
      assert [Requeue][0] == Requeue;
    }
  }

  lemma ReceiveStaysFaithful(cfg: Config, published: seq<Body>, points: map<PointKey, real>, s: Session, msg: nat)
    requires FaithfulSession(cfg, published, points, s) && msg < |published| && StorableBody(published[msg])
    ensures match published[msg]
            case Valid(rows) => FaithfulSession(cfg, published, points, Begin(s, msg, rows))
                && Holds(Begin(s, msg, rows), msg)
            case Malformed => FaithfulSession(cfg, published, points, Reject(s, msg))
  {
    match published[msg]
    case Valid(rows) =>
      BeginKeeps(cfg, s, msg, rows);
      var next := Begin(s, msg, rows);
      assert next.trackers[|s.trackers|].msg == msg;
    case Malformed =>
      RejectKeeps(cfg, s, msg);
  }

  lemma BufferStaysFaithful(cfg: Config, published: seq<Body>, points: map<PointKey, real>, s: Session)
    requires FaithfulSession(cfg, published, points, s) && Feeding(s) && |s.buffer| < cfg.batchMax
    ensures FaithfulSession(cfg, published, points, Append(s, |s.trackers| - 1))
  {
    hide Consumer.Inv, AllStored, StorableBody;
    var tag := |s.trackers| - 1;
    AppendKeeps(cfg, s, tag);
    var next, t := Append(s, tag), s.trackers[tag];
    assert t in s.trackers;
    assert Faithful(published, points, t.(fed := t.fed + 1));
    assert forall u | u in next.trackers :: u in s.trackers || u == t.(fed := t.fed + 1);
  }

  // ---------------------------------------------------------------- accounting across a step

  /** Nothing about the message got worse: it is owed, or settled for good. */
  ghost predicate StillAccounted(st: System, next: System) {
    && st.published <= next.published
    && st.db.points.Keys <= next.db.points.Keys && st.dead <= next.dead + next.ready
    && forall msg: nat | msg < |st.published| && Owed(st, msg) :: Accounted(next, msg)
  }

  lemma AccountingGrows(st: System, next: System)
    requires StillAccounted(st, next)
    requires forall msg: nat | msg < |st.published| :: Accounted(st, msg)
    ensures forall msg: nat | msg < |st.published| :: Accounted(next, msg)
  {
    forall msg: nat | msg < |st.published| && !Owed(st, msg)
      ensures Accounted(next, msg)
    {
      assert Accounted(st, msg) && next.published[msg] == st.published[msg];
    }
  }

  lemma SessionAccounted(st: System, next: System, sid: nat)
    requires sid in st.sessions && st.published <= next.published
    requires forall other | other in st.sessions && other != sid ::
        other in next.sessions && next.sessions[other] == st.sessions[other]
    requires forall msg: nat | msg < |st.published| && (msg in st.ready || Holds(st.sessions[sid], msg)) ::
        Accounted(next, msg)
    ensures forall msg: nat | msg < |st.published| && Owed(st, msg) :: Accounted(next, msg)
  {
    forall msg: nat | msg < |st.published| && Owed(st, msg)
      ensures Accounted(next, msg)
    {
      if msg !in st.ready && !Holds(st.sessions[sid], msg) {
        var other :| other in st.sessions && Holds(st.sessions[other], msg);
        assert other in next.sessions && Holds(next.sessions[other], msg);
      }
    }
  }

  lemma CommitAccounts(cfg: Config, st: System, owner: map<PointKey, Store.EventId>, sid: nat,
          order: seq<string>, now: int)
    requires cfg.Valid() && Inv(cfg, st, owner) && Enabled(cfg, st, Commit(sid, order, now))
    ensures StillAccounted(st, Apply(cfg, st, Commit(sid, order, now)))
  {
    hide Store.Flush, Store.Sound, Store.Inserted, SentAs, BackoffAfter, ItemsOf, Conserved;
    var s, next := st.sessions[sid], Apply(cfg, st, Commit(sid, order, now));
    FlushGrows(st.db, Points(s.buffer), order, now);
    CommitStaysFaithful(cfg, st.published, st.db.points, next.db.points, s);
    forall msg: nat | msg < |st.published| && Holds(s, msg)
      ensures Accounted(next, msg)
    {
      var tag: nat :| tag < |s.trackers| && s.trackers[tag].msg == msg && s.trackers[tag].verdicts == [];
      if tag !in Completed(s) {
        assert next.sessions[sid].trackers[tag].msg == msg;
        assert Holds(next.sessions[sid], msg);
      }
    }
    SessionAccounted(st, next, sid);
  }

  lemma FailAccounts(cfg: Config, st: System, owner: map<PointKey, Store.EventId>, sid: nat, stored: bool,
          order: seq<string>, now: int)
    requires cfg.Valid() && Inv(cfg, st, owner) && Enabled(cfg, st, Fail(sid, stored, order, now))
    ensures StillAccounted(st, Apply(cfg, st, Fail(sid, stored, order, now)))
  {
    hide Store.Flush, Store.Sound, Store.Inserted, SentAs, BackoffAfter, ItemsOf, Conserved;
    var s, next := st.sessions[sid], Apply(cfg, st, Fail(sid, stored, order, now));
    FlushGrows(st.db, Points(s.buffer), order, now);
    FailStaysFaithful(cfg, st.published, st.db.points, next.db.points, s);
    forall msg: nat | msg < |st.published| && Holds(s, msg)
      ensures Accounted(next, msg)
    {
      var tag: nat :| tag < |s.trackers| && s.trackers[tag].msg == msg && s.trackers[tag].verdicts == [];
      if tag in Touched(s) {
        assert msg in Messages(s, Touched(s));
      } else {
        assert next.sessions[sid].trackers[tag].msg == msg;
        assert Holds(next.sessions[sid], msg);
      }
    }
    SessionAccounted(st, next, sid);
  }

  lemma BreakAccounts(cfg: Config, st: System, owner: map<PointKey, Store.EventId>, sid: nat, stored: bool,
          acked: set<nat>, lost: set<nat>, order: seq<string>, now: int)
    requires cfg.Valid() && Inv(cfg, st, owner) && Enabled(cfg, st, Break(sid, stored, acked, lost, order, now))
    ensures StillAccounted(st, Apply(cfg, st, Break(sid, stored, acked, lost, order, now)))
  {
    hide Store.Flush, Store.Sound, Store.Inserted, SentAs, BackoffAfter, ItemsOf, Conserved;
    var s, next := st.sessions[sid], Apply(cfg, st, Break(sid, stored, acked, lost, order, now));
    if stored {
      FlushGrows(st.db, Points(s.buffer), order, now);
      CommitStaysFaithful(cfg, st.published, st.db.points, next.db.points, s);
    }
    forall msg: nat | msg < |st.published| && Holds(s, msg)
      ensures Accounted(next, msg)
    {
      var tag: nat :| tag < |s.trackers| && s.trackers[tag].msg == msg && s.trackers[tag].verdicts == [];
      if tag !in acked {
        assert tag in OpenTags(s) - acked;
        assert msg in Messages(s, OpenTags(s) - acked);
      }
    }
    SessionAccounted(st, next, sid);
  }

  lemma ReceiveAccounts(cfg: Config, st: System, owner: map<PointKey, Store.EventId>, sid: nat, msg: nat)
    requires cfg.Valid() && Inv(cfg, st, owner) && Enabled(cfg, st, Receive(sid, msg))
    ensures StillAccounted(st, Apply(cfg, st, Receive(sid, msg)))
  {
    var s, next := st.sessions[sid], Apply(cfg, st, Receive(sid, msg));
    assert st.published[msg] in st.published;
    ReceiveStaysFaithful(cfg, st.published, st.db.points, s, msg);
    forall m: nat | m < |st.published| && (m in st.ready || Holds(s, m))
      ensures Accounted(next, m)
    {
      if Holds(s, m) {
        var tag: nat :| tag < |s.trackers| && s.trackers[tag].msg == m && s.trackers[tag].verdicts == [];
        assert next.sessions[sid].trackers[tag] == s.trackers[tag];
        assert Holds(next.sessions[sid], m);
      }
    }
    SessionAccounted(st, next, sid);
  }

  lemma BufferAccounts(cfg: Config, st: System, sid: nat)
    requires Enabled(cfg, st, Buffer(sid))
    ensures StillAccounted(st, Apply(cfg, st, Buffer(sid)))
  {
    var s, next := st.sessions[sid], Apply(cfg, st, Buffer(sid));
    forall m: nat | m < |st.published| && Holds(s, m)
      ensures Accounted(next, m)
    {
      var tag: nat :| tag < |s.trackers| && s.trackers[tag].msg == m && s.trackers[tag].verdicts == [];
      assert next.sessions[sid].trackers[tag].msg == m && next.sessions[sid].trackers[tag].verdicts == [];
      assert Holds(next.sessions[sid], m);
    }
    SessionAccounted(st, next, sid);
  }

  lemma PublishAccounts(cfg: Config, st: System, body: Body)
    requires StorableBody(body)
    ensures var next := Apply(cfg, st, Publish(body)); StillAccounted(st, next) && Accounted(next, |st.published|)
  {
    var next := Apply(cfg, st, Publish(body));
    forall m: nat | m < |st.published| && Owed(st, m)
      ensures Owed(next, m)
    {
    }
  }

  lemma OpenAccounts(cfg: Config, st: System, sid: nat)
    requires sid !in st.sessions
    ensures StillAccounted(st, Apply(cfg, st, Open(sid)))
  {
    var next := Apply(cfg, st, Open(sid));
    forall m: nat | m < |st.published| && Owed(st, m)
      ensures Owed(next, m)
    {
      if m !in st.ready {
        var other :| other in st.sessions && Holds(st.sessions[other], m);
        assert other in next.sessions && Holds(next.sessions[other], m);
      }
    }
  }

  lemma StepAccounts(cfg: Config, st: System, owner: map<PointKey, Store.EventId>, step: Step)
    requires cfg.Valid() && Inv(cfg, st, owner) && Enabled(cfg, st, step)
    ensures var next := Apply(cfg, st, step);
            forall msg: nat | msg < |next.published| :: Accounted(next, msg)
  {
    hide Apply, Inv;
    assert forall msg: nat | msg < |st.published| :: Accounted(st, msg) by { AccountedNow(cfg, st, owner); }
    match step {
      case Publish(body) => PublishAccounts(cfg, st, body);
      case Open(sid) => OpenAccounts(cfg, st, sid);
      case Receive(sid, msg) => ReceiveAccounts(cfg, st, owner, sid, msg);
      case Buffer(sid) => BufferAccounts(cfg, st, sid);
      case Commit(sid, order, now) => CommitAccounts(cfg, st, owner, sid, order, now);
      case Fail(sid, stored, order, now) => FailAccounts(cfg, st, owner, sid, stored, order, now);
      case Break(sid, stored, acked, lost, order, now) =>
        BreakAccounts(cfg, st, owner, sid, stored, acked, lost, order, now);
    }
    AccountingGrows(st, Apply(cfg, st, step));
    PublishedAfter(cfg, st, step);
  }

  lemma AccountedNow(cfg: Config, st: System, owner: map<PointKey, Store.EventId>)
    requires Inv(cfg, st, owner)
    ensures forall msg: nat | msg < |st.published| :: Accounted(st, msg)
  {
  }

  lemma PublishedAfter(cfg: Config, st: System, step: Step)
    requires Enabled(cfg, st, step)
    ensures |Apply(cfg, st, step).published| == |st.published| + if step.Publish? then 1 else 0
  {
  }

  // ---------------------------------------------------------------- the invariant across a step

  lemma SessionsStayFaithful(cfg: Config, st: System, owner: map<PointKey, Store.EventId>, step: Step)
    requires cfg.Valid() && Inv(cfg, st, owner) && Enabled(cfg, st, step)
    ensures var next := Apply(cfg, st, step);
            forall sid | sid in next.sessions ::
                FaithfulSession(cfg, next.published, next.db.points, next.sessions[sid])
  {
    hide Store.Flush, Store.Sound, FaithfulSession;
    var next := Apply(cfg, st, step);
    GrowsOnly(cfg, st, step);
    forall sid | sid in next.sessions
      ensures FaithfulSession(cfg, next.published, next.db.points, next.sessions[sid])
    {
      if sid in st.sessions && next.sessions[sid] == st.sessions[sid] {
        FaithfulGrows(cfg, st.published, st.db.points, next.published, next.db.points, st.sessions[sid]);
      } else {
        StepSessionFaithful(cfg, st, owner, step, sid);
      }
    }
  }

  lemma GrowsOnly(cfg: Config, st: System, step: Step)
    requires Enabled(cfg, st, step)
    ensures var next := Apply(cfg, st, step);
            && st.published <= next.published
            && forall k | k in st.db.points :: k in next.db.points && next.db.points[k] == st.db.points[k]
  {
    hide Store.Flush;
    match step {
      case Commit(sid, order, now) => FlushGrows(st.db, Points(st.sessions[sid].buffer), order, now);
      case Fail(sid, stored, order, now) => FlushGrows(st.db, Points(st.sessions[sid].buffer), order, now);
      case Break(sid, stored, acked, lost, order, now) =>
        if stored { FlushGrows(st.db, Points(st.sessions[sid].buffer), order, now); }
      case _ =>
    }
  }

  lemma StepSessionFaithful(cfg: Config, st: System, owner: map<PointKey, Store.EventId>, step: Step, sid: nat)
    requires cfg.Valid() && Inv(cfg, st, owner) && Enabled(cfg, st, step)
    requires sid in Apply(cfg, st, step).sessions
    requires sid !in st.sessions || Apply(cfg, st, step).sessions[sid] != st.sessions[sid]
    ensures var next := Apply(cfg, st, step);
            FaithfulSession(cfg, next.published, next.db.points, next.sessions[sid])
  {
    hide Store.Flush, Store.Sound, Accounted, FaithfulSession;
    var next := Apply(cfg, st, step);
    match step {
      case Publish(_) =>
      case Open(_) =>
        OpenedIsFaithful(cfg, next.published, next.db.points);
      case Receive(_, msg) =>
        assert st.published[msg] in st.published;
        ReceiveStaysFaithful(cfg, st.published, st.db.points, st.sessions[sid], msg);
      case Buffer(_) =>
        BufferStaysFaithful(cfg, st.published, st.db.points, st.sessions[sid]);
      case Commit(_, order, now) =>
        FlushGrows(st.db, Points(st.sessions[sid].buffer), order, now);
        CommitStaysFaithful(cfg, st.published, st.db.points, next.db.points, st.sessions[sid]);
      case Fail(_, stored, order, now) =>
        FlushGrows(st.db, Points(st.sessions[sid].buffer), order, now);
        FailStaysFaithful(cfg, st.published, st.db.points, next.db.points, st.sessions[sid]);
      case Break(_, _, _, _, _, _) =>
    }
  }

  lemma OpenedIsFaithful(cfg: Config, published: seq<Body>, points: map<PointKey, real>)
    requires cfg.Valid()
    ensures FaithfulSession(cfg, published, points, Opened(cfg))
  {
    OpenedConserves(cfg);
  }

  /** Every value that a step stores is the one some published message carries for its key. */
  lemma StoredIsSent(cfg: Config, st: System, owner: map<PointKey, Store.EventId>, step: Step)
    requires cfg.Valid() && Inv(cfg, st, owner) && Enabled(cfg, st, step)
    ensures var next := Apply(cfg, st, step);
            forall k | k in next.db.points :: SentAs(next.published, k, next.db.points[k])
  {
    hide Store.Flush, Store.Sound, Accounted, FaithfulSession;
    var next := Apply(cfg, st, step);
    GrowsOnly(cfg, st, step);
    forall k | k in next.db.points
      ensures SentAs(next.published, k, next.db.points[k])
    {
      if k in st.db.points {
        var b, p :| b in st.published && b.Valid? && p in b.rows && p == MetricPoint(k, Finite(st.db.points[k]));
        assert b in next.published && next.db.points[k] == st.db.points[k];
      } else {
        var sid := if step.Commit? || step.Fail? || step.Break? then step.sid else 0;
        var order := if step.Commit? || step.Fail? || step.Break? then step.order else [];
        var now := if step.Commit? || step.Fail? || step.Break? then step.now else 0;
        var s := st.sessions[sid];
        FlushGrows(st.db, Points(s.buffer), order, now);
        BufferedRowsAreSent(cfg, st.published, st.db.points, s, MetricPoint(k, Finite(next.db.points[k])));
      }
    }
  }

  function OwnerAfter(cfg: Config, st: System, owner: map<PointKey, Store.EventId>, step: Step)
    : map<PointKey, Store.EventId>
    requires Enabled(cfg, st, step)
  {
    if step.Commit? || ((step.Fail? || step.Break?) && step.stored)
    then Store.Attribute(st.db, owner, Store.Encode(Points(st.sessions[step.sid].buffer)))
    else owner
  }

  lemma StoreStaysSound(cfg: Config, st: System, owner: map<PointKey, Store.EventId>, step: Step)
    requires Store.Sound(st.db, owner) && Enabled(cfg, st, step)
    ensures Store.Sound(Apply(cfg, st, step).db, OwnerAfter(cfg, st, owner, step))
  {
    hide Store.Flush, Store.Sound, Store.Attribute;
    if step.Commit? || ((step.Fail? || step.Break?) && step.stored) {
      Store.FlushKeepsSound(st.db, owner, Store.Encode(Points(st.sessions[step.sid].buffer)), step.order, step.now);
    }
  }

  lemma ReadyIsPublished(cfg: Config, st: System, owner: map<PointKey, Store.EventId>, step: Step)
    requires Inv(cfg, st, owner) && Enabled(cfg, st, step)
    ensures var next := Apply(cfg, st, step);
            && (forall msg | msg in next.ready :: msg < |next.published|)
            && (forall b | b in next.published :: StorableBody(b))
  {
    hide Store.Flush, Store.Sound, Accounted, Consumer.Inv;
    var next := Apply(cfg, st, step);
    forall msg | msg in next.ready
      ensures msg < |next.published|
    {
      if msg !in st.ready && !step.Publish? {
        var s := st.sessions[step.sid];
        var tag :| 0 <= tag < |s.trackers| && s.trackers[tag].msg == msg;
        assert s.trackers[tag] in s.trackers;
      }
    }
  }

  lemma StepKeepsInv(cfg: Config, st: System, owner: map<PointKey, Store.EventId>, step: Step)
    requires cfg.Valid() && Inv(cfg, st, owner) && Enabled(cfg, st, step)
    ensures Inv(cfg, Apply(cfg, st, step), OwnerAfter(cfg, st, owner, step))
  {
    hide Apply, OwnerAfter, Enabled, Store.Sound, FaithfulSession, Accounted, SentAs;
    StoreStaysSound(cfg, st, owner, step);
    ReadyIsPublished(cfg, st, owner, step);
    SessionsStayFaithful(cfg, st, owner, step);
    StepAccounts(cfg, st, owner, step);
    StoredIsSent(cfg, st, owner, step);
  }

  lemma InitialInv(cfg: Config)
    ensures Inv(cfg, INITIAL, map[])
  {
  }

  lemma {:induction false} RunKeepsInv(cfg: Config, st: System, owner: map<PointKey, Store.EventId>, steps: seq<Step>)
    returns (finalOwner: map<PointKey, Store.EventId>)
    requires cfg.Valid() && Inv(cfg, st, owner) && PossibleRun(cfg, st, steps)
    ensures Inv(cfg, Run(cfg, st, steps), finalOwner)
    decreases |steps|
  {
    hide Apply, Inv, Enabled;
    if steps == [] {
      finalOwner := owner;
    } else {
      StepKeepsInv(cfg, st, owner, steps[0]);
      finalOwner := RunKeepsInv(cfg, Apply(cfg, st, steps[0]), OwnerAfter(cfg, st, owner, steps[0]), steps[1..]);
    }
  }

  // ---------------------------------------------------------------- exactly-once effect

  /** At-least-once delivery, at every moment of every run: a published message is still owed by the
      broker, or it is settled: a valid one with all of its points stored, a malformed one dead-lettered. */
  lemma NothingIsLost(cfg: Config, steps: seq<Step>, msg: nat)
    requires cfg.Valid() && PossibleRun(cfg, INITIAL, steps) && msg < |Run(cfg, INITIAL, steps).published|
    ensures Accounted(Run(cfg, INITIAL, steps), msg)
  {
    hide Inv;
    InitialInv(cfg);
    var owner := RunKeepsInv(cfg, INITIAL, map[], steps);
    AccountedNow(cfg, Run(cfg, INITIAL, steps), owner);
  }

  /** Exactly-once effect: when the broker owes nothing, the stored keys are exactly the keys of the
      valid messages, each with a value that one of them carries for it; and the events of any task,
      read in order, report each of its stored points once (metrics named "step" and "ts" aside). */
  lemma ExactlyOnce(cfg: Config, steps: seq<Step>)
    requires cfg.Valid() && PossibleRun(cfg, INITIAL, steps)
    requires forall msg: nat | msg < |Run(cfg, INITIAL, steps).published| :: !Owed(Run(cfg, INITIAL, steps), msg)
    ensures var st := Run(cfg, INITIAL, steps);
            && (forall k :: k in st.db.points <==> Sent(st.published, k))
            && (forall k | k in st.db.points :: SentAs(st.published, k, st.db.points[k]))
            && (forall task :: Payloads.DecodeLog(st.db, task, Store.LastNumber(st.db, task))
                            == map k | k in st.db.points && k.task == task && Payloads.Ordinary(k.name) ::
                                st.db.points[k])
            && (forall e, f | e in st.db.events && f in st.db.events && e != f ::
                  Payloads.Decode(e.task, st.db.events[e].payload).Keys
                  !! Payloads.Decode(f.task, st.db.events[f].payload).Keys)
  {
    hide Payloads.Decode, Payloads.DecodeLog;
    InitialInv(cfg);
    var st := Run(cfg, INITIAL, steps);
    var owner := RunKeepsInv(cfg, INITIAL, map[], steps);
    forall k
      ensures k in st.db.points <==> Sent(st.published, k)
    {
      SentIsStored(cfg, st, owner, k);
    }
    forall task
      ensures Payloads.DecodeLog(st.db, task, Store.LastNumber(st.db, task))
           == map k | k in st.db.points && k.task == task && Payloads.Ordinary(k.name) :: st.db.points[k]
    {
      Payloads.LogIsLossless(st.db, owner, task);
    }
    forall e, f | e in st.db.events && f in st.db.events && e != f
      ensures Payloads.Decode(e.task, st.db.events[e].payload).Keys
           !! Payloads.Decode(f.task, st.db.events[f].payload).Keys
    {
      Payloads.EventsDisjoint(st.db, owner, e, f);
    }
  }

  lemma SentIsStored(cfg: Config, st: System, owner: map<PointKey, Store.EventId>, k: PointKey)
    requires Inv(cfg, st, owner)
    requires forall msg: nat | msg < |st.published| :: !Owed(st, msg)
    ensures k in st.db.points <==> Sent(st.published, k)
  {
    hide Store.Sound, FaithfulSession, SentAs;
    if k in st.db.points { SentAsIsSent(st.published, k, st.db.points[k]); }
    if Sent(st.published, k) {
      var b :| b in st.published && b.Valid? && k in KeysOf(b.rows);
      var msg :| 0 <= msg < |st.published| && st.published[msg] == b;
      assert Accounted(st, msg);
    }
  }

  // ---------------------------------------------------------------- what one session does

  ghost predicate Good(cfg: Config, st: System) {
    exists owner :: Inv(cfg, st, owner)
  }

  lemma GoodStep(cfg: Config, st: System, step: Step)
    requires cfg.Valid() && Good(cfg, st) && Enabled(cfg, st, step)
    ensures Good(cfg, Apply(cfg, st, step))
  {
    hide Inv, Apply, Enabled, OwnerAfter;
    var owner :| Inv(cfg, st, owner);
    StepKeepsInv(cfg, st, owner, step);
  }

  predicate OfSession(step: Step, sid: nat) {
    !step.Publish? && !step.Open? && step.sid == sid
  }

  /** The session alone can bring the system from one state to the other. */
  ghost predicate Alone(cfg: Config, st: System, sid: nat, end: System) {
    exists steps ::
      PossibleRun(cfg, st, steps) && Run(cfg, st, steps) == end && forall step | step in steps :: OfSession(step, sid)
  }

  lemma AloneStart(cfg: Config, st: System, sid: nat)
    ensures Alone(cfg, st, sid, st)
  {
    var none: seq<Step> := [];
    assert PossibleRun(cfg, st, none) && Run(cfg, st, none) == st;
  }

  lemma AloneStep(cfg: Config, st: System, sid: nat, middle: System, step: Step)
    requires Alone(cfg, st, sid, middle) && Enabled(cfg, middle, step) && OfSession(step, sid)
    ensures Alone(cfg, st, sid, Apply(cfg, middle, step))
  {
    hide PossibleRun, Run, Enabled, Apply, OfSession;
    var steps :|
      PossibleRun(cfg, st, steps) && Run(cfg, st, steps) == middle && forall s | s in steps :: OfSession(s, sid);
    RunOneMore(cfg, st, steps, step);
    assert forall s | s in steps + [step] :: OfSession(s, sid);
  }

  lemma AloneThen(cfg: Config, st: System, sid: nat, middle: System, end: System)
    requires Alone(cfg, st, sid, middle) && Alone(cfg, middle, sid, end)
    ensures Alone(cfg, st, sid, end)
  {
    hide PossibleRun, Run, OfSession;
    var a :| PossibleRun(cfg, st, a) && Run(cfg, st, a) == middle && forall s | s in a :: OfSession(s, sid);
    var b :| PossibleRun(cfg, middle, b) && Run(cfg, middle, b) == end && forall s | s in b :: OfSession(s, sid);
    RunThen(cfg, st, a, b);
    assert forall s | s in a + b :: OfSession(s, sid);
  }

  lemma {:induction false} RunThen(cfg: Config, st: System, a: seq<Step>, b: seq<Step>)
    requires PossibleRun(cfg, st, a) && PossibleRun(cfg, Run(cfg, st, a), b)
    ensures PossibleRun(cfg, st, a + b) && Run(cfg, st, a + b) == Run(cfg, Run(cfg, st, a), b)
    decreases |a|
  {
    hide Enabled, Apply;
    if a == [] {
      assert a + b == b;
    } else {
      RunThen(cfg, Apply(cfg, st, a[0]), a[1..], b);
      assert (a + b)[1..] == a[1..] + b;
    }
  }

  lemma {:induction false} RunOneMore(cfg: Config, st: System, steps: seq<Step>, step: Step)
    requires PossibleRun(cfg, st, steps) && Enabled(cfg, Run(cfg, st, steps), step)
    ensures PossibleRun(cfg, st, steps + [step])
    ensures Run(cfg, st, steps + [step]) == Apply(cfg, Run(cfg, st, steps), step)
    decreases |steps|
  {
    hide Enabled, Apply;
    if steps == [] {
      assert steps + [step] == [step] && [step][1..] == [];
      assert PossibleRun(cfg, Apply(cfg, st, step), []) && Run(cfg, Apply(cfg, st, step), []) == Apply(cfg, st, step);
    } else {
      RunOneMore(cfg, Apply(cfg, st, steps[0]), steps[1..], step);
      assert (steps + [step])[1..] == steps[1..] + [step];
    }
  }

  /** In a good state every acknowledged delivery of a session is stored, and so is the committed part
      of every other. */
  lemma AckedIsStored(cfg: Config, st: System, sid: nat, tag: nat)
    requires Good(cfg, st) && sid in st.sessions && tag < |st.sessions[sid].trackers|
    ensures var t := st.sessions[sid].trackers[tag];
            && t.committed <= |t.rows| && AllStored(st.db.points, t.rows[..t.committed])
            && (Ack in t.verdicts ==> AllStored(st.db.points, t.rows))
  {
    hide Store.Sound, Accounted, SentAs;
    var owner :| Inv(cfg, st, owner);
    var s, t := st.sessions[sid], st.sessions[sid].trackers[tag];
    assert FaithfulSession(cfg, st.published, st.db.points, s) && t in s.trackers && Conserved(s.buffer, tag, t);
    assert t.rows[..|t.rows|] == t.rows;
  }

  /** All points in a session's buffer can be stored. */
  lemma BufferIsStorable(cfg: Config, st: System, sid: nat)
    requires Good(cfg, st) && sid in st.sessions
    ensures Store.AllStorable(Points(st.sessions[sid].buffer))
  {
    hide Store.Sound, Accounted, SentAs, FaithfulSession;
    var owner :| Inv(cfg, st, owner);
    var s := st.sessions[sid];
    forall p | p in Points(s.buffer)
      ensures Store.Storable(p)
    {
      BufferedRowsAreSent(cfg, st.published, st.db.points, s, p);
    }
    forall i | 0 <= i < |Points(s.buffer)|
      ensures Store.Storable(Points(s.buffer)[i])
    {
      assert Points(s.buffer)[i] in Points(s.buffer);
    }
  }

  /** A session that ends has lost nothing: what it acknowledged on the way is stored, and every other
      open delivery is back in the queue, as is every one whose acknowledgement or rejection was lost. */
  lemma BreakLosesNothing(cfg: Config, st: System, step: Step, tag: nat)
    requires cfg.Valid() && Good(cfg, st) && step.Break? && Enabled(cfg, st, step)
    requires tag < |st.sessions[step.sid].trackers|
    ensures var (t, end) := (st.sessions[step.sid].trackers[tag], Apply(cfg, st, step));
            && (tag in step.acked ==> AllStored(end.db.points, t.rows))
            && (t.verdicts == [] && tag !in step.acked ==> t.msg in end.ready)
            && (tag in step.lost ==> t.msg in end.ready)
            && (step.stored && t.verdicts == [] ==> AllStored(end.db.points, t.rows[..t.fed]))
            && AllStored(end.db.points, t.rows[..t.committed])
            && (Ack in t.verdicts ==> AllStored(end.db.points, t.rows))
  {
    hide Store.Flush, Store.Sound, Store.Inserted, SentAs, BackoffAfter, ItemsOf, Accounted;
    var owner :| Inv(cfg, st, owner);
    var s, end := st.sessions[step.sid], Apply(cfg, st, step);
    var t := s.trackers[tag];
    AckedIsStored(cfg, st, step.sid, tag);
    assert FaithfulSession(cfg, st.published, st.db.points, s) && t in s.trackers && Conserved(s.buffer, tag, t);
    if step.stored {
      FlushGrows(st.db, Points(s.buffer), step.order, step.now);
      CommitStaysFaithful(cfg, st.published, st.db.points, end.db.points, s);
      if t.verdicts == [] { StoredPrefix(cfg, st.published, st.db.points, end.db.points, s, tag); }
    }
    if tag in step.lost { assert t.msg in Messages(s, step.lost); }
    if t.verdicts == [] && tag !in step.acked {
      assert tag in OpenTags(s) - step.acked && t.msg in Messages(s, OpenTags(s) - step.acked);
    }
  }
}
