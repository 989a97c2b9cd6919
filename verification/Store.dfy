/** The tables of the metrics database and the statement that persists one worker flush. */
module Store {
  import opened Domain
  import opened Order

  /** One row of the flush as the database stores it: the value is a finite double. */
  datatype Row = Row(id: PointKey, value: real)

  /** One element of an event's "points" array: a JSON object whose members are all numbers. */
  type PayloadPoint = map<string, real>
  type Payload = seq<PayloadPoint>

  /** (task_id, event_seq). */
  datatype EventId = EventId(task: string, number: int)

  datatype Event = Event(createdAt: int, payload: Payload)

  datatype OutboxRow = OutboxRow(
    id: nat, payload: Payload, createdAt: int, claimedUntil: Option<int>, claimToken: Option<nat>,
    publishedAt: Option<int>, attempts: nat, nextAttemptAt: int)

  datatype Tables = Tables(
    points: map<PointKey, real>, counters: map<string, nat>, events: map<EventId, Event>,
    outbox: map<EventId, OutboxRow>, nextOutboxId: nat)

  const EMPTY := Tables(map[], map[], map[], map[], 1)

  /** The last sequence number given to a task; 0 for a task without a counter row. */
  function LastNumber(db: Tables, task: string): nat {
    if task in db.counters then db.counters[task] else 0
  }

  /** What encodeMetricPoints and the table's CHECK constraints let through. */
  predicate Storable(p: MetricPoint) {
    0 <= p.id.step <= MAX_INT32 && p.value.Finite?
  }

  predicate AllStorable(points: seq<MetricPoint>) {
    forall i | 0 <= i < |points| :: Storable(points[i])
  }

  function Encode(points: seq<MetricPoint>): (rows: seq<Row>)
    requires AllStorable(points)
    ensures |rows| == |points|
    ensures forall i | 0 <= i < |rows| :: rows[i] == Row(points[i].id, points[i].value.value)
  {
    seq(|points|, i requires 0 <= i < |points| => Row(points[i].id, points[i].value.value))
  }

  // ---------------------------------------------------------------- first-wins insertion

  /** INSERT ... ON CONFLICT DO NOTHING: a row whose key is present changes nothing. */
  function InsertRow(points: map<PointKey, real>, row: Row): map<PointKey, real> {
    if row.id in points then points else points[row.id := row.value]
  }

  function InsertRows(points: map<PointKey, real>, rows: seq<Row>): map<PointKey, real>
    decreases |rows|
  {
    if rows == [] then points else InsertRows(InsertRow(points, rows[0]), rows[1..])
  }

  /** The RETURNING set of the insertion: exactly the rows that were not there before. */
  function Inserted(points: map<PointKey, real>, rows: seq<Row>): map<PointKey, real> {
    InsertRows(points, rows) - points.Keys
  }

  /** The first row of the input that carries the key. */
  function FirstWith(rows: seq<Row>, id: PointKey): (row: Row)
    requires exists r :: r in rows && r.id == id
    ensures row in rows && row.id == id
    ensures exists i :: 0 <= i < |rows| && rows[i] == row && forall j | 0 <= j < i :: rows[j].id != id
  {
    if rows[0].id == id then rows[0]
    else
      var rest := FirstWith(rows[1..], id);
      assert exists i :: 0 <= i < |rows| && rows[i] == rest && forall j | 0 <= j < i :: rows[j].id != id by {
        var i :| 0 <= i < |rows[1..]| && rows[1..][i] == rest && forall j | 0 <= j < i :: rows[1..][j].id != id;
        assert rows[i + 1] == rest;
        forall j | 0 <= j < i + 1 ensures rows[j].id != id {
          if j > 0 { assert rows[1..][j - 1] == rows[j]; }
        }
      }
      rest
  }

  /** What an insertion leaves behind, in closed form: stored values win over the input, and
      within the input the first occurrence of a key wins. */
  lemma {:induction false} FirstWins(points: map<PointKey, real>, rows: seq<Row>, id: PointKey)
    ensures id in InsertRows(points, rows) <==> id in points || exists r :: r in rows && r.id == id
    ensures id in points ==> InsertRows(points, rows)[id] == points[id]
    ensures id !in points && (exists r :: r in rows && r.id == id)
            ==> id in InsertRows(points, rows) && InsertRows(points, rows)[id] == FirstWith(rows, id).value
    decreases |rows|
  {
    if rows != [] {
      FirstWins(InsertRow(points, rows[0]), rows[1..], id);
      assert forall r :: r in rows <==> r == rows[0] || r in rows[1..];
    }
  }

  /** Batch cuts do not matter: inserting in two statements is inserting the concatenation. */
  lemma {:induction false} InsertConcat(points: map<PointKey, real>, a: seq<Row>, b: seq<Row>)
    ensures InsertRows(points, a + b) == InsertRows(InsertRows(points, a), b)
    decreases |a|
  {
    if a == [] {
      assert a + b == b;
    } else {
      assert (a + b)[1..] == a[1..] + b;
      InsertConcat(InsertRow(points, a[0]), a[1..], b);
    }
  }

  lemma {:induction false} InsertKnown(points: map<PointKey, real>, rows: seq<Row>)
    requires forall r | r in rows :: r.id in points
    ensures InsertRows(points, rows) == points
  {
    if rows != [] { InsertKnown(points, rows[1..]); }
  }

  // ---------------------------------------------------------------- event payloads

  function TasksOf(delta: map<PointKey, real>): set<string> {
    set k | k in delta :: k.task
  }

  function OfTask(delta: map<PointKey, real>, task: string): map<PointKey, real> {
    map k | k in delta && k.task == task :: delta[k]
  }

  /** The (step, ts) groups of one task's inserted rows. */
  function Groups(part: map<PointKey, real>): set<(int, int)> {
    set k | k in part :: (k.step, k.ts)
  }

  function NamesIn(part: map<PointKey, real>, step: int, ts: int): set<string> {
    set k | k in part && k.step == step && k.ts == ts :: k.name
  }

  /** jsonb_object_agg(key, value) || {'step': step, 'ts': ts}: the fixed members override. */
  function PointObject(part: map<PointKey, real>, task: string, step: int, ts: int): PayloadPoint {
    (map name | name in NamesIn(part, step, ts) && PointKey(task, name, step, ts) in part
      :: part[PointKey(task, name, step, ts)])
    + map["step" := step as real, "ts" := ts as real]
  }

  function EncodeGroups(part: map<PointKey, real>, task: string, groups: seq<(int, int)>): (p: Payload)
    ensures |p| == |groups|
  {
    if groups == [] then []
    else [PointObject(part, task, groups[0].0, groups[0].1)] + EncodeGroups(part, task, groups[1..])
  }

  /** jsonb_agg(point ORDER BY step, ts). */
  function TaskPayload(part: map<PointKey, real>, task: string): Payload {
    EncodeGroups(part, task, SortPairs(Groups(part)))
  }

  // ---------------------------------------------------------------- one flush

  function NewOutboxRow(id: nat, payload: Payload, now: int): OutboxRow {
    OutboxRow(id, payload, now, None, None, None, 0, now)
  }

  /** The statement fixes no order among the tasks of one flush: any enumeration is possible. */
  ghost predicate Enumerates(order: seq<string>, tasks: set<string>) {
    && (forall i, j | 0 <= i < j < |order| :: order[i] != order[j])
    && (forall t :: t in order <==> t in tasks)
  }

  function RowTasks(rows: seq<Row>): set<string> {
    set r | r in rows :: r.id.task
  }

  /** The identities of the events one flush writes: one per task that gained rows. */
  function NewIds(db: Tables, tasks: set<string>): (ids: set<EventId>)
    ensures forall e :: e in ids <==> e.task in tasks && e.number == LastNumber(db, e.task) + 1
  {
    set t | t in tasks :: EventId(t, LastNumber(db, t) + 1)
  }

  function Position(order: seq<string>, task: string): (i: nat)
    requires task in order
    ensures i < |order| && order[i] == task
  {
    if order[0] == task then 0 else 1 + Position(order[1..], task)
  }

  function NewEvents(db: Tables, delta: map<PointKey, real>, now: int): (events: map<EventId, Event>)
    ensures events.Keys == NewIds(db, TasksOf(delta))
  {
    map e | e in NewIds(db, TasksOf(delta)) :: Event(now, TaskPayload(OfTask(delta, e.task), e.task))
  }

  function NewOutbox(db: Tables, delta: map<PointKey, real>, order: seq<string>, now: int): map<EventId, OutboxRow> {
    map e | e in NewIds(db, TasksOf(delta)) && e.task in order ::
      NewOutboxRow(db.nextOutboxId + Position(order, e.task), TaskPayload(OfTask(delta, e.task), e.task), now)
  }

  /** One committed flush transaction. */
  function Flush(db: Tables, rows: seq<Row>, order: seq<string>, now: int): Tables {
    var delta := Inserted(db.points, rows);
    Tables(
      InsertRows(db.points, rows),
      map t | t in db.counters.Keys + RowTasks(rows) :: LastNumber(db, t) + if t in TasksOf(delta) then 1 else 0,
      db.events + NewEvents(db, delta, now),
      db.outbox + NewOutbox(db, delta, order, now),
      db.nextOutboxId + |TasksOf(delta)|)
  }

  /** INSERT INTO task_event_counters ... ON CONFLICT DO NOTHING. */
  function Seed(db: Tables, tasks: set<string>): Tables {
    db.(counters := map t | t in db.counters.Keys + tasks :: LastNumber(db, t))
  }

  /** The data-modifying statement alone, after the counters have been seeded. */
  function Persist(db: Tables, rows: seq<Row>, order: seq<string>, now: int): Tables {
    var delta := Inserted(db.points, rows);
    Tables(
      InsertRows(db.points, rows),
      map t | t in db.counters :: db.counters[t] + if t in TasksOf(delta) then 1 else 0,
      db.events + NewEvents(db, delta, now),
      db.outbox + NewOutbox(db, delta, order, now),
      db.nextOutboxId + |TasksOf(delta)|)
  }

  lemma SeedChangesNoNumber(db: Tables, tasks: set<string>, delta: map<PointKey, real>, order: seq<string>, now: int)
    ensures NewEvents(Seed(db, tasks), delta, now) == NewEvents(db, delta, now)
    ensures NewOutbox(Seed(db, tasks), delta, order, now) == NewOutbox(db, delta, order, now)
  {
    hide TaskPayload, OfTask, TasksOf;
    assert forall t :: LastNumber(Seed(db, tasks), t) == LastNumber(db, t);
    assert NewIds(Seed(db, tasks), TasksOf(delta)) == NewIds(db, TasksOf(delta));
  }

  lemma SeededCounters(db: Tables, tasks: set<string>, touched: set<string>)
    ensures (map t | t in Seed(db, tasks).counters :: Seed(db, tasks).counters[t] + if t in touched then 1 else 0)
         == (map t | t in db.counters.Keys + tasks :: LastNumber(db, t) + if t in touched then 1 else 0)
  {
  }

  /** The transaction's two statements make one flush. */
  lemma FlushIsSeedThenPersist(db: Tables, rows: seq<Row>, order: seq<string>, now: int)
    ensures Persist(Seed(db, RowTasks(rows)), rows, order, now) == Flush(db, rows, order, now)
  {
    hide InsertRows, NewEvents, NewOutbox, RowTasks, TasksOf, Inserted;
    SeedChangesNoNumber(db, RowTasks(rows), Inserted(db.points, rows), order, now);
    SeededCounters(db, RowTasks(rows), TasksOf(Inserted(db.points, rows)));
  }

  lemma CountersAdvance(db: Tables, rows: seq<Row>, order: seq<string>, now: int)
    ensures forall t :: LastNumber(Flush(db, rows, order, now), t)
                     == LastNumber(db, t) + if t in TasksOf(Inserted(db.points, rows)) then 1 else 0
  {
    var delta := Inserted(db.points, rows);
    InsertedFresh(db.points, rows);
    forall t | t in TasksOf(delta)
      ensures t in RowTasks(rows)
    {
      var k :| k in delta && k.task == t;
      var r :| r in rows && r.id == k;
    }
  }

  // ---------------------------------------------------------------- the store invariant

  /** Each task's events are numbered exactly 1..last_event_seq. */
  ghost predicate Numbered(db: Tables) {
    forall e :: e in db.events <==> 1 <= e.number <= LastNumber(db, e.task)
  }

  /** Every event has its outbox row, with the same payload, and no outbox row lacks an event. */
  ghost predicate Mirrored(db: Tables) {
    && db.outbox.Keys == db.events.Keys
    && (forall e | e in db.events :: db.outbox[e].payload == db.events[e].payload)
  }

  /** The stored points that one event reports. */
  function PartOf(points: map<PointKey, real>, owner: map<PointKey, EventId>, id: EventId): map<PointKey, real> {
    map k | k in points && k in owner && owner[k] == id :: points[k]
  }

  /** `owner` attributes every stored point to exactly one event of the point's own task. */
  ghost predicate Owned(points: map<PointKey, real>, events: map<EventId, Event>, owner: map<PointKey, EventId>) {
    && owner.Keys == points.Keys
    && (forall k | k in owner :: owner[k].task == k.task && owner[k] in events)
  }

  /** No event is empty, and its payload encodes exactly the points attributed to it. */
  ghost predicate Reported(points: map<PointKey, real>, events: map<EventId, Event>, owner: map<PointKey, EventId>) {
    forall e | e in events ::
      && PartOf(points, owner, e) != map[]
      && events[e].payload == TaskPayload(PartOf(points, owner, e), e.task)
  }

  /** Every stored point's task has a counter row. */
  ghost predicate Seeded(db: Tables) {
    forall k | k in db.points :: k.task in db.counters
  }

  ghost predicate Sound(db: Tables, owner: map<PointKey, EventId>) {
    && Numbered(db) && Mirrored(db) && Seeded(db)
    && Owned(db.points, db.events, owner) && Reported(db.points, db.events, owner)
  }

  /** The attribution after a flush: the rows really inserted go to their task's new event. */
  function Attribute(db: Tables, owner: map<PointKey, EventId>, rows: seq<Row>): map<PointKey, EventId> {
    owner + NewOwners(db, Inserted(db.points, rows))
  }

  function NewOwners(db: Tables, delta: map<PointKey, real>): map<PointKey, EventId> {
    map k | k in delta :: EventId(k.task, LastNumber(db, k.task) + 1)
  }

  lemma InsertedFresh(points: map<PointKey, real>, rows: seq<Row>)
    ensures var delta := Inserted(points, rows);
            && delta.Keys !! points.Keys
            && InsertRows(points, rows) == points + delta
            && (forall k | k in delta :: exists r :: r in rows && r.id == k)
  {
    forall id
      ensures id in InsertRows(points, rows) <==> id in points || exists r :: r in rows && r.id == id
      ensures id in points ==> InsertRows(points, rows)[id] == points[id]
    {
      FirstWins(points, rows, id);
    }
  }

  lemma NewOwnersOwned(db: Tables, delta: map<PointKey, real>, now: int)
    ensures Owned(delta, NewEvents(db, delta, now), NewOwners(db, delta))
  {
    hide TaskPayload, OfTask;
  }

  lemma PartOfNewEvent(db: Tables, delta: map<PointKey, real>, e: EventId)
    requires e in NewIds(db, TasksOf(delta))
    ensures PartOf(delta, NewOwners(db, delta), e) == OfTask(delta, e.task)
    ensures OfTask(delta, e.task) != map[]
  {
    var k :| k in delta && k.task == e.task;
    assert k in OfTask(delta, e.task);
  }

  lemma NewEventsReported(db: Tables, delta: map<PointKey, real>, now: int)
    ensures Reported(delta, NewEvents(db, delta, now), NewOwners(db, delta))
  {
    hide TaskPayload, OfTask, PartOf, NewOwners;
    forall e | e in NewEvents(db, delta, now)
      ensures PartOf(delta, NewOwners(db, delta), e) == OfTask(delta, e.task) != map[]
    {
      PartOfNewEvent(db, delta, e);
    }
  }

  lemma PartOfUnion(points: map<PointKey, real>, owner: map<PointKey, EventId>,
                    delta: map<PointKey, real>, newOwner: map<PointKey, EventId>, id: EventId)
    requires points.Keys !! delta.Keys && owner.Keys == points.Keys && newOwner.Keys == delta.Keys
    ensures (forall k | k in newOwner :: newOwner[k] != id)
            ==> PartOf(points + delta, owner + newOwner, id) == PartOf(points, owner, id)
    ensures (forall k | k in owner :: owner[k] != id)
            ==> PartOf(points + delta, owner + newOwner, id) == PartOf(delta, newOwner, id)
  {
  }

  /** Two stores over disjoint points and disjoint events combine. */
  lemma AttributionsCombine(
      points: map<PointKey, real>, events: map<EventId, Event>, owner: map<PointKey, EventId>,
      delta: map<PointKey, real>, added: map<EventId, Event>, newOwner: map<PointKey, EventId>)
    requires points.Keys !! delta.Keys && events.Keys !! added.Keys
    requires Owned(points, events, owner) && Owned(delta, added, newOwner)
    requires Reported(points, events, owner) && Reported(delta, added, newOwner)
    ensures Owned(points + delta, events + added, owner + newOwner)
    ensures Reported(points + delta, events + added, owner + newOwner)
  {
    hide TaskPayload, PartOf;
    forall e | e in events + added
      ensures e in events ==> PartOf(points + delta, owner + newOwner, e) == PartOf(points, owner, e)
      ensures e !in events ==> PartOf(points + delta, owner + newOwner, e) == PartOf(delta, newOwner, e)
    {
      PartOfUnion(points, owner, delta, newOwner, e);
    }
  }

  lemma FlushKeepsNumbered(db: Tables, rows: seq<Row>, order: seq<string>, now: int)
    requires Numbered(db)
    ensures Numbered(Flush(db, rows, order, now))
    ensures NewIds(db, TasksOf(Inserted(db.points, rows))) !! db.events.Keys
  {
    hide InsertRows, TaskPayload, OfTask, TasksOf, Inserted;
    CountersAdvance(db, rows, order, now);
    var out, delta := Flush(db, rows, order, now), Inserted(db.points, rows);
    assert out.events.Keys == db.events.Keys + NewIds(db, TasksOf(delta));
  }

  lemma NewOutboxMirrors(db: Tables, delta: map<PointKey, real>, order: seq<string>, now: int)
    requires Enumerates(order, TasksOf(delta))
    ensures NewOutbox(db, delta, order, now).Keys == NewEvents(db, delta, now).Keys
    ensures forall e | e in NewEvents(db, delta, now) ::
              NewOutbox(db, delta, order, now)[e].payload == NewEvents(db, delta, now)[e].payload
  {
    hide TaskPayload, OfTask;
  }

  lemma FlushKeepsMirrored(db: Tables, rows: seq<Row>, order: seq<string>, now: int)
    requires Mirrored(db) && Enumerates(order, TasksOf(Inserted(db.points, rows)))
    ensures Mirrored(Flush(db, rows, order, now))
  {
    hide NewOutbox, NewEvents, InsertRows;
    NewOutboxMirrors(db, Inserted(db.points, rows), order, now);
  }

  lemma FlushKeepsSeeded(db: Tables, rows: seq<Row>, order: seq<string>, now: int)
    requires Seeded(db)
    ensures Seeded(Flush(db, rows, order, now))
  {
    forall k | k in InsertRows(db.points, rows)
      ensures k.task in db.counters.Keys + RowTasks(rows)
    {
      FirstWins(db.points, rows, k);
    }
  }

  /** The store invariant is kept by every flush, and no event once written changes. */
  lemma FlushKeepsSound(db: Tables, owner: map<PointKey, EventId>, rows: seq<Row>, order: seq<string>, now: int)
    requires Sound(db, owner)
    requires Enumerates(order, TasksOf(Inserted(db.points, rows)))
    ensures Sound(Flush(db, rows, order, now), Attribute(db, owner, rows))
    ensures forall e | e in db.events :: e in Flush(db, rows, order, now).events
                                      && Flush(db, rows, order, now).events[e] == db.events[e]
  {
    hide TaskPayload, InsertRows, PartOf;
    var delta := Inserted(db.points, rows);
    InsertedFresh(db.points, rows);
    FlushKeepsNumbered(db, rows, order, now);
    FlushKeepsMirrored(db, rows, order, now);
    FlushKeepsSeeded(db, rows, order, now);
    NewOwnersOwned(db, delta, now);
    NewEventsReported(db, delta, now);
    AttributionsCombine(db.points, db.events, owner, delta, NewEvents(db, delta, now), NewOwners(db, delta));
  }

  lemma NothingNew(db: Tables, delta: map<PointKey, real>, order: seq<string>, now: int)
    requires TasksOf(delta) == {}
    ensures NewEvents(db, delta, now) == map[] && NewOutbox(db, delta, order, now) == map[]
  {
    hide TaskPayload, OfTask;
  }

  /** Re-flushing points whose keys are all stored changes nothing at all. */
  lemma ReflushIsIdentity(db: Tables, owner: map<PointKey, EventId>, rows: seq<Row>, order: seq<string>, now: int)
    requires Sound(db, owner)
    requires forall r | r in rows :: r.id in db.points
    requires Enumerates(order, TasksOf(Inserted(db.points, rows)))
    ensures Flush(db, rows, order, now) == db
  {
    hide TaskPayload, InsertRows, OfTask, Numbered, Mirrored, Owned, Reported;
    InsertKnown(db.points, rows);
    var delta := Inserted(db.points, rows);
    assert delta == map[];
    assert TasksOf(delta) == {};
    NothingNew(db, delta, order, now);
    assert RowTasks(rows) <= db.counters.Keys;
    assert Flush(db, rows, order, now).counters == db.counters;
  }

  // ---------------------------------------------------------------- runs of flushes

  datatype FlushCall = FlushCall(rows: seq<Row>, order: seq<string>, now: int)

  ghost predicate ValidRun(db: Tables, calls: seq<FlushCall>)
    decreases |calls|
  {
    calls == [] ||
    (&& Enumerates(calls[0].order, TasksOf(Inserted(db.points, calls[0].rows)))
     && ValidRun(Flush(db, calls[0].rows, calls[0].order, calls[0].now), calls[1..]))
  }

  function RunFlushes(db: Tables, calls: seq<FlushCall>): Tables
    requires ValidRun(db, calls)
    decreases |calls|
  {
    if calls == [] then db
    else RunFlushes(Flush(db, calls[0].rows, calls[0].order, calls[0].now), calls[1..])
  }

  function AllRows(calls: seq<FlushCall>): seq<Row> {
    if calls == [] then [] else calls[0].rows + AllRows(calls[1..])
  }

  /** However the input is cut into flushes, the point table is one first-wins fold of the whole input. */
  lemma {:induction false} RunsFoldTheInput(db: Tables, calls: seq<FlushCall>)
    requires ValidRun(db, calls)
    ensures RunFlushes(db, calls).points == InsertRows(db.points, AllRows(calls))
    decreases |calls|
  {
    if calls != [] {
      var c := calls[0];
      RunsFoldTheInput(Flush(db, c.rows, c.order, c.now), calls[1..]);
      InsertConcat(db.points, c.rows, AllRows(calls[1..]));
    }
  }

  /** Every run of flushes from the empty database keeps the store invariant. */
  lemma {:induction false} RunsKeepSound(db: Tables, owner: map<PointKey, EventId>, calls: seq<FlushCall>)
    returns (finalOwner: map<PointKey, EventId>)
    requires ValidRun(db, calls) && Sound(db, owner)
    ensures Sound(RunFlushes(db, calls), finalOwner)
    decreases |calls|
  {
    if calls == [] {
      finalOwner := owner;
    } else {
      var c := calls[0];
      FlushKeepsSound(db, owner, c.rows, c.order, c.now);
      finalOwner := RunsKeepSound(Flush(db, c.rows, c.order, c.now), Attribute(db, owner, c.rows), calls[1..]);
    }
  }
}
