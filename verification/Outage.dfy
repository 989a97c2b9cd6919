/** What a live client misses when the bridge loses its session: one run, from the empty system on. */
module Outages {
  import opened Domain
  import opened Live
  import opened Order
  import opened Store
  import Cursors
  import Leader
  import Outbox
  import Relay

  ghost predicate CanReach(w: World, task: string, end: World) {
    exists steps :: PossibleRun(w, task, steps) && Run(w, task, steps) == end
  }

  lemma StepReaches(w: World, task: string, step: Step)
    requires Enabled(w, task, step)
    ensures CanReach(w, task, Apply(w, task, step))
  {
    hide Enabled, Apply;
    var next, none: seq<Step> := Apply(w, task, step), [];
    assert PossibleRun(next, task, none) && Run(next, task, none) == next;
    assert [step][0] == step && [step][1..] == none;
    assert PossibleRun(w, task, [step]) && Run(w, task, [step]) == next;
  }

  lemma {:induction false} RunThen(w: World, task: string, a: seq<Step>, b: seq<Step>)
    requires PossibleRun(w, task, a) && PossibleRun(Run(w, task, a), task, b)
    ensures PossibleRun(w, task, a + b) && Run(w, task, a + b) == Run(Run(w, task, a), task, b)
    decreases |a|
  {
    hide Enabled, Apply;
    if a == [] {
      assert a + b == b;
    } else {
      RunThen(Apply(w, task, a[0]), task, a[1..], b);
      assert (a + b)[1..] == a[1..] + b;
    }
  }

  lemma ReachesThen(w: World, task: string, middle: World, end: World)
    requires CanReach(w, task, middle) && CanReach(middle, task, end)
    ensures CanReach(w, task, end)
  {
    hide PossibleRun, Run;
    var a :| PossibleRun(w, task, a) && Run(w, task, a) == middle;
    var b :| PossibleRun(middle, task, b) && Run(middle, task, b) == end;
    RunThen(w, task, a, b);
  }

  /** One more step of a run from `first`. */
  lemma Continue(first: World, task: string, w: World, step: Step) returns (next: World)
    requires CanReach(first, task, w) && Enabled(w, task, step)
    ensures next == Apply(w, task, step) && CanReach(first, task, next)
  {
    hide CanReach, Enabled, Apply;
    next := Apply(w, task, step);
    StepReaches(w, task, step);
    ReachesThen(first, task, w, next);
  }

  /** What the write side can do alone it can do in the whole system. */
  lemma {:induction false} CoreReaches(w: World, task: string, steps: seq<Relay.Step>, end: Relay.State)
    requires Leader.Reaches(w.core, steps, end)
    ensures CanReach(w, task, w.(core := end))
    decreases |steps|
  {
    hide Relay.Enabled, Relay.Apply, CanReach;
    if steps == [] {
      NothingReaches(w, task);
    } else {
      var next := w.(core := Relay.Apply(w.core, steps[0]));
      StepReaches(w, task, Core(steps[0]));
      CoreReaches(next, task, steps[1..], end);
      ReachesThen(w, task, next, w.(core := end));
    }
  }

  lemma NothingReaches(w: World, task: string)
    ensures CanReach(w, task, w)
  {
    var none: seq<Step> := [];
    assert PossibleRun(w, task, none) && Run(w, task, none) == w;
  }

  // ---------------------------------------------------------------- the parts of the run

  /** A flush of one new row writes one event of its task, waiting in the outbox. */
  lemma OneRow(db: Tables, row: Row, now: int)
    requires row.id !in db.points
    ensures var (task, e) := (row.id.task, EventId(row.id.task, LastNumber(db, row.id.task) + 1));
            var next := Flush(db, [row], [task], now);
            && Enumerates([task], TasksOf(Inserted(db.points, [row])))
            && LastNumber(next, task) == e.number && next.points == db.points[row.id := row.value]
            && next.events.Keys == db.events.Keys + {e}
            && next.outbox.Keys == db.outbox.Keys + {e}
            && (forall f | f in db.outbox && f != e :: next.outbox[f] == db.outbox[f])
            && next.outbox[e] == NewOutboxRow(next.outbox[e].id, next.outbox[e].payload, now)
  {
    hide TaskPayload, OfTask, InsertRows, Inserted, TasksOf, NewIds, NewEvents, NewOutbox;
    OneRowIsNew(db.points, row);
    OneNewEvent(db, Inserted(db.points, [row]), row.id.task, now);
    assert row in [row];
  }

  lemma OneNewEvent(db: Tables, delta: map<PointKey, real>, task: string, now: int)
    requires TasksOf(delta) == {task}
    ensures var e := EventId(task, LastNumber(db, task) + 1);
            && NewEvents(db, delta, now).Keys == {e} && NewOutbox(db, delta, [task], now).Keys == {e}
            && var row := NewOutbox(db, delta, [task], now)[e]; row == NewOutboxRow(row.id, row.payload, now)
  {
    hide TaskPayload, OfTask, TasksOf, Position;
    assert NewIds(db, TasksOf(delta)) == {EventId(task, LastNumber(db, task) + 1)};
  }

  lemma OneRowIsNew(points: map<PointKey, real>, row: Row)
    requires row.id !in points
    ensures InsertRows(points, [row]) == points[row.id := row.value]
    ensures TasksOf(Inserted(points, [row])) == {row.id.task}
  {
    assert [row][0] == row && [row][1..] == [];
    assert InsertRows(points, [row]) == InsertRow(points, row);
    assert Inserted(points, [row]) == map[row.id := row.value];
  }

  /** Before anything is stored, a request without a cursor starts at zero with nothing to replay. */
  lemma EarlyStream(task: string) returns (w: World)
    ensures CanReach(Initial(None), task, w)
    ensures w == World(Relay.INITIAL, true, 0, map[], Streaming(0, 0, 0, [], [], []), Client(None, []))
  {
    hide CanReach, Relay.Enabled;
    var first := Initial(None);
    NothingReaches(first, task);
    w := Continue(first, task, first, Join);
    w := Continue(first, task, w, Subscribe);
    w := Continue(first, task, w, Step.Bounds);
    w := Continue(first, task, w, Step.Query);
    SortedUnique(IntLe, Cursors.Query(EMPTY, task, 0, 0), []);
  }

  lemma CoreStep(first: World, task: string, w: World, step: Relay.Step) returns (next: World)
    requires CanReach(first, task, w) && Relay.Enabled(w.core, step)
    ensures next == w.(core := Relay.Apply(w.core, step)) && CanReach(first, task, next)
  {
    hide CanReach, Relay.Enabled, Relay.Apply;
    next := Continue(first, task, w, Core(step));
  }

  /** An idle relay claims and publishes one event, and the copy is confirmed. */
  lemma PublishOne(first: World, task: string, w: World, e: EventId) returns (next: World)
    requires CanReach(first, task, w) && w.core.relays == map[] && Outbox.Eligible(w.core.db.outbox, e, w.core.clock)
    ensures CanReach(first, task, next)
    ensures var table := Outbox.Claim(w.core.db.outbox, {e}, w.core.nextToken, w.core.clock + 1);
            next == w.(core := w.core.(
                         db := w.core.db.(outbox := Outbox.MarkPublished(table, e, w.core.nextToken, w.core.clock)),
                         nextToken := w.core.nextToken + 1, log := w.core.log + [Relay.Copy(e, true)]))
  {
    hide CanReach, Leader.Reaches;
    var claimed := Leader.OneClaim(w.core, 0, e);
    var steps, published := Leader.OnePublish(claimed, 0, e, w.core.nextToken);
    CoreReaches(w, task, [Relay.Step.Claim(0, [e], 1)], claimed);
    CoreReaches(w.(core := claimed), task, steps, published);
    next := w.(core := published);
    ReachesThen(first, task, w, w.(core := claimed));
    ReachesThen(first, task, w.(core := claimed), next);
    assert map[0 := Relay.RelayState(w.core.nextToken, [e], Relay.Sending)] - {0} == map[];
  }

  lemma TwoEvents(task: string) returns (db: Tables)
    ensures var (one, two) := (EventId(task, 1), EventId(task, 2));
            && LastNumber(db, task) == 2 && db.events.Keys == {one, two} && db.outbox.Keys == {one, two}
            && db.outbox[one] == NewOutboxRow(db.outbox[one].id, db.outbox[one].payload, 0)
            && db.outbox[two] == NewOutboxRow(db.outbox[two].id, db.outbox[two].payload, 0)
    ensures forall first, w | CanReach(first, task, w) && w.core == Relay.INITIAL ::
              CanReach(first, task, w.(core := w.core.(db := db)))
  {
    hide CanReach, Store.Flush, Inserted, TasksOf;
    var (a, b) := (Row(PointKey(task, "loss", 1, 0), 0.0), Row(PointKey(task, "loss", 2, 0), 0.0));
    OneRow(EMPTY, a, 0);
    var middle := Store.Flush(EMPTY, [a], [task], 0);
    OneRow(middle, b, 0);
    db := Store.Flush(middle, [b], [task], 0);
    forall first, w | CanReach(first, task, w) && w.core == Relay.INITIAL
      ensures CanReach(first, task, w.(core := w.core.(db := db)))
    {
      var flushed := CoreStep(first, task, w, Relay.Step.Flush([a], [task]));
      var both := CoreStep(first, task, flushed, Relay.Step.Flush([b], [task]));
      assert both == w.(core := w.core.(db := db));
    }
  }

  /** A client is streaming when the bridge loses its session; event 1 is published before the bridge is
      back, and event 2 after. Everything drains, and the client has been sent event 2 alone. */
  lemma GappedRun(task: string) returns (steps: seq<Step>)
    ensures PossibleRun(Initial(None), task, steps)
    ensures var w := Run(Initial(None), task, steps);
            Drained(w, task) && w.conn.start == 0 && w.conn.written == [2] && LastNumber(w.core.db, task) == 2
    ensures !Unbroken(Initial(None), task, steps, true)
  {
    hide CanReach, PossibleRun, Run, Relay.Enabled, Relay.Apply, Enabled, Apply, Outbox.MarkPublished, Outbox.Claim;
    var first := Initial(None);
    var w := EarlyStream(task);
    var db := TwoEvents(task);
    w := MissedCopy(first, task, w.(core := w.core.(db := db)));
    w := LaterCopy(first, task, w);
    steps := RunOf(first, task, w);
    StreamIsComplete(None, task, steps);
    TwoIsNotAll();
  }

  lemma TwoIsNotAll()
    ensures [2] != Cursors.Range(1, 3)
  {
    assert |Cursors.Range(1, 3)| == 2;
  }

  /** Both events wait and are next in turn once what is before them is published. */
  ghost predicate TwoWaiting(table: Outbox.Table, task: string, published: set<EventId>) {
    var (one, two) := (EventId(task, 1), EventId(task, 2));
    && table.Keys == {one, two}
    && (forall e | e in table :: Outbox.Published(table, e) <==> e in published)
    && (forall e | e in table && e !in published :: table[e].nextAttemptAt <= 0 && table[e].claimedUntil == None)
  }

  lemma PublishedOne(table: Outbox.Table, task: string, published: set<EventId>, e: EventId, token: nat)
    requires TwoWaiting(table, task, published) && e in table && e !in published
    requires e.number == 2 ==> EventId(task, 1) in published
    ensures Outbox.Eligible(table, e, 0)
    ensures TwoWaiting(Outbox.MarkPublished(Outbox.Claim(table, {e}, token, 1), e, token, 0), task, published + {e})
  {
  }

  /** The bridge is away while event 1 is published, and back afterwards. */
  lemma MissedCopy(first: World, task: string, w: World) returns (next: World)
    requires CanReach(first, task, w) && w.up && w.core.relays == map[] && w.core.clock == 0 && w.core.log == []
    requires TwoWaiting(w.core.db.outbox, task, {})
    ensures CanReach(first, task, next) && next.up && next.core.relays == map[] && next.core.clock == 0
    ensures next.core.log == [Relay.Copy(EventId(task, 1), true)] && next.reached == 1
    ensures next.conn == w.conn && next.last == w.last
    ensures next.core.db == w.core.db.(outbox := next.core.db.outbox)
    ensures TwoWaiting(next.core.db.outbox, task, {EventId(task, 1)})
  {
    hide CanReach, Relay.Enabled, Relay.Apply, Outbox.MarkPublished, Outbox.Claim, Outbox.Eligible, TwoWaiting;
    var one := EventId(task, 1);
    next := Continue(first, task, w, Leave);
    assert one in w.core.db.outbox by { WaitingRows(w.core.db.outbox, task, {}); }
    PublishedOne(next.core.db.outbox, task, {}, one, next.core.nextToken);
    next := PublishOne(first, task, next, one);
    assert {} + {one} == {one};
    next := Continue(first, task, next, Join);
  }

  lemma WaitingRows(table: Outbox.Table, task: string, published: set<EventId>)
    requires TwoWaiting(table, task, published)
    ensures EventId(task, 1) in table && EventId(task, 2) in table
    ensures forall e | e in table && e in published :: Outbox.Published(table, e)
    ensures table.Keys == {EventId(task, 1), EventId(task, 2)}
  {
  }

  /** Event 2 goes all the way to the client. */
  lemma LaterCopy(first: World, task: string, w: World) returns (next: World)
    requires CanReach(first, task, w) && w.up && w.core.relays == map[] && w.core.clock == 0
    requires w.core.log == [Relay.Copy(EventId(task, 1), true)] && w.reached == 1
    requires w.conn == Streaming(0, 0, 0, [], [], []) && w.last == map[]
    requires TwoWaiting(w.core.db.outbox, task, {EventId(task, 1)})
    ensures CanReach(first, task, next) && next.up && next.reached == |next.core.log|
    ensures next.conn == Streaming(0, 0, 2, [], [], [2])
    ensures next.core.db == w.core.db.(outbox := next.core.db.outbox)
    ensures TwoWaiting(next.core.db.outbox, task, {EventId(task, 1), EventId(task, 2)})
  {
    hide CanReach, Relay.Enabled, Relay.Apply, Outbox.MarkPublished, Outbox.Claim, Outbox.Eligible, TwoWaiting;
    var (one, two) := (EventId(task, 1), EventId(task, 2));
    assert two in w.core.db.outbox by { WaitingRows(w.core.db.outbox, task, {one}); }
    PublishedOne(w.core.db.outbox, task, {one}, two, w.core.nextToken);
    next := PublishOne(first, task, w, two);
    assert {one} + {two} == {one, two};
    assert next.core.log[1] == Relay.Copy(two, true);
    next := Continue(first, task, next, Receive);
    next := Continue(first, task, next, WriteLive);
  }

  lemma RunOf(w: World, task: string, end: World) returns (steps: seq<Step>)
    requires CanReach(w, task, end)
    ensures PossibleRun(w, task, steps) && Run(w, task, steps) == end
  {
    steps :| PossibleRun(w, task, steps) && Run(w, task, steps) == end;
  }
}
