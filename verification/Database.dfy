/** The metrics database as an object: its tables, and the transaction of one worker flush. */
module Databases {
  import opened Domain
  import opened Order
  import Store

  /** What the flush transaction meets: whether it can begin, whether every timestamp has a partition,
      whether it commits, and whether the caller hears of the commit. */
  datatype Fate = Fate(connected: bool, partitioned: bool, committed: bool, reported: bool)

  /** The flush reports success. */
  predicate FlushSucceeds(batch: seq<MetricPoint>, fate: Fate) {
    batch == [] || (Store.AllStorable(batch) && fate.connected && fate.partitioned && fate.committed && fate.reported)
  }

  /** The flush takes effect, whatever it reports. */
  predicate FlushCommits(batch: seq<MetricPoint>, fate: Fate) {
    batch != [] && Store.AllStorable(batch) && fate.connected && fate.partitioned && fate.committed
  }

  class Database {
    var points: map<PointKey, real>
    var counters: map<string, nat>
    var events: map<Store.EventId, Store.Event>
    var outbox: map<Store.EventId, Store.OutboxRow>
    var nextOutboxId: nat

    constructor ()
      ensures Tables() == Store.EMPTY
    {
      points, counters, events, outbox, nextOutboxId := map[], map[], map[], map[], 1;
    }

    function Tables(): Store.Tables
      reads this
    {
      Store.Tables(points, counters, events, outbox, nextOutboxId)
    }

    method Restore(db: Store.Tables)
      modifies this
      ensures Tables() == db
    {
      points, counters, events, outbox, nextOutboxId := db.points, db.counters, db.events, db.outbox, db.nextOutboxId;
    }

    /** Turn points into column values; a step outside int32 is refused. */
    method EncodeMetricPoints(batch: seq<MetricPoint>)
      returns (ok: bool, ids: seq<PointKey>, values: seq<Number>, tasks: set<string>)
      ensures ok <==> forall i | 0 <= i < |batch| :: 0 <= batch[i].id.step <= MAX_INT32
      ensures ok ==> |ids| == |values| == |batch|
      ensures ok ==> forall i | 0 <= i < |batch| :: ids[i] == batch[i].id && values[i] == batch[i].value
      ensures ok ==> tasks == set p | p in batch :: p.id.task
    {
      ids, values, tasks := [], [], {};
      for index := 0 to |batch|
        invariant |ids| == |values| == index
        invariant forall i | 0 <= i < index ::
                    0 <= batch[i].id.step <= MAX_INT32 && ids[i] == batch[i].id && values[i] == batch[i].value
        invariant tasks == set p | p in batch[..index] :: p.id.task
      {
        var point := batch[index];
        if point.id.step < 0 || point.id.step > MAX_INT32 {
          return false, [], [], {};
        }
        ids, values, tasks := ids + [point.id], values + [point.value], tasks + {point.id.task};
        assert batch[..index + 1] == batch[..index] + [point];
      }
      assert batch[..|batch|] == batch;
      ok := true;
    }

    method SeedTaskEventCounters(tasks: set<string>)
      modifies this`counters
      ensures Tables() == Store.Seed(old(Tables()), tasks)
    {
      counters := map t | t in counters.Keys + tasks :: if t in counters then counters[t] else 0;
    }

    /** It fails, changing nothing, when a value is not finite or a row has no partition. Every task has
        been seeded. */
    method PersistMetricFlush(ids: seq<PointKey>, values: seq<Number>, now: int, partitioned: bool) returns (ok: bool)
      requires |ids| == |values|
      requires forall i | 0 <= i < |ids| :: ids[i].task in counters
      modifies this
      ensures ok <==> partitioned && forall i | 0 <= i < |values| :: values[i].Finite?
      ensures !ok ==> Tables() == old(Tables())
      ensures ok ==> Tables() == Persisted(old(Tables()), Rows(ids, values), now)
    {
      hide Store.InsertRows, Store.NewEvents, Store.NewOutbox, SortTexts;
      if !partitioned || exists i | 0 <= i < |values| :: !values[i].Finite? {
        return false;
      }
      var rows, before := Rows(ids, values), Tables();
      var delta := Store.Inserted(points, rows);
      points := Store.InsertRows(points, rows);
      counters := map t | t in counters :: counters[t] + if t in Store.TasksOf(delta) then 1 else 0;
      events := events + Store.NewEvents(before, delta, now);
      outbox := outbox + Store.NewOutbox(before, delta, SortTexts(Store.TasksOf(delta)), now);
      nextOutboxId := nextOutboxId + |Store.TasksOf(delta)|;
      ok := true;
    }

    /** The flush transaction. Every error before the commit rolls back; an error of the commit itself
        leaves the outcome open, so success means committed, and a failure means all or nothing. */
    method Flush(batch: seq<MetricPoint>, now: int, fate: Fate) returns (ok: bool)
      modifies this
      ensures ok <==> FlushSucceeds(batch, fate)
      ensures FlushCommits(batch, fate) ==> Tables() == FlushedTables(old(Tables()), batch, now)
      ensures !FlushCommits(batch, fate) ==> Tables() == old(Tables())
    {
      hide FlushedTables, Persisted, Rows;
      if batch == [] {
        return true;
      }
      var before := Tables();
      var encoded, ids, values, tasks := EncodeMetricPoints(batch);
      if !encoded || !fate.connected {
        return false;
      }
      SeedTaskEventCounters(tasks);
      assert forall i | 0 <= i < |ids| :: batch[i] in batch && ids[i].task in counters;
      var persisted := PersistMetricFlush(ids, values, now, fate.partitioned);
      assert persisted ==> Store.AllStorable(batch);
      if !persisted || !fate.committed {
        Restore(before);
        return false;
      }
      TransactionResult(before, batch, ids, values, tasks, now);
      ok := fate.reported;
    }
  }

  /** unnest(ids, values) as rows. */
  function Rows(ids: seq<PointKey>, values: seq<Number>): seq<Store.Row>
    requires |ids| == |values|
  {
    seq(|ids|, i requires 0 <= i < |ids| => Store.Row(ids[i], if values[i].Finite? then values[i].value else 0.0))
  }

  function Persisted(db: Store.Tables, rows: seq<Store.Row>, now: int): Store.Tables {
    Store.Persist(db, rows, SortTexts(Store.TasksOf(Store.Inserted(db.points, rows))), now)
  }

  /** The tables after a committed flush; the events of its tasks are written in sorted order. */
  function FlushedTables(db: Store.Tables, batch: seq<MetricPoint>, now: int): Store.Tables
    requires Store.AllStorable(batch)
  {
    if batch == [] then db
    else
      var rows := Store.Encode(batch);
      Store.Flush(db, rows, SortTexts(Store.TasksOf(Store.Inserted(db.points, rows))), now)
  }

  lemma TransactionResult(before: Store.Tables, batch: seq<MetricPoint>, ids: seq<PointKey>,
          values: seq<Number>, tasks: set<string>, now: int)
    requires batch != [] && Store.AllStorable(batch) && |ids| == |values| == |batch|
    requires forall i | 0 <= i < |batch| :: ids[i] == batch[i].id && values[i] == batch[i].value
    requires tasks == set p | p in batch :: p.id.task
    ensures Persisted(Store.Seed(before, tasks), Rows(ids, values), now) == FlushedTables(before, batch, now)
  {
    hide Store.Flush, Store.Persist, SortTexts, Store.Inserted;
    var rows := Store.Encode(batch);
    assert Rows(ids, values) == rows;
    TasksOfBatch(batch);
    Store.FlushIsSeedThenPersist(before, rows, SortTexts(Store.TasksOf(Store.Inserted(before.points, rows))), now);
    assert Store.Seed(before, tasks).points == before.points;
  }

  lemma TasksOfBatch(batch: seq<MetricPoint>)
    requires Store.AllStorable(batch)
    ensures Store.RowTasks(Store.Encode(batch)) == set p | p in batch :: p.id.task
  {
    var rows := Store.Encode(batch);
    forall p | p in batch
      ensures p.id.task in Store.RowTasks(rows)
    {
      var i :| 0 <= i < |batch| && batch[i] == p;
      assert rows[i] in rows;
    }
    forall r | r in rows
      ensures exists p :: p in batch && p.id.task == r.id.task
    {
      var i :| 0 <= i < |rows| && rows[i] == r;
      assert batch[i] in batch;
    }
  }
}
