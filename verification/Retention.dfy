/** Retention: the maintenance function that drops expired day partitions and deletes expired rows in
    batches, and the loop that repeats it until nothing is left to delete. */
module Retention {
  import opened Domain
  import opened Order
  import opened Store
  import Cursors
  import Outbox

  const DAY_MILLIS := 86400000
  const MAX_DELETE_BATCH := 100000
  const PAST_DAYS := 8
  const FUTURE_DAYS := 2

  /** The UTC day of a timestamp. */
  function Day(ts: int): int {
    ts / DAY_MILLIS
  }

  // ---------------------------------------------------------------- what retention means

  predicate KeepsOutboxRow(row: OutboxRow, cutoff: int) {
    row.createdAt >= cutoff || row.publishedAt.None?
  }

  /** The tables without the points, events and published outbox rows older than the cutoff. */
  function Retain(db: Tables, cutoff: int): Tables {
    db.(points := map k | k in db.points && k.ts >= cutoff :: db.points[k],
        events := map e | e in db.events && db.events[e].createdAt >= cutoff :: db.events[e],
        outbox := map e | e in db.outbox && KeepsOutboxRow(db.outbox[e], cutoff) :: db.outbox[e])
  }

  /** Row by row: a point or event stays from the cutoff on, an outbox row also as long as it is unpublished. */
  lemma RetainedExactly(db: Tables, cutoff: int)
    ensures var r := Retain(db, cutoff);
            && (forall k :: k in r.points <==> k in db.points && cutoff <= k.ts)
            && (forall e :: e in r.events <==> e in db.events && cutoff <= db.events[e].createdAt)
            && (forall e :: e in r.outbox <==>
                  e in db.outbox && (cutoff <= db.outbox[e].createdAt || !Outbox.Published(db.outbox, e)))
            && Within(r.points, db.points) && Within(r.events, db.events) && Within(r.outbox, db.outbox)
            && r.counters == db.counters && r.nextOutboxId == db.nextOutboxId
  {
  }

  function ExpiredPoints(db: Tables, cutoff: int): set<PointKey> {
    set k | k in db.points && k.ts < cutoff
  }

  function ExpiredEvents(db: Tables, cutoff: int): set<EventId> {
    set e | e in db.events && db.events[e].createdAt < cutoff
  }

  function ExpiredRows(db: Tables, cutoff: int): set<EventId> {
    set e | e in db.outbox && !KeepsOutboxRow(db.outbox[e], cutoff)
  }

  // What the three deletes order by.

  function PointRank(): PointKey -> int {
    (k: PointKey) => k.ts
  }

  function EventRank(db: Tables): EventId -> int {
    (e: EventId) => if e in db.events then db.events[e].createdAt else 0
  }

  function RowRank(db: Tables): EventId -> int {
    (e: EventId) => if e in db.outbox then db.outbox[e].id else 0
  }

  ghost predicate Within<K, V>(part: map<K, V>, whole: map<K, V>) {
    forall k | k in part :: k in whole && part[k] == whole[k]
  }

  /** One delete: so many rows are gone, at most the limit, only expired ones, and no expired row is left
      that comes before one of them; fewer than the limit only when no expired row is left at all. */
  ghost predicate LowestGone<K(!new), V>(before: map<K, V>, after: map<K, V>, expired: set<K>, rank: K -> int,
          limit: nat, deleted: nat) {
    && Within(after, before) && |after| + deleted == |before| && deleted <= limit
    && (forall k | k in before && k !in after :: k in expired)
    && (forall k, l | k in before && k !in after && l in after && l in expired :: rank(k) <= rank(l))
    && (deleted < limit ==> forall k | k in after :: k !in expired)
  }

  /** `after` lacks only rows that have expired. */
  ghost predicate Spared(before: Tables, after: Tables, cutoff: int) {
    && after.counters == before.counters && after.nextOutboxId == before.nextOutboxId
    && Within(after.points, before.points) && Within(after.events, before.events) && Within(after.outbox, before.outbox)
    && (forall k | k in before.points && k.ts >= cutoff :: k in after.points)
    && (forall e | e in before.events && before.events[e].createdAt >= cutoff :: e in after.events)
    && (forall e | e in before.outbox && KeepsOutboxRow(before.outbox[e], cutoff) :: e in after.outbox)
  }

  /** Every row lies in a partition. */
  ghost predicate Partitioned(db: Tables, pointDays: set<int>, eventDays: set<int>) {
    && (forall k | k in db.points :: Day(k.ts) in pointDays)
    && (forall e | e in db.events :: Day(db.events[e].createdAt) in eventDays)
  }

  ghost predicate Drained(db: Tables, cutoff: int) {
    && (forall k | k in db.points :: k.ts >= cutoff)
    && (forall e | e in db.events :: db.events[e].createdAt >= cutoff)
    && (forall e | e in db.outbox :: KeepsOutboxRow(db.outbox[e], cutoff))
  }

  /** Sparing and draining together say what is left, row for row. */
  lemma SparedAndDrained(before: Tables, after: Tables, cutoff: int)
    ensures Spared(before, after, cutoff) && Drained(after, cutoff) <==> after == Retain(before, cutoff)
  {
    var r := Retain(before, cutoff);
    if Spared(before, after, cutoff) && Drained(after, cutoff) {
      assert after.points == r.points && after.events == r.events && after.outbox == r.outbox;
    }
  }

  lemma SparedTransitive(a: Tables, b: Tables, c: Tables, cutoff: int)
    requires Spared(a, b, cutoff) && Spared(b, c, cutoff)
    ensures Spared(a, c, cutoff)
  {
  }

  /** Repeated maintenance only ever depends on the latest cutoff. */
  lemma RetainTwice(db: Tables, first: int, second: int)
    requires first <= second
    ensures Retain(Retain(db, first), second) == Retain(db, second)
    ensures Retain(Retain(db, second), first) == Retain(db, second)
  {
    hide Retain;
    RetainBoth(db, first, second);
    RetainBoth(db, second, first);
  }

  lemma RetainBoth(db: Tables, a: int, b: int)
    ensures Retain(Retain(db, a), b) == Retain(db, if a < b then b else a)
  {
    var (twice, once) := (Retain(Retain(db, a), b), Retain(db, if a < b then b else a));
    assert twice.points == once.points;
    assert twice.events == once.events;
    assert twice.outbox == once.outbox;
  }

  // ---------------------------------------------------------------- retention and the readers

  /** No stream can tell that maintenance ran, is half done, or failed half-way: with a cutoff that
      lies outside the readers' window, bounds and replay are the same before and after. */
  lemma StreamsDoNotNotice(before: Tables, after: Tables, cutoff: int, task: string, number: int, now: int)
    requires Spared(before, after, cutoff) && cutoff <= now - Cursors.RETENTION_WINDOW
    ensures Cursors.Bounds(after, task, now) == Cursors.Bounds(before, task, now)
    ensures Cursors.Query(after, task, number, now) == Cursors.Query(before, task, number, now)
  {
    assert Cursors.Retained(after, task, now) == Cursors.Retained(before, task, now);
    assert LastNumber(after, task) == LastNumber(before, task);
  }

  /** What the cursor theorems need of the tables survives maintenance. */
  lemma ChronicleSurvives(before: Tables, after: Tables, cutoff: int, task: string, created: seq<int>, now: int)
    requires Cursors.Chronicle(before, task, created, now)
    requires Spared(before, after, cutoff) && cutoff <= now - Cursors.RETENTION_WINDOW
    ensures Cursors.Chronicle(after, task, created, now)
  {
    assert LastNumber(after, task) == LastNumber(before, task);
    forall n | 1 <= n <= |created| && !Cursors.Expired(created, n, now)
      ensures EventId(task, n) in after.events
    {
      assert EventId(task, n) in before.events;
    }
  }

  /** The relays' safety survives, and maintenance makes no event claimable or unclaimable. */
  lemma RelaysDoNotNotice(before: Tables, after: Tables, cutoff: int)
    requires Spared(before, after, cutoff) && Outbox.Safe(before.outbox)
    ensures Outbox.Safe(after.outbox)
    ensures forall e, now | e in after.outbox ::
        Outbox.Eligible(after.outbox, e, now) <==> Outbox.Eligible(before.outbox, e, now)
    ensures forall e | e in before.outbox && !Outbox.Published(before.outbox, e) :: e in after.outbox
  {
    hide Outbox.Safe, Outbox.Eligible;
    var gone := set e | e in before.outbox && e !in after.outbox;
    assert after.outbox == Outbox.Purge(before.outbox, gone);
    Outbox.PurgeKeepsSafe(before.outbox, gone);
  }

  /** A dropped partition holds expired rows only. */
  lemma DroppedDaysAreExpired(ts: int, cutoff: int)
    requires Day(ts) < Day(cutoff)
    ensures ts < cutoff
  {
  }

  // ---------------------------------------------------------------- the maintenance function

  function LaterDays(days: set<int>, cutoff: int): set<int> {
    set d | d in days && d >= Day(cutoff)
  }

  /** The day partitions that the maintenance drops. */
  function EarlierDays(days: set<int>, cutoff: int): set<int> {
    set d | d in days && d < Day(cutoff)
  }

  /** Whether a call's transaction commits, and whether its result comes back. */
  datatype Call = Call(reached: bool, reported: bool)

  datatype Result = Result(
    pointPartitions: nat, eventPartitions: nat, points: nat, events: nat, outbox: nat)

  /** Some count has reached the batch size, so that there may be more to delete. */
  predicate Full(r: Result, batchSize: int) {
    r.points >= batchSize || r.events >= batchSize || r.outbox >= batchSize
  }

  /** One call: only expired rows are gone, at least the reported ones, and all of them unless some count
      has reached the batch size. */
  ghost predicate Swept(before: Tables, after: Tables, cutoff: int, batchSize: int, r: Result) {
    && Spared(before, after, cutoff)
    && r.points <= batchSize && r.events <= batchSize && r.outbox <= batchSize
    && Rows(after) + r.points + r.events + r.outbox <= Rows(before)
    && (!Full(r, batchSize) ==> Drained(after, cutoff))
  }

  /** The tables before, between and after some calls. */
  ghost predicate SweptThrough(tables: seq<Tables>, cutoff: int, batchSize: int, results: seq<Result>) {
    && |tables| == |results| + 1
    && forall i | 0 <= i < |results| :: Swept(tables[i], tables[i + 1], cutoff, batchSize, results[i])
  }

  class Maintainer {
    var db: Tables
    /** The day partitions that exist. */
    var pointDays: set<int>
    var eventDays: set<int>

    constructor (db: Tables, pointDays: set<int>, eventDays: set<int>)
      requires forall k | k in db.points :: Day(k.ts) in pointDays
      requires forall e | e in db.events :: Day(db.events[e].createdAt) in eventDays
      ensures this.db == db && this.pointDays == pointDays && this.eventDays == eventDays && Valid()
    {
      this.db, this.pointDays, this.eventDays := db, pointDays, eventDays;
    }

    ghost predicate Valid()
      reads this
    {
      Partitioned(db, pointDays, eventDays)
    }

    /** DROP TABLE of one point partition. */
    method DropPointDay(day: int, cutoff: int)
      requires Valid() && day < Day(cutoff)
      modifies this`db, this`pointDays
      ensures Valid() && Spared(old(db), db, cutoff) && pointDays == old(pointDays) - {day}
      ensures db.outbox == old(db.outbox) && db.events == old(db.events)
    {
      db := db.(points := map k | k in db.points && Day(k.ts) != day :: db.points[k]);
      pointDays := pointDays - {day};
    }

    method DropPointPartitions(cutoff: int) returns (dropped: nat)
      requires Valid()
      modifies this`db, this`pointDays
      ensures Valid() && Spared(old(db), db, cutoff)
      ensures pointDays == LaterDays(old(pointDays), cutoff)
      ensures dropped == |EarlierDays(old(pointDays), cutoff)|
      ensures db.outbox == old(db.outbox) && db.events == old(db.events)
    {
      hide Spared, Valid, LaterDays, EarlierDays;
      dropped := 0;
      var days := EarlierDays(pointDays, cutoff);
      ghost var expired, later := days, LaterDays(pointDays, cutoff);
      SplitDays(pointDays, cutoff);
      SparedItself(db, cutoff);
      while days != {}
        invariant Valid() && Spared(old(db), db, cutoff)
        invariant days <= expired && pointDays == later + days
        invariant dropped == |expired - days|
        invariant db.outbox == old(db.outbox) && db.events == old(db.events)
        decreases days
      {
        ghost var some := SomeMember(days);
        var day: int :| day in days;
        ghost var before := db;
        DropPointDay(day, cutoff);
        SparedTransitive(old(db), before, db, cutoff);
        OneMoreDay(later, expired, days, day);
        days := days - {day};
        dropped := dropped + 1;
      }
    }

    /** DROP TABLE of one event partition. */
    method DropEventDay(day: int, cutoff: int)
      requires Valid() && day < Day(cutoff)
      modifies this`db, this`eventDays
      ensures Valid() && Spared(old(db), db, cutoff) && eventDays == old(eventDays) - {day}
      ensures db.outbox == old(db.outbox) && db.points == old(db.points)
    {
      db := db.(events := map e | e in db.events && Day(db.events[e].createdAt) != day :: db.events[e]);
      eventDays := eventDays - {day};
    }

    method DropEventPartitions(cutoff: int) returns (dropped: nat)
      requires Valid()
      modifies this`db, this`eventDays
      ensures Valid() && Spared(old(db), db, cutoff)
      ensures eventDays == LaterDays(old(eventDays), cutoff)
      ensures dropped == |EarlierDays(old(eventDays), cutoff)|
      ensures db.outbox == old(db.outbox) && db.points == old(db.points)
    {
      hide Spared, Valid, LaterDays, EarlierDays;
      dropped := 0;
      var days := EarlierDays(eventDays, cutoff);
      ghost var expired, later := days, LaterDays(eventDays, cutoff);
      SplitDays(eventDays, cutoff);
      SparedItself(db, cutoff);
      while days != {}
        invariant Valid() && Spared(old(db), db, cutoff)
        invariant days <= expired && eventDays == later + days
        invariant dropped == |expired - days|
        invariant db.outbox == old(db.outbox) && db.points == old(db.points)
        decreases days
      {
        ghost var some := SomeMember(days);
        var day: int :| day in days;
        ghost var before := db;
        DropEventDay(day, cutoff);
        SparedTransitive(old(db), before, db, cutoff);
        OneMoreDay(later, expired, days, day);
        days := days - {day};
        dropped := dropped + 1;
      }
    }

    /** Delete at most `limit` expired points, the oldest first. */
    method DeletePoints(cutoff: int, limit: nat) returns (deleted: nat)
      requires Valid()
      modifies this`db
      ensures Valid() && db == old(db).(points := db.points)
      ensures LowestGone(old(db.points), db.points, ExpiredPoints(old(db), cutoff), PointRank(), limit, deleted)
    {
      hide Lowest, LowestGone, Partitioned;
      var gone := SelectLowest(ExpiredPoints(db, cutoff), PointRank(), limit);
      RemoveLowest(db.points, ExpiredPoints(db, cutoff), PointRank(), gone, limit);
      db := db.(points := db.points - (set k | k in gone));
      PointsGone(old(db), db, cutoff, limit, |gone|);
      StillPartitioned(old(db), db, pointDays, eventDays);
      deleted := |gone|;
    }

    /** Delete at most `limit` expired events, the oldest first. */
    method DeleteEvents(cutoff: int, limit: nat) returns (deleted: nat)
      requires Valid()
      modifies this`db
      ensures Valid() && db == old(db).(events := db.events)
      ensures LowestGone(old(db.events), db.events, ExpiredEvents(old(db), cutoff), EventRank(old(db)), limit, deleted)
    {
      hide Lowest, LowestGone, Partitioned;
      var gone := SelectLowest(ExpiredEvents(db, cutoff), EventRank(db), limit);
      RemoveLowest(db.events, ExpiredEvents(db, cutoff), EventRank(db), gone, limit);
      db := db.(events := db.events - (set e | e in gone));
      EventsGone(old(db), db, cutoff, limit, |gone|);
      StillPartitioned(old(db), db, pointDays, eventDays);
      deleted := |gone|;
    }

    /** Delete at most `limit` expired and published outbox rows, those with the lowest ids. */
    method DeleteOutbox(cutoff: int, limit: nat) returns (deleted: nat)
      requires Valid()
      modifies this`db
      ensures Valid() && db == old(db).(outbox := db.outbox)
      ensures LowestGone(old(db.outbox), db.outbox, ExpiredRows(old(db), cutoff), RowRank(old(db)), limit, deleted)
    {
      hide Lowest, LowestGone, Partitioned;
      var gone := SelectLowest(ExpiredRows(db, cutoff), RowRank(db), limit);
      RemoveLowest(db.outbox, ExpiredRows(db, cutoff), RowRank(db), gone, limit);
      db := db.(outbox := db.outbox - (set e | e in gone));
      RowsGone(old(db), db, cutoff, limit, |gone|);
      StillPartitioned(old(db), db, pointDays, eventDays);
      deleted := |gone|;
    }

    /** One call of the maintenance function, in one transaction. An error may leave the transaction
        committed or not. */
    method MaintainRetention(cutoff: int, batchSize: int, call: Call) returns (ok: bool, result: Result)
      requires Valid()
      modifies this
      ensures Valid() && Spared(old(db), db, cutoff)
      ensures ok <==> 1 <= batchSize <= MAX_DELETE_BATCH && call.reached && call.reported
      ensures !(1 <= batchSize <= MAX_DELETE_BATCH && call.reached) ==>
                db == old(db) && pointDays == old(pointDays) && eventDays == old(eventDays)
      ensures 1 <= batchSize <= MAX_DELETE_BATCH && call.reached ==>
                && pointDays == LaterDays(old(pointDays), cutoff) && eventDays == LaterDays(old(eventDays), cutoff)
      ensures ok ==>
                && Swept(old(db), db, cutoff, batchSize, result)
                && result.pointPartitions == |EarlierDays(old(pointDays), cutoff)|
                && result.eventPartitions == |EarlierDays(old(eventDays), cutoff)|
    {
      hide Spared, LaterDays, EarlierDays, Drained, Rows, Valid;
      result := Result(0, 0, 0, 0, 0);
      SparedItself(db, cutoff);
      if batchSize < 1 || batchSize > MAX_DELETE_BATCH {
        return false, result;
      }
      if !call.reached {
        return false, result;
      }
      ghost var start := db;
      var pointPartitions := DropPointPartitions(cutoff);
      ghost var middle := db;
      var eventPartitions := DropEventPartitions(cutoff);
      ghost var dropped := db;
      SparedTransitive(start, middle, dropped, cutoff);
      FewerRows(start, dropped, cutoff);
      var points, events, outbox := DeleteBatches(cutoff, batchSize);
      SparedTransitive(start, dropped, db, cutoff);
      if !call.reported {
        return false, result;
      }
      result := Result(pointPartitions, eventPartitions, points, events, outbox);
      ok := true;
    }

    method DeleteBatches(cutoff: int, limit: nat) returns (points: nat, events: nat, outbox: nat)
      requires Valid()
      modifies this`db
      ensures Valid() && Spared(old(db), db, cutoff) && points <= limit && events <= limit && outbox <= limit
      ensures Rows(db) + points + events + outbox == Rows(old(db))
      ensures points < limit && events < limit && outbox < limit ==> Drained(db, cutoff)
    {
      hide Spared, Partitioned, LowestGone, Rows;
      points := DeletePoints(cutoff, limit);
      ghost var first := db;
      PointsGone(old(db), first, cutoff, limit, points);
      events := DeleteEvents(cutoff, limit);
      ghost var second := db;
      EventsGone(first, second, cutoff, limit, events);
      SparedTransitive(old(db), first, second, cutoff);
      outbox := DeleteOutbox(cutoff, limit);
      RowsGone(second, db, cutoff, limit, outbox);
      SparedTransitive(old(db), second, db, cutoff);
    }

    /** The maintenance loop: call after call, each of which deletes a full batch of something, up to the
        first that does not, or that fails. With no one else writing it ends, after as many calls as the
        rows to delete make full batches, at most; and when it reports success the tables are exactly the
        retained part of what they were. */
    method Maintain(cutoff: int, batchSize: int, calls: nat -> Call)
      returns (ok: bool, ghost tables: seq<Tables>, ghost results: seq<Result>)
      requires Valid()
      modifies this
      ensures Valid() && Spared(old(db), db, cutoff)
      ensures SweptThrough(tables, cutoff, batchSize, results) && tables[0] == old(db)
      ensures forall i: nat | i < |results| :: calls(i) == Call(true, true)
      ensures forall i | 0 <= i < |results| - 1 :: Full(results[i], batchSize)
      ensures ok ==> 1 <= batchSize <= MAX_DELETE_BATCH && results != [] && !Full(results[|results| - 1], batchSize)
      ensures !ok ==> results == [] || Full(results[|results| - 1], batchSize)
      ensures !ok ==> !(1 <= batchSize <= MAX_DELETE_BATCH) || calls(|results|) != Call(true, true)
      ensures db == tables[|results|] || (!ok && 1 <= batchSize <= MAX_DELETE_BATCH && calls(|results|).reached)
      ensures 1 <= batchSize ==> |results| <= Rows(old(db)) / batchSize + 1
      ensures ok ==> db == Retain(old(db), cutoff)
      ensures ok ==> pointDays == LaterDays(old(pointDays), cutoff) && eventDays == LaterDays(old(eventDays), cutoff)
    {
      hide Spared, Drained, LaterDays, Rows, Retain, Full, Swept, SweptThrough;
      tables, results := [db], [];
      NothingSwept(db, cutoff, batchSize);
      LaterTwice(old(pointDays), cutoff);
      LaterTwice(old(eventDays), cutoff);
      var next := 0;
      while true
        invariant Valid() && next == |results|
        invariant SweptThrough(tables, cutoff, batchSize, results)
        invariant |tables| == next + 1 && tables[0] == old(db) && tables[next] == db
        invariant forall i: nat | i < next :: calls(i) == Call(true, true) && Full(results[i], batchSize)
        invariant next > 0 ==> 1 <= batchSize <= MAX_DELETE_BATCH
        invariant if next > 0 then pointDays == LaterDays(old(pointDays), cutoff) else pointDays == old(pointDays)
        invariant if next > 0 then eventDays == LaterDays(old(eventDays), cutoff) else eventDays == old(eventDays)
        decreases Rows(db)
      {
        ghost var before := db;
        var result;
        ok, result := MaintainRetention(cutoff, batchSize, calls(next));
        SparedThrough(tables, cutoff, batchSize, results);
        SparedTransitive(old(db), before, db, cutoff);
        if batchSize >= 1 { FullBatches(tables, cutoff, batchSize, results); }
        if !ok {
          return;
        }
        OneMoreSwept(tables, cutoff, batchSize, results, db, result);
        next, tables, results := next + 1, tables + [db], results + [result];
        if result.points < batchSize && result.events < batchSize && result.outbox < batchSize {
          SweptIsRetained(old(db), before, db, cutoff, batchSize, result);
          return;
        }
        FullIsProgress(before, db, cutoff, batchSize, result);
      }
    }
  }

  lemma NothingSwept(db: Tables, cutoff: int, batchSize: int)
    ensures SweptThrough([db], cutoff, batchSize, [])
  {
  }

  lemma OneMoreSwept(tables: seq<Tables>, cutoff: int, batchSize: int, results: seq<Result>, after: Tables, r: Result)
    requires SweptThrough(tables, cutoff, batchSize, results)
    requires Swept(tables[|results|], after, cutoff, batchSize, r)
    ensures SweptThrough(tables + [after], cutoff, batchSize, results + [r])
  {
    hide Swept;
  }

  lemma {:induction false} SparedThrough(tables: seq<Tables>, cutoff: int, batchSize: int, results: seq<Result>)
    requires SweptThrough(tables, cutoff, batchSize, results)
    ensures Spared(tables[0], tables[|results|], cutoff)
    decreases |results|
  {
    hide Spared, Drained, Rows;
    if results == [] {
      SparedItself(tables[0], cutoff);
    } else {
      var n := |results| - 1;
      SparedThrough(tables[..n + 1], cutoff, batchSize, results[..n]);
      assert Swept(tables[n], tables[n + 1], cutoff, batchSize, results[n]);
      SparedTransitive(tables[0], tables[n], tables[n + 1], cutoff);
    }
  }

  /** Calls that each delete a full batch of something delete at least so many rows. */
  lemma {:induction false} FullBatches(tables: seq<Tables>, cutoff: int, batchSize: int, results: seq<Result>)
    requires SweptThrough(tables, cutoff, batchSize, results) && batchSize >= 1
    requires forall i | 0 <= i < |results| :: Full(results[i], batchSize)
    ensures |results| * batchSize + Rows(tables[|results|]) <= Rows(tables[0])
    ensures |results| <= Rows(tables[0]) / batchSize
    decreases |results|
  {
    hide Spared, Drained, Rows;
    if results != [] {
      var n := |results| - 1;
      FullBatches(tables[..n + 1], cutoff, batchSize, results[..n]);
      assert Swept(tables[n], tables[n + 1], cutoff, batchSize, results[n]);
      assert (n + 1) * batchSize == n * batchSize + batchSize;
    }
    AtMostRatio(|results|, batchSize, Rows(tables[0]));
  }

  lemma AtMostRatio(n: nat, size: int, total: nat)
    requires size >= 1 && n * size <= total
    ensures n <= total / size
  {
    assert n * size < (total / size + 1) * size;
    Cancel(n, total / size + 1, size);
  }

  lemma Cancel(a: int, b: int, size: int)
    requires size >= 1
    ensures a * size < b * size ==> a < b
  {
    if a >= b {
      assert (a - b) * size >= 0;
    }
  }

  lemma FullIsProgress(before: Tables, after: Tables, cutoff: int, batchSize: int, r: Result)
    requires batchSize >= 1 && Swept(before, after, cutoff, batchSize, r)
    requires !(r.points < batchSize && r.events < batchSize && r.outbox < batchSize)
    ensures Full(r, batchSize) && Rows(after) < Rows(before)
  {
    hide Spared, Drained, Rows;
  }

  lemma SweptIsRetained(start: Tables, before: Tables, after: Tables, cutoff: int, batchSize: int, r: Result)
    requires Spared(start, after, cutoff) && Swept(before, after, cutoff, batchSize, r)
    requires r.points < batchSize && r.events < batchSize && r.outbox < batchSize
    ensures !Full(r, batchSize) && after == Retain(start, cutoff)
  {
    hide Spared, Drained, Rows, Retain;
    SparedAndDrained(start, after, cutoff);
  }

  lemma LaterTwice(days: set<int>, cutoff: int)
    ensures LaterDays(LaterDays(days, cutoff), cutoff) == LaterDays(days, cutoff)
  {
  }

  function Rows(db: Tables): nat {
    |db.points| + |db.events| + |db.outbox|
  }

  lemma SplitDays(days: set<int>, cutoff: int)
    ensures days == LaterDays(days, cutoff) + EarlierDays(days, cutoff)
    ensures LaterDays(days, cutoff) !! EarlierDays(days, cutoff)
    ensures forall d | d in EarlierDays(days, cutoff) :: d < Day(cutoff)
  {
  }

  lemma OneMoreDay(later: set<int>, expired: set<int>, rest: set<int>, day: int)
    requires rest <= expired && day in rest && later !! expired
    ensures later + rest - {day} == later + (rest - {day})
    ensures |expired - (rest - {day})| == |expired - rest| + 1
  {
    assert expired - (rest - {day}) == (expired - rest) + {day};
  }

  lemma SparedItself(db: Tables, cutoff: int)
    ensures Spared(db, db, cutoff)
  {
  }

  lemma {:induction false} DistinctCount<K>(gone: seq<K>)
    requires forall i, j | 0 <= i < j < |gone| :: gone[i] != gone[j]
    ensures |set k | k in gone| == |gone|
  {
    if gone != [] {
      var last := |gone| - 1;
      DistinctCount(gone[..last]);
      assert (set k | k in gone) == (set k | k in gone[..last]) + {gone[last]};
      assert gone[last] !in gone[..last];
    }
  }

  lemma RemovedCount<K, V>(m: map<K, V>, gone: seq<K>)
    requires forall i, j | 0 <= i < j < |gone| :: gone[i] != gone[j]
    requires forall k | k in gone :: k in m
    ensures |m - (set k | k in gone)| + |gone| == |m|
  {
    var s := set k | k in gone;
    DistinctCount(gone);
    assert (m - s).Keys == m.Keys - s && s <= m.Keys;
    assert |m.Keys| == |m| && |(m - s).Keys| == |m - s|;
  }

  lemma RemoveLowest<K(!new), V>(m: map<K, V>, expired: set<K>, rank: K -> int, gone: seq<K>, limit: nat)
    requires expired <= m.Keys && Lowest(expired, rank, gone, limit)
    ensures LowestGone(m, m - (set k | k in gone), expired, rank, limit, |gone|)
  {
    RemovedCount(m, gone);
  }

  lemma PointsGone(before: Tables, after: Tables, cutoff: int, limit: nat, deleted: nat)
    requires after == before.(points := after.points)
    requires LowestGone(before.points, after.points, ExpiredPoints(before, cutoff), PointRank(), limit, deleted)
    ensures Spared(before, after, cutoff) && Rows(after) + deleted == Rows(before) && deleted <= limit
    ensures deleted < limit ==> forall k | k in after.points :: k.ts >= cutoff
    ensures forall k, l | k in before.points && k !in after.points && l in after.points :: k.ts < cutoff && k.ts <= l.ts
  {
  }

  lemma EventsGone(before: Tables, after: Tables, cutoff: int, limit: nat, deleted: nat)
    requires after == before.(events := after.events)
    requires LowestGone(before.events, after.events, ExpiredEvents(before, cutoff), EventRank(before), limit, deleted)
    ensures Spared(before, after, cutoff) && Rows(after) + deleted == Rows(before) && deleted <= limit
    ensures deleted < limit ==> forall e | e in after.events :: after.events[e].createdAt >= cutoff
    ensures forall e, f | e in before.events && e !in after.events && f in after.events ::
              before.events[e].createdAt < cutoff && before.events[e].createdAt <= before.events[f].createdAt
  {
  }

  lemma RowsGone(before: Tables, after: Tables, cutoff: int, limit: nat, deleted: nat)
    requires after == before.(outbox := after.outbox)
    requires LowestGone(before.outbox, after.outbox, ExpiredRows(before, cutoff), RowRank(before), limit, deleted)
    ensures Spared(before, after, cutoff) && Rows(after) + deleted == Rows(before) && deleted <= limit
    ensures deleted < limit ==> forall e | e in after.outbox :: KeepsOutboxRow(after.outbox[e], cutoff)
    ensures forall e, f | e in before.outbox && e !in after.outbox && f in after.outbox &&
              !KeepsOutboxRow(after.outbox[f], cutoff) ::
              before.outbox[e].id <= before.outbox[f].id
  {
  }

  lemma StillPartitioned(before: Tables, after: Tables, pointDays: set<int>, eventDays: set<int>)
    requires Partitioned(before, pointDays, eventDays)
    requires Within(after.points, before.points) && Within(after.events, before.events)
    ensures Partitioned(after, pointDays, eventDays)
  {
  }

  lemma WithinIsSmaller<K, V>(part: map<K, V>, whole: map<K, V>)
    requires Within(part, whole)
    ensures |part| <= |whole|
  {
    assert part.Keys <= whole.Keys;
    Subset(part.Keys, whole.Keys);
    assert |part.Keys| == |part| && |whole.Keys| == |whole|;
  }

  lemma Subset<K>(a: set<K>, b: set<K>)
    requires a <= b
    ensures |a| <= |b|
  {
    assert b == a + (b - a) && a !! (b - a);
  }

  lemma FewerRows(before: Tables, after: Tables, cutoff: int)
    requires Spared(before, after, cutoff)
    ensures Rows(after) <= Rows(before)
  {
    WithinIsSmaller(after.points, before.points);
    WithinIsSmaller(after.events, before.events);
    WithinIsSmaller(after.outbox, before.outbox);
  }

  // ---------------------------------------------------------------- partitions

  function DaysFrom(low: int, n: nat): (r: set<int>)
    ensures forall d :: d in r <==> low <= d < low + n
  {
    if n == 0 then {} else DaysFrom(low, n - 1) + {low + n - 1}
  }

  /** ensure_metric_daily_partitions on the given day. */
  function EnsureDaily(days: set<int>, today: int): set<int> {
    days + DaysFrom(today - PAST_DAYS, PAST_DAYS + FUTURE_DAYS + 1)
  }

  /** The partitions a flush creates for its points: only those outside the window it takes as prebuilt. */
  function EnsureForFlush(days: set<int>, timestamps: set<int>, today: int): set<int> {
    days + set ts | ts in timestamps && !(today - PAST_DAYS <= Day(ts) < today + FUTURE_DAYS + 1) :: Day(ts)
  }

  /** The partitions a flush starts from: maintenance prebuilt the window of its clock reading `ensured`,
      then dropped the days before the cutoff of its reading `dropped`; flushes since have created some. */
  function Standing(days: set<int>, ensured: int, dropped: int, created: set<int>): set<int> {
    LaterDays(EnsureDaily(days, Day(ensured)), dropped - Cursors.RETENTION_WINDOW) + created
  }

  /** When a flush finds a partition, for any clock readings of the last maintenance and of the flush:
      the timestamp's day is outside the flush's own window, so it is created on demand; or another
      flush created it; or it is no older than seven days before the maintenance, and that maintenance
      (or an earlier one) had built it. */
  lemma FlushFindsPartition(days: set<int>, created: set<int>, timestamps: set<int>,
                            ensured: int, dropped: int, flush: int, ts: int)
    requires ts in timestamps
    ensures var (d, today) := (Day(ts), Day(flush));
            d in EnsureForFlush(Standing(days, ensured, dropped, created), timestamps, today) <==>
              || d < today - PAST_DAYS || d > today + FUTURE_DAYS || d in created
              || (d >= Day(dropped) - 7 && (d in days || Day(ensured) - PAST_DAYS <= d <= Day(ensured) + FUTURE_DAYS))
  {
    assert Day(dropped - Cursors.RETENTION_WINDOW) == Day(dropped) - 7;
  }

  /** It fails on the day of the maintenance, for a timestamp on the eighth day back: the flush takes
      that day as prebuilt, and the maintenance has dropped it. */
  lemma EighthDayBackIsMissing(days: set<int>, timestamps: set<int>, now: int, ts: int)
    requires ts in timestamps && Day(ts) == Day(now) - PAST_DAYS
    ensures Day(ts) !in EnsureForFlush(Standing(days, now, now, {}), timestamps, Day(now))
  {
    FlushFindsPartition(days, {}, timestamps, now, now, now, ts);
  }

  /** And it fails just after midnight, half an hour after a maintenance, for the last day of the new
      window: the flush takes that day as prebuilt, and no maintenance has built it yet. */
  lemma MidnightIsMissing()
    ensures var (maintenance, flush) := (20000 * DAY_MILLIS + 84600000, 20001 * DAY_MILLIS + 60000);
            var ts := 20003 * DAY_MILLIS;
            && flush - maintenance < 3600000 && Day(ts) != Day(flush) - PAST_DAYS
            && Day(ts) !in EnsureForFlush(Standing({}, maintenance, maintenance, {}), {ts}, Day(flush))
  {
    FlushFindsPartition({}, {}, {20003 * DAY_MILLIS}, 20000 * DAY_MILLIS + 84600000, 20000 * DAY_MILLIS + 84600000,
                        20001 * DAY_MILLIS + 60000, 20003 * DAY_MILLIS);
  }

  /** So a flush never finds all days of its own window, unless other flushes created some: whatever
      the maintenances up to now have built, one day of the window is missing at every moment. */
  lemma SomeDayIsAlwaysMissing(days: set<int>, maintenance: int, flush: int) returns (ts: int)
    requires maintenance <= flush && forall d | d in days :: d <= Day(maintenance) + FUTURE_DAYS
    ensures Day(flush) - PAST_DAYS <= Day(ts) <= Day(flush) + FUTURE_DAYS
    ensures Day(ts) !in EnsureForFlush(Standing(days, maintenance, maintenance, {}), {ts}, Day(flush))
  {
    var day := if Day(flush) == Day(maintenance) then Day(flush) - PAST_DAYS else Day(flush) + FUTURE_DAYS;
    ts := day * DAY_MILLIS;
    FlushFindsPartition(days, {}, {ts}, maintenance, maintenance, flush, ts);
  }
}
