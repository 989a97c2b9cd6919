/** The history query: filtering, one shared bucket width, and per-key downsampling. Values are reals
    and timestamps are integer milliseconds. */
module History {
  import opened Domain
  import opened Order
  import opened Store

  /** The request; an empty key list and an absent bound put no restriction. */
  datatype Request = Request(
    task: string, keys: seq<string>, from: Option<int>, to: Option<int>,
    stepFrom: Option<int>, stepTo: Option<int>, maxPoints: nat)

  datatype OutPoint = OutPoint(step: int, ts: int, v: real, min: real, max: real)

  predicate Selected(q: Request, cutoff: int, row: Row) {
    && row.id.task == q.task && row.id.ts >= cutoff
    && (q.keys == [] || row.id.name in q.keys)
    && (q.from == None || row.id.ts >= q.from.value)
    && (q.to == None || row.id.ts < q.to.value)
    && (q.stepFrom == None || row.id.step >= q.stepFrom.value)
    && (q.stepTo == None || row.id.step <= q.stepTo.value)
  }

  /** A request without restrictions selects its task's rows from the cutoff on. */
  lemma UnrestrictedSelects(q: Request, cutoff: int, row: Row)
    requires q.keys == [] && q.from == None && q.to == None && q.stepFrom == None && q.stepTo == None
    ensures Selected(q, cutoff, row) <==> row.id.task == q.task && cutoff <= row.id.ts
  {
  }

  predicate Within(low: Option<int>, middle: int, high: Option<int>) {
    (low.Some? ==> low.value <= middle) && (high.Some? ==> middle <= high.value)
  }

  /** Time windows are half-open: split at any moment, a request's rows are those of exactly one half. */
  lemma TimesTile(q: Request, cutoff: int, row: Row, middle: int)
    requires Within(q.from, middle, q.to)
    ensures var (before, after) := (q.(to := Some(middle)), q.(from := Some(middle)));
            && (Selected(q, cutoff, row) <==> Selected(before, cutoff, row) || Selected(after, cutoff, row))
            && !(Selected(before, cutoff, row) && Selected(after, cutoff, row))
            && (Selected(before, cutoff, row) ==> row.id.ts < middle)
  {
  }

  /** Step ranges include both ends. */
  lemma StepsTile(q: Request, cutoff: int, row: Row, middle: int)
    requires Within(q.stepFrom, middle, q.stepTo)
    ensures var (before, after) := (q.(stepTo := Some(middle)), q.(stepFrom := Some(middle + 1)));
            && (Selected(q, cutoff, row) <==> Selected(before, cutoff, row) || Selected(after, cutoff, row))
            && !(Selected(before, cutoff, row) && Selected(after, cutoff, row))
            && (Selected(before, cutoff, row) ==> row.id.step <= middle)
  {
  }

  /** Key lists add up, and the empty list stands for all keys. */
  lemma KeysTile(q: Request, cutoff: int, row: Row, a: seq<string>, b: seq<string>)
    requires a != [] && b != []
    ensures Selected(q.(keys := a + b), cutoff, row) <==>
              Selected(q.(keys := a), cutoff, row) || Selected(q.(keys := b), cutoff, row)
    ensures Selected(q.(keys := a), cutoff, row) <==> Selected(q.(keys := []), cutoff, row) && row.id.name in a
  {
  }

  /** The rows that satisfy `p`, in scan order. */
  function Where(rows: seq<Row>, p: Row -> bool): (r: seq<Row>)
    ensures forall x :: x in r <==> x in rows && p(x)
    ensures |r| <= |rows|
  {
    if rows == [] then [] else (if p(rows[0]) then [rows[0]] else []) + Where(rows[1..], p)
  }

  function Filtered(rows: seq<Row>, q: Request, cutoff: int): seq<Row> {
    Where(rows, (row: Row) => Selected(q, cutoff, row))
  }

  function OfKey(rows: seq<Row>, name: string): (r: seq<Row>)
    ensures forall x :: x in r <==> x in rows && x.id.name == name
  {
    Where(rows, (row: Row) => row.id.name == name)
  }

  function KeyNames(rows: seq<Row>): set<string> {
    set row | row in rows :: row.id.name
  }

  function TsSet(rows: seq<Row>): set<int> {
    set row | row in rows :: row.id.ts
  }

  function MinTs(rows: seq<Row>): (m: int)
    requires rows != []
    ensures (exists x :: x in rows && x.id.ts == m) && forall x | x in rows :: m <= x.id.ts
  {
    assert rows[0] in rows && rows[0].id.ts in TsSet(rows);
    assert forall x | x in rows :: x.id.ts in TsSet(rows);
    Min(TsSet(rows))
  }

  function MaxTs(rows: seq<Row>): (m: int)
    requires rows != []
    ensures (exists x :: x in rows && x.id.ts == m) && forall x | x in rows :: x.id.ts <= m
  {
    assert rows[0] in rows && rows[0].id.ts in TsSet(rows);
    assert forall x | x in rows :: x.id.ts in TsSet(rows);
    Max(TsSet(rows))
  }

  // ---------------------------------------------------------------- the shared bucket width

  function CeilDiv(a: nat, b: nat): nat
    requires b > 0
  {
    (a + b - 1) / b
  }

  /** max(1, ceil((span + 1) / max_points)) for one key. */
  function OwnWidth(rows: seq<Row>, maxPoints: nat): nat
    requires rows != [] && maxPoints > 0
  {
    var w := CeilDiv(MaxTs(rows) - MinTs(rows) + 1, maxPoints);
    if w > 1 then w else 1
  }

  function OversizeKeys(rows: seq<Row>, maxPoints: nat): set<string> {
    set name | name in KeyNames(rows) && |OfKey(rows, name)| > maxPoints
  }

  /** The one width used for every oversize key; 0 when no key is oversize. */
  function BucketMs(rows: seq<Row>, maxPoints: nat): int
    requires maxPoints > 0
  {
    if OversizeKeys(rows, maxPoints) == {} then 0 else Max(Widths(rows, maxPoints))
  }

  function Widths(rows: seq<Row>, maxPoints: nat): (r: set<int>)
    requires maxPoints > 0
    ensures forall name | name in OversizeKeys(rows, maxPoints) :: OwnWidth(OfKey(rows, name), maxPoints) in r
    ensures OversizeKeys(rows, maxPoints) != {} ==> r != {}
  {
    hide OwnWidth, Where;
    var r := set name | name in OversizeKeys(rows, maxPoints) :: OwnWidth(OfKey(rows, name), maxPoints) as int;
    assert forall name | name in OversizeKeys(rows, maxPoints) :: OwnWidth(OfKey(rows, name), maxPoints) in r;
    r
  }

  lemma CeilDivCovers(a: nat, b: nat)
    requires b > 0
    ensures CeilDiv(a, b) * b >= a
  {
  }

  lemma OwnWidthCovers(rows: seq<Row>, maxPoints: nat)
    requires rows != [] && maxPoints > 0
    ensures OwnWidth(rows, maxPoints) * maxPoints >= MaxTs(rows) - MinTs(rows) + 1
  {
    CeilDivCovers(MaxTs(rows) - MinTs(rows) + 1, maxPoints);
  }

  lemma SharedWidthIsAtLeastOwn(rows: seq<Row>, maxPoints: nat, name: string)
    requires maxPoints > 0 && |OfKey(rows, name)| > maxPoints
    ensures OfKey(rows, name) != [] && BucketMs(rows, maxPoints) >= OwnWidth(OfKey(rows, name), maxPoints) >= 1
  {
    hide OwnWidth, Widths, Where;
    var own := OfKey(rows, name);
    assert own[0] in own && own[0] in rows && name in KeyNames(rows);
    assert name in OversizeKeys(rows, maxPoints);
    assert OwnWidth(own, maxPoints) in Widths(rows, maxPoints);
    OwnWidthIsPositive(own, maxPoints);
  }

  lemma OwnWidthIsPositive(rows: seq<Row>, maxPoints: nat)
    requires rows != [] && maxPoints > 0
    ensures OwnWidth(rows, maxPoints) >= 1
  {
  }

  /** The width lets each key with too many points, binned from its own first timestamp, be covered by
      maxPoints buckets. */
  ghost predicate Covers(rows: seq<Row>, maxPoints: nat, width: int) {
    && width >= 1
    && forall name | |OfKey(rows, name)| > maxPoints ::
         OfKey(rows, name) != [] && width * maxPoints > MaxTs(OfKey(rows, name)) - MinTs(OfKey(rows, name))
  }

  lemma LeastMultiple(span: nat, maxPoints: nat, width: int)
    requires maxPoints > 0 && width >= 1
    ensures width * maxPoints > span <==> CeilDiv(span + 1, maxPoints) <= width
  {
    var c := CeilDiv(span + 1, maxPoints);
    assert (c - 1) * maxPoints <= span < c * maxPoints;
    if c <= width { assert c * maxPoints <= width * maxPoints; }
    if width <= c - 1 { assert width * maxPoints <= (c - 1) * maxPoints; }
  }

  lemma OwnWidthIsLeast(rows: seq<Row>, maxPoints: nat, width: int)
    requires rows != [] && maxPoints > 0 && width >= 1
    ensures width * maxPoints > MaxTs(rows) - MinTs(rows) <==> OwnWidth(rows, maxPoints) <= width
  {
    hide CeilDiv, MaxTs, MinTs;
    LeastMultiple(MaxTs(rows) - MinTs(rows), maxPoints, width);
  }

  /** The shared width is neither too narrow nor wider than it must be: when some key has too many points,
      it is the least width that covers all such keys. */
  lemma BucketIsLeast(rows: seq<Row>, maxPoints: nat, width: int)
    requires maxPoints > 0 && width >= 1 && BucketMs(rows, maxPoints) > 0
    ensures Covers(rows, maxPoints, width) <==> BucketMs(rows, maxPoints) <= width
  {
    hide OwnWidth, Where, MaxTs, MinTs;
    forall name | |OfKey(rows, name)| > maxPoints
      ensures OfKey(rows, name) != [] && BucketMs(rows, maxPoints) >= OwnWidth(OfKey(rows, name), maxPoints)
      ensures width * maxPoints > MaxTs(OfKey(rows, name)) - MinTs(OfKey(rows, name))
              <==> OwnWidth(OfKey(rows, name), maxPoints) <= width
    {
      SharedWidthIsAtLeastOwn(rows, maxPoints, name);
      OwnWidthIsLeast(OfKey(rows, name), maxPoints, width);
    }
    var widest :|
      widest in OversizeKeys(rows, maxPoints) && OwnWidth(OfKey(rows, widest), maxPoints) == BucketMs(rows, maxPoints);
  }

  /** The response says "downsampled" exactly when some key has more points than allowed. */
  lemma DownsampledWhenOversize(rows: seq<Row>, maxPoints: nat)
    requires maxPoints > 0
    ensures BucketMs(rows, maxPoints) > 0 <==> exists name :: |OfKey(rows, name)| > maxPoints
  {
    hide OwnWidth, Widths, Where;
    if name :| |OfKey(rows, name)| > maxPoints { SharedWidthIsAtLeastOwn(rows, maxPoints, name); }
    if OversizeKeys(rows, maxPoints) != {} {
      var name :| name in OversizeKeys(rows, maxPoints);
      assert |OfKey(rows, name)| > maxPoints;
    }
  }

  // ---------------------------------------------------------------- buckets and aggregates

  /** date_bin: how many whole widths the timestamp lies past its key's own origin. */
  function Index(row: Row, origin: int, width: int): int
    requires width > 0
  {
    (row.id.ts - origin) / width
  }

  function Bucket(rows: seq<Row>, origin: int, width: int, i: int): (r: seq<Row>)
    requires width > 0
    ensures forall x :: x in r <==> x in rows && Index(x, origin, width) == i
  {
    Where(rows, (row: Row) => Index(row, origin, width) == i)
  }

  function Sum(rows: seq<Row>): real {
    if rows == [] then 0.0 else rows[0].value + Sum(rows[1..])
  }

  function Least(rows: seq<Row>): (m: real)
    requires rows != []
    ensures (exists x :: x in rows && x.value == m) && forall x | x in rows :: m <= x.value
  {
    if |rows| == 1 then rows[0].value
    else
      var rest := Least(rows[1..]);
      assert forall x :: x in rows <==> x == rows[0] || x in rows[1..];
      if rows[0].value < rest then rows[0].value else rest
  }

  function Greatest(rows: seq<Row>): (m: real)
    requires rows != []
    ensures (exists x :: x in rows && x.value == m) && forall x | x in rows :: x.value <= m
  {
    if |rows| == 1 then rows[0].value
    else
      var rest := Greatest(rows[1..]);
      assert forall x :: x in rows <==> x == rows[0] || x in rows[1..];
      if rows[0].value > rest then rows[0].value else rest
  }

  /** min(ARRAY[ts, step]): array comparison is lexicographic. */
  function Earliest(rows: seq<Row>): (m: (int, int))
    requires rows != []
    ensures (exists x :: x in rows && (x.id.ts, x.id.step) == m) && forall x | x in rows ::
        PairLe(m, (x.id.ts, x.id.step))
  {
    if |rows| == 1 then (rows[0].id.ts, rows[0].id.step)
    else
      var rest := Earliest(rows[1..]);
      assert forall x :: x in rows <==> x == rows[0] || x in rows[1..];
      if PairLe((rows[0].id.ts, rows[0].id.step), rest) then (rows[0].id.ts, rows[0].id.step) else rest
  }

  function Aggregate(rows: seq<Row>): OutPoint
    requires rows != []
  {
    OutPoint(Earliest(rows).1, Earliest(rows).0, Sum(rows) / |rows| as real, Least(rows), Greatest(rows))
  }

  predicate NonEmpty(buckets: seq<seq<Row>>) {
    forall j | 0 <= j < |buckets| :: buckets[j] != []
  }

  /** The indices below n whose bucket is not empty, in order. */
  function Occupied(rows: seq<Row>, origin: int, width: int, n: nat): (r: seq<int>)
    requires width > 0
    ensures |r| <= n
    ensures forall j | 0 <= j < |r| :: 0 <= r[j] < n && Bucket(rows, origin, width, r[j]) != []
    ensures forall i, j | 0 <= i < j < |r| :: r[i] < r[j]
    ensures forall i | 0 <= i < n && Bucket(rows, origin, width, i) != [] :: i in r
  {
    if n == 0 then []
    else if Bucket(rows, origin, width, n - 1) == [] then Occupied(rows, origin, width, n - 1)
    else Occupied(rows, origin, width, n - 1) + [n - 1]
  }

  /** The non-empty buckets among the first n, in order. */
  function Buckets(rows: seq<Row>, origin: int, width: int, n: nat): (r: seq<seq<Row>>)
    requires width > 0
    ensures |r| <= n && NonEmpty(r)
  {
    var indices := Occupied(rows, origin, width, n);
    seq(|indices|, j requires 0 <= j < |indices| => Bucket(rows, origin, width, indices[j]))
  }

  function Aggregates(buckets: seq<seq<Row>>): (r: seq<OutPoint>)
    requires NonEmpty(buckets)
    ensures |r| == |buckets| && forall i | 0 <= i < |r| :: r[i] == Aggregate(buckets[i])
  {
    seq(|buckets|, i requires 0 <= i < |buckets| => Aggregate(buckets[i]))
  }

  /** How many buckets the key's own span reaches. */
  function BucketCount(rows: seq<Row>, width: int): (n: nat)
    requires rows != [] && width > 0
  {
    (MaxTs(rows) - MinTs(rows)) / width + 1
  }

  function ToPoint(row: Row): OutPoint {
    OutPoint(row.id.step, row.id.ts, row.value, row.value, row.value)
  }

  function Place(point: OutPoint, sorted: seq<OutPoint>): seq<OutPoint> {
    if sorted == [] || PairLe((point.ts, point.step), (sorted[0].ts, sorted[0].step)) then [point] + sorted
    else [sorted[0]] + Place(point, sorted[1..])
  }

  /** ORDER BY ts, step. */
  function Raw(rows: seq<Row>): seq<OutPoint> {
    if rows == [] then [] else Place(ToPoint(rows[0]), Raw(rows[1..]))
  }

  /** The buckets of one oversize key. */
  function KeyBuckets(own: seq<Row>, width: int): (r: seq<seq<Row>>)
    requires own != [] && width > 0
    ensures NonEmpty(r) && |r| <= BucketCount(own, width)
  {
    Buckets(own, MinTs(own), width, BucketCount(own, width))
  }

  /** The returned series of one key, given the filtered rows of the whole request. */
  function Series(rows: seq<Row>, maxPoints: nat, name: string): seq<OutPoint>
    requires maxPoints > 0
  {
    var own, width := OfKey(rows, name), BucketMs(rows, maxPoints);
    if |own| <= maxPoints || width <= 0 then Raw(own) else Aggregates(KeyBuckets(own, width))
  }

  // ---------------------------------------------------------------- the size bound

  /** A span covered by maxPoints widths reaches at most maxPoints buckets. */
  lemma FewBuckets(span: nat, width: nat, own: nat, maxPoints: nat)
    requires width >= own >= 1 && own * maxPoints >= span + 1
    ensures span / width + 1 <= maxPoints
  {
    var k := span / width;
    assert k * width <= span < own * maxPoints <= width * maxPoints;
    assert k < maxPoints by { assert k >= maxPoints ==> k * width >= maxPoints * width; }
  }

  /** Every returned series has at most maxPoints entries, although all oversize keys share one width
      and each key bins from its own first timestamp. */
  lemma SeriesIsBounded(rows: seq<Row>, maxPoints: nat, name: string)
    requires maxPoints > 0
    ensures |Series(rows, maxPoints, name)| <= maxPoints
  {
    hide OwnWidth, BucketMs, KeyBuckets, Raw, Where, MinTs, MaxTs;
    var own, width := OfKey(rows, name), BucketMs(rows, maxPoints);
    if |own| <= maxPoints {
      RawPermutes(own);
    } else {
      SharedWidthIsAtLeastOwn(rows, maxPoints, name);
      OwnWidthCovers(own, maxPoints);
      FewBuckets(MaxTs(own) - MinTs(own), width, OwnWidth(own, maxPoints), maxPoints);
    }
  }

  // ---------------------------------------------------------------- keys within the limit

  lemma {:induction false} PlacePermutes(point: OutPoint, sorted: seq<OutPoint>)
    ensures multiset(Place(point, sorted)) == multiset(sorted) + multiset{point}
    ensures |Place(point, sorted)| == |sorted| + 1
  {
    if sorted == [] || PairLe((point.ts, point.step), (sorted[0].ts, sorted[0].step)) {
    } else {
      PlacePermutes(point, sorted[1..]);
      assert sorted == [sorted[0]] + sorted[1..];
    }
  }

  function Points(rows: seq<Row>): (r: seq<OutPoint>)
    ensures |r| == |rows| && forall i | 0 <= i < |r| ::
        var row := rows[i]; r[i] == OutPoint(row.id.step, row.id.ts, row.value, row.value, row.value)
  {
    seq(|rows|, i requires 0 <= i < |rows| => ToPoint(rows[i]))
  }

  lemma {:induction false} RawPermutes(rows: seq<Row>)
    ensures multiset(Raw(rows)) == multiset(Points(rows)) && |Raw(rows)| == |rows|
  {
    if rows != [] {
      RawPermutes(rows[1..]);
      PlacePermutes(ToPoint(rows[0]), Raw(rows[1..]));
      assert Points(rows) == [ToPoint(rows[0])] + Points(rows[1..]);
    }
  }

  ghost predicate InOrder(points: seq<OutPoint>) {
    forall i, j | 0 <= i < j < |points| :: PairLe((points[i].ts, points[i].step), (points[j].ts, points[j].step))
  }

  lemma {:induction false} PlaceKeepsOrder(point: OutPoint, sorted: seq<OutPoint>)
    requires InOrder(sorted)
    ensures InOrder(Place(point, sorted))
  {
    if sorted == [] || PairLe((point.ts, point.step), (sorted[0].ts, sorted[0].step)) {
    } else {
      PlaceKeepsOrder(point, sorted[1..]);
      PlacePermutes(point, sorted[1..]);
      var rest := Place(point, sorted[1..]);
      forall j | 0 <= j < |rest|
        ensures PairLe((sorted[0].ts, sorted[0].step), (rest[j].ts, rest[j].step))
      {
        assert rest[j] in multiset(rest);
        assert rest[j] == point || rest[j] in sorted[1..];
      }
    }
  }

  lemma {:induction false} RawIsOrdered(rows: seq<Row>)
    ensures InOrder(Raw(rows))
  {
    if rows != [] {
      RawIsOrdered(rows[1..]);
      PlaceKeepsOrder(ToPoint(rows[0]), Raw(rows[1..]));
    }
  }

  /** A key within the limit comes back unchanged: all its points, each as its own minimum, maximum
      and mean, in (ts, step) order. */
  lemma SmallKeysUnchanged(rows: seq<Row>, maxPoints: nat, name: string)
    requires maxPoints > 0 && |OfKey(rows, name)| <= maxPoints
    ensures multiset(Series(rows, maxPoints, name)) == multiset(Points(OfKey(rows, name)))
    ensures InOrder(Series(rows, maxPoints, name))
  {
    RawPermutes(OfKey(rows, name));
    RawIsOrdered(OfKey(rows, name));
  }

  // ---------------------------------------------------------------- shape of the sampled series

  lemma IndexInRange(rows: seq<Row>, width: int, x: Row)
    requires x in rows && width > 0
    ensures 0 <= Index(x, MinTs(rows), width) < BucketCount(rows, width)
  {
    var origin, ts, top := MinTs(rows), x.id.ts, MaxTs(rows);
    DivMonotone(ts - origin, top - origin, width);
  }

  lemma DivMonotone(a: nat, b: nat, d: nat)
    requires a <= b && d > 0
    ensures 0 <= a / d <= b / d
  {
    var p, q := a / d, b / d;
    assert p * d <= a && b < (q + 1) * d;
    assert p <= q by { assert p > q ==> p * d >= (q + 1) * d; }
  }

  /** The buckets partition the key's points: each point is in exactly one bucket. */
  lemma BucketsPartition(own: seq<Row>, width: int, x: Row)
    requires own != [] && width > 0
    ensures var bs := KeyBuckets(own, width);
            && (x in own <==> exists j :: 0 <= j < |bs| && x in bs[j])
            && (forall i, j | 0 <= i < |bs| && 0 <= j < |bs| && x in bs[i] && x in bs[j] :: i == j)
  {
    hide Where, Bucket, Occupied, MinTs, MaxTs;
    var origin := MinTs(own);
    var bs, indices := KeyBuckets(own, width), Occupied(own, origin, width, BucketCount(own, width));
    forall j | 0 <= j < |bs| && x in bs[j]
      ensures x in own && Index(x, origin, width) == indices[j]
    {
      assert bs[j] == Bucket(own, origin, width, indices[j]);
    }
    if x in own {
      IndexInRange(own, width, x);
      var i := Index(x, origin, width);
      assert x in Bucket(own, origin, width, i);
      var j :| 0 <= j < |indices| && indices[j] == i;
      assert x in bs[j];
    }
  }

  /** The k-th window of a key: so many whole widths past its first timestamp, one width long. */
  predicate InWindow(own: seq<Row>, width: int, k: int, row: Row)
    requires own != []
  {
    MinTs(own) + k * width <= row.id.ts < MinTs(own) + (k + 1) * width
  }

  lemma WindowIndex(own: seq<Row>, width: int, k: int, row: Row)
    requires own != [] && width > 0
    ensures InWindow(own, width, k, row) <==> Index(row, MinTs(own), width) == k
  {
    hide MinTs;
    var (past, q) := (row.id.ts - MinTs(own), Index(row, MinTs(own), width));
    assert q * width <= past < (q + 1) * width;
    if k < q { assert (k + 1) * width <= q * width; }
    if q < k { assert (q + 1) * width <= k * width; }
  }

  /** Two points of a key share a bucket if and only if they lie in the same window. */
  lemma BucketsAreWindows(own: seq<Row>, width: int, x: Row, y: Row)
    requires own != [] && width > 0 && x in own && y in own
    ensures var bs := KeyBuckets(own, width);
            (exists j :: 0 <= j < |bs| && x in bs[j] && y in bs[j])
            <==> exists k :: InWindow(own, width, k, x) && InWindow(own, width, k, y)
  {
    hide Where, Bucket, Occupied, MinTs, MaxTs, InWindow, Index;
    var origin := MinTs(own);
    var bs, indices := KeyBuckets(own, width), Occupied(own, origin, width, BucketCount(own, width));
    assert forall k :: InWindow(own, width, k, x) <==> Index(x, origin, width) == k by {
      forall k ensures InWindow(own, width, k, x) <==> Index(x, origin, width) == k { WindowIndex(own, width, k, x); }
    }
    assert forall k :: InWindow(own, width, k, y) <==> Index(y, origin, width) == k by {
      forall k ensures InWindow(own, width, k, y) <==> Index(y, origin, width) == k { WindowIndex(own, width, k, y); }
    }
    assert forall j | 0 <= j < |bs| :: bs[j] == Bucket(own, origin, width, indices[j]);
    var i := Index(x, origin, width);
    IndexInRange(own, width, x);
    assert x in Bucket(own, origin, width, i);
    var j :| 0 <= j < |indices| && indices[j] == i;
    assert x in bs[j];
    assert InWindow(own, width, i, x);
  }

  /** Output timestamps strictly increase. */
  lemma TimestampsIncrease(own: seq<Row>, width: int, i: nat, j: nat)
    requires own != [] && width > 0
    requires i < j < |KeyBuckets(own, width)|
    ensures var out := Aggregates(KeyBuckets(own, width)); out[i].ts < out[j].ts
  {
    hide KeyBuckets, Earliest, Least, Greatest, Sum, MinTs;
    var bs := KeyBuckets(own, width);
    var (first, second) := (bs[i], bs[j]);
    var (e, f) := (Earliest(first), Earliest(second));
    var x: Row :| x in first && (x.id.ts, x.id.step) == e;
    var y: Row :| y in second && (y.id.ts, y.id.step) == f;
    LaterBucket(own, width, i, j, x, y);
    if y.id.ts <= x.id.ts { DivMonotone(y.id.ts - MinTs(own), x.id.ts - MinTs(own), width); }
  }

  lemma LaterBucket(own: seq<Row>, width: int, i: nat, j: nat, x: Row, y: Row)
    requires own != [] && width > 0
    requires i < j < |KeyBuckets(own, width)| && x in KeyBuckets(own, width)[i] && y in KeyBuckets(own, width)[j]
    ensures x in own && y in own
    ensures (x.id.ts - MinTs(own)) / width < (y.id.ts - MinTs(own)) / width
  {
    hide Where, Bucket, Occupied, MinTs, MaxTs;
    var origin := MinTs(own);
    var indices := Occupied(own, origin, width, BucketCount(own, width));
    assert KeyBuckets(own, width)[i] == Bucket(own, origin, width, indices[i]);
    assert KeyBuckets(own, width)[j] == Bucket(own, origin, width, indices[j]);
  }

  /** Each output point is a bucket's (ts, step)-least point carrying the bucket's exact extremes,
      and its mean lies between them. */
  lemma AggregateIsFair(bucket: seq<Row>)
    requires bucket != []
    ensures var a := Aggregate(bucket);
            && (exists x :: x in bucket && x.id.ts == a.ts && x.id.step == a.step)
            && (forall x | x in bucket :: PairLe((a.ts, a.step), (x.id.ts, x.id.step)) && a.min <= x.value <= a.max)
            && (exists x :: x in bucket && x.value == a.min) && (exists x :: x in bucket && x.value == a.max)
            && a.min <= a.v <= a.max
            && a.v * |bucket| as real == Sum(bucket)
  {
    hide Earliest, Least, Greatest, Sum;
    SumBounds(bucket, Least(bucket), Greatest(bucket));
    MeanBounds(Sum(bucket), |bucket| as real, Least(bucket), Greatest(bucket));
    var x: Row :| x in bucket && (x.id.ts, x.id.step) == Earliest(bucket);
    assert x.id.ts == Aggregate(bucket).ts && x.id.step == Aggregate(bucket).step;
  }

  lemma MeanBounds(s: real, n: real, low: real, high: real)
    requires n > 0.0 && low * n <= s <= high * n
    ensures low <= s / n <= high && (s / n) * n == s
  {
    var mean := s / n;
    assert mean * n == s;
    assert low <= mean by { assert mean < low ==> mean * n < low * n; }
    assert mean <= high by { assert mean > high ==> mean * n > high * n; }
  }

  lemma {:induction false} SumBounds(rows: seq<Row>, low: real, high: real)
    requires forall x | x in rows :: low <= x.value <= high
    ensures low * |rows| as real <= Sum(rows) <= high * |rows| as real
  {
    if rows != [] {
      assert rows[0] in rows;
      SumBounds(rows[1..], low, high);
      var n := |rows| - 1;
      assert low * (n as real + 1.0) == low * n as real + low && high * (n as real + 1.0) == high * n as real + high;
      assert |rows| as real == n as real + 1.0;
    }
  }

  /** The extremes survive: the least minimum and the greatest maximum of the series are the raw ones. */
  lemma ExtremesPreserved(own: seq<Row>, width: int)
    requires own != [] && width > 0
    ensures var out := Aggregates(KeyBuckets(own, width));
            && (forall j | 0 <= j < |out| :: Least(own) <= out[j].min && out[j].max <= Greatest(own))
            && (exists j :: 0 <= j < |out| && out[j].min == Least(own))
            && (exists j :: 0 <= j < |out| && out[j].max == Greatest(own))
  {
    hide KeyBuckets, Earliest, Least, Greatest, Sum;
    var bs, out := KeyBuckets(own, width), Aggregates(KeyBuckets(own, width));
    forall j | 0 <= j < |out|
      ensures Least(own) <= out[j].min && out[j].max <= Greatest(own)
    {
      InsideExtremes(own, width, j);
    }
    var lo: Row :| lo in own && lo.value == Least(own);
    var i := HomeBucket(own, width, lo);
    InsideExtremes(own, width, i);
    var hi: Row :| hi in own && hi.value == Greatest(own);
    var k := HomeBucket(own, width, hi);
    InsideExtremes(own, width, k);
    assert out[i].min == Least(own) && out[k].max == Greatest(own);
  }

  lemma HomeBucket(own: seq<Row>, width: int, x: Row) returns (j: nat)
    requires own != [] && width > 0 && x in own
    ensures j < |KeyBuckets(own, width)| && x in KeyBuckets(own, width)[j]
  {
    hide KeyBuckets;
    BucketsPartition(own, width, x);
    var bs := KeyBuckets(own, width);
    j :| 0 <= j < |bs| && x in bs[j];
  }

  lemma InsideExtremes(own: seq<Row>, width: int, j: nat)
    requires own != [] && width > 0 && j < |KeyBuckets(own, width)|
    ensures Least(own) <= Least(KeyBuckets(own, width)[j]) && Greatest(KeyBuckets(own, width)[j]) <= Greatest(own)
  {
    hide KeyBuckets, Least, Greatest;
    var bucket := KeyBuckets(own, width)[j];
    var (low, high) := (Least(bucket), Greatest(bucket));
    var lo: Row :| lo in bucket && lo.value == low;
    var hi: Row :| hi in bucket && hi.value == high;
    BucketsPartition(own, width, lo);
    BucketsPartition(own, width, hi);
  }

  // ---------------------------------------------------------------- the mean

  /** The sum of count times average over the series. */
  function Weighted(buckets: seq<seq<Row>>): real
    requires NonEmpty(buckets)
  {
    if buckets == [] then 0.0
    else
      var last := buckets[|buckets| - 1];
      Weighted(buckets[..|buckets| - 1]) + Weight(last)
  }

  function Weight(bucket: seq<Row>): real
    requires bucket != []
  {
    |bucket| as real * Aggregate(bucket).v
  }

  function Counted(buckets: seq<seq<Row>>): nat {
    if buckets == [] then 0 else Counted(buckets[..|buckets| - 1]) + |buckets[|buckets| - 1]|
  }

  lemma {:induction false} WhereSplits(rows: seq<Row>, p: Row -> bool, q: Row -> bool, both: Row -> bool)
    requires forall x :: both(x) <==> p(x) || q(x)
    requires forall x :: !(p(x) && q(x))
    ensures Sum(Where(rows, both)) == Sum(Where(rows, p)) + Sum(Where(rows, q))
    ensures |Where(rows, both)| == |Where(rows, p)| + |Where(rows, q)|
  {
    if rows != [] {
      WhereSplits(rows[1..], p, q, both);
      forall rest: seq<Row>
        ensures Sum([rows[0]] + rest) == rows[0].value + Sum(rest) && [] + rest == rest
      {
        assert ([rows[0]] + rest)[1..] == rest;
      }
    }
  }

  lemma {:induction false} WhereAll(rows: seq<Row>, p: Row -> bool)
    requires forall x | x in rows :: p(x)
    ensures Where(rows, p) == rows
  {
    if rows != [] { WhereAll(rows[1..], p); }
  }

  lemma {:induction false} WhereNone(rows: seq<Row>, p: Row -> bool)
    requires forall x | x in rows :: !p(x)
    ensures Where(rows, p) == []
  {
    if rows != [] { WhereNone(rows[1..], p); }
  }

  function Below(rows: seq<Row>, origin: int, width: int, n: int): seq<Row>
    requires width > 0
  {
    Where(rows, (row: Row) => Index(row, origin, width) < n)
  }

  lemma BelowGrows(rows: seq<Row>, origin: int, width: int, n: int)
    requires width > 0
    ensures Sum(Below(rows, origin, width, n))
              == Sum(Below(rows, origin, width, n - 1)) + Sum(Bucket(rows, origin, width, n - 1))
    ensures |Below(rows, origin, width, n)|
              == |Below(rows, origin, width, n - 1)| + |Bucket(rows, origin, width, n - 1)|
  {
    hide Where, Sum, Index;
    WhereSplits(rows, (row: Row) => Index(row, origin, width) < n - 1, (row: Row) => Index(row, origin, width) == n - 1,
                (row: Row) => Index(row, origin, width) < n);
  }

  lemma {:induction false} WeightedSoFar(rows: seq<Row>, origin: int, width: int, n: nat)
    requires width > 0
    requires forall x | x in rows :: Index(x, origin, width) >= 0
    ensures Weighted(Buckets(rows, origin, width, n)) == Sum(Below(rows, origin, width, n))
    ensures Counted(Buckets(rows, origin, width, n)) == |Below(rows, origin, width, n)|
  {
    hide Where, Index, Sum, Below, Bucket, Buckets, Weighted, Counted;
    if n == 0 {
      NothingBelow(rows, origin, width);
    } else {
      WeightedSoFar(rows, origin, width, n - 1);
      BelowGrows(rows, origin, width, n);
      BucketsGrow(rows, origin, width, n);
      var bucket, before := Bucket(rows, origin, width, n - 1), Buckets(rows, origin, width, n - 1);
      if bucket != [] {
        WeightedGrows(before, bucket);
      } else {
        NothingBelow(rows, origin, width);
        assert before + [] == before;
      }
    }
  }

  lemma NothingBelow(rows: seq<Row>, origin: int, width: int)
    requires width > 0
    requires forall x | x in rows :: Index(x, origin, width) >= 0
    ensures Buckets(rows, origin, width, 0) == [] && Below(rows, origin, width, 0) == []
    ensures Sum([]) == 0.0 == Weighted([]) && Counted([]) == 0
  {
    hide Bucket;
    WhereNone(rows, (row: Row) => Index(row, origin, width) < 0);
  }

  lemma BucketsGrow(rows: seq<Row>, origin: int, width: int, n: nat)
    requires width > 0 && n > 0
    ensures var bucket := Bucket(rows, origin, width, n - 1);
            Buckets(rows, origin, width, n)
            == Buckets(rows, origin, width, n - 1) + if bucket == [] then [] else [bucket]
  {
    hide Bucket;
  }

  lemma WeightedGrows(before: seq<seq<Row>>, bucket: seq<Row>)
    requires NonEmpty(before) && bucket != []
    ensures Weighted(before + [bucket]) == Weighted(before) + Sum(bucket)
    ensures Counted(before + [bucket]) == Counted(before) + |bucket|
  {
    hide Sum, Weight;
    CountTimesMean(bucket);
    var all := before + [bucket];
    assert all[..|all| - 1] == before && all[|all| - 1] == bucket;
  }

  lemma CountTimesMean(bucket: seq<Row>)
    requires bucket != []
    ensures Weight(bucket) == Sum(bucket)
  {
    AggregateIsFair(bucket);
  }

  /** The count-weighted mean of the series is the mean of the key's points. */
  lemma MeanPreserved(own: seq<Row>, width: int)
    requires own != [] && width > 0
    ensures Counted(KeyBuckets(own, width)) == |own|
    ensures Weighted(KeyBuckets(own, width)) == Sum(own)
  {
    var origin, n := MinTs(own), BucketCount(own, width);
    forall x | x in own
      ensures 0 <= Index(x, origin, width) < n
    {
      IndexInRange(own, width, x);
    }
    WeightedSoFar(own, origin, width, n);
    WhereAll(own, (row: Row) => Index(row, origin, width) < n);
  }

  // ---------------------------------------------------------------- the whole answer

  datatype Answer = Answer(bucketMs: int, downsampled: bool, series: map<string, seq<OutPoint>>)

  function Query(rows: seq<Row>, q: Request, cutoff: int): Answer
    requires q.maxPoints > 0
  {
    var filtered := Filtered(rows, q, cutoff);
    var bucketMs := BucketMs(filtered, q.maxPoints);
    Answer(bucketMs, bucketMs > 0, map name | name in KeyNames(filtered) :: Series(filtered, q.maxPoints, name))
  }

  function SelectedOf(rows: seq<Row>, q: Request, cutoff: int, name: string): (r: seq<Row>)
    ensures forall x :: x in r <==> x in rows && Selected(q, cutoff, x) && x.id.name == name
  {
    OfKey(Filtered(rows, q, cutoff), name)
  }

  /** The contract of the endpoint: a key appears exactly when some selected row carries it, no series
      is longer than max_points, and the answer admits to sampling exactly when it changed a series. */
  lemma QueryContract(rows: seq<Row>, q: Request, cutoff: int)
    requires q.maxPoints > 0
    ensures var a := Query(rows, q, cutoff);
            && (forall name ::
                  name in a.series <==> exists x :: x in rows && Selected(q, cutoff, x) && x.id.name == name)
            && (forall name | name in a.series :: |a.series[name]| <= q.maxPoints)
            && (a.downsampled <==> exists name :: |SelectedOf(rows, q, cutoff, name)| > q.maxPoints)
            && (forall name | name in a.series && |SelectedOf(rows, q, cutoff, name)| <= q.maxPoints ::
                  multiset(a.series[name]) == multiset(Points(SelectedOf(rows, q, cutoff, name)))
                      && InOrder(a.series[name]))
  {
    hide Series, BucketMs, Where, Selected, OfKey;
    var filtered := Filtered(rows, q, cutoff);
    forall name
      ensures name in KeyNames(filtered) <==> exists x :: x in rows && Selected(q, cutoff, x) && x.id.name == name
    {
      if x: Row :| x in rows && Selected(q, cutoff, x) && x.id.name == name { assert x in filtered; }
      if name in KeyNames(filtered) { var x: Row :| x in filtered && x.id.name == name; }
    }
    forall name
      ensures |Series(filtered, q.maxPoints, name)| <= q.maxPoints
    {
      SeriesIsBounded(filtered, q.maxPoints, name);
    }
    DownsampledWhenOversize(filtered, q.maxPoints);
    assert forall name :: SelectedOf(rows, q, cutoff, name) == OfKey(filtered, name);
    forall name | |OfKey(filtered, name)| <= q.maxPoints
      ensures var s := Series(filtered, q.maxPoints, name);
              multiset(s) == multiset(Points(OfKey(filtered, name))) && InOrder(s)
    {
      SmallKeysUnchanged(filtered, q.maxPoints, name);
    }
  }

  /** An oversize key is answered with the aggregates of buckets at least one millisecond wide, which
      cover each of its points exactly once; so the shape theorems above apply to the answer. */
  lemma OversizeIsSampled(rows: seq<Row>, q: Request, cutoff: int, name: string)
    requires q.maxPoints > 0 && |SelectedOf(rows, q, cutoff, name)| > q.maxPoints
    ensures var (a, own) := (Query(rows, q, cutoff), SelectedOf(rows, q, cutoff, name));
            && name in a.series && a.bucketMs >= 1
            && a.series[name] == Aggregates(KeyBuckets(own, a.bucketMs))
            && Counted(KeyBuckets(own, a.bucketMs)) == |own|
  {
    hide BucketMs, Where, Selected, OfKey, KeyBuckets, Counted, Aggregate;
    var filtered, own := Filtered(rows, q, cutoff), SelectedOf(rows, q, cutoff, name);
    SharedWidthIsAtLeastOwn(filtered, q.maxPoints, name);
    assert own[0] in own && own[0] in filtered && name in KeyNames(filtered);
    MeanPreserved(own, BucketMs(filtered, q.maxPoints));
  }

  /** And the width of the answer is the least that would do: it is 0 when no key has more than max_points
      selected points, and otherwise a width of at least one millisecond brings every such key down to
      max_points buckets if and only if it is no smaller. */
  lemma WidthIsLeast(rows: seq<Row>, q: Request, cutoff: int, width: int)
    requires q.maxPoints > 0 && width >= 1
    ensures var a := Query(rows, q, cutoff);
            && (!a.downsampled ==> a.bucketMs == 0)
            && (a.downsampled ==> (Covers(Filtered(rows, q, cutoff), q.maxPoints, width) <==> a.bucketMs <= width))
  {
    hide Covers, Widths, Where, OversizeKeys;
    var filtered := Filtered(rows, q, cutoff);
    if BucketMs(filtered, q.maxPoints) > 0 {
      BucketIsLeast(filtered, q.maxPoints, width);
    } else {
      DownsampledWhenOversize(filtered, q.maxPoints);
      NoOversizeNoWidth(filtered, q.maxPoints);
    }
  }

  lemma NoOversizeNoWidth(rows: seq<Row>, maxPoints: nat)
    requires maxPoints > 0 && forall name :: |OfKey(rows, name)| <= maxPoints
    ensures BucketMs(rows, maxPoints) == 0
  {
    hide OwnWidth, Widths, Where;
  }
}
