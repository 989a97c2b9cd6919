/** What the audit notices: exactly when the comparison passes over a store that may have lost, gained or
    changed points. */
module Audits {
  import opened Domain
  import opened Ingest
  import opened Order
  import opened Simulator
  import Cursors

  // ---------------------------------------------------------------- joined key lists

  predicate Plain(text: string) {
    '\0' !in text
  }

  /** The separator of a joined list shows where the first name ends. */
  lemma SameHead(a: string, b: string, x: string, y: string)
    requires Plain(a) && Plain(b)
    ensures a + ['\0'] + x == b + ['\0'] + y ==> a == b && x == y
    ensures a + ['\0'] + x != b
  {
    hide Cursors.Split;
    Cursors.SplitAt(a, x, '\0');
    Cursors.SplitAt(b, y, '\0');
    Cursors.SplitPlain(b, '\0');
    var (left, right) := (a + ['\0'] + x, b + ['\0'] + y);
    assert ([a] + Cursors.Split(x, '\0'))[0] == a && ([b] + Cursors.Split(y, '\0'))[0] == b;
    assert x == left[|a| + 1..] && y == right[|b| + 1..];
  }

  /** Lists of names without the separator are told apart by their joined texts. */
  lemma {:induction false} JoinIsInjective(a: seq<string>, b: seq<string>)
    requires a != [] && b != [] && (forall t | t in a :: Plain(t)) && (forall t | t in b :: Plain(t))
    ensures JoinNul(a) == JoinNul(b) <==> a == b
    decreases |a|
  {
    assert a[0] in a && b[0] in b;
    if |a| > 1 && |b| > 1 {
      SameHead(a[0], b[0], JoinNul(a[1..]), JoinNul(b[1..]));
      JoinIsInjective(a[1..], b[1..]);
      assert a == [a[0]] + a[1..] && b == [b[0]] + b[1..];
    } else if |a| > 1 {
      SameHead(a[0], b[0], JoinNul(a[1..]), "");
    } else if |b| > 1 {
      SameHead(b[0], a[0], JoinNul(b[1..]), "");
    } else {
      assert a == [a[0]] && b == [b[0]];
    }
  }

  predicate PlainNames(points: set<PointKey>) {
    forall k | k in points :: Plain(k.name)
  }

  lemma SameNames(a: set<PointKey>, b: set<PointKey>)
    requires a != {} && b != {} && PlainNames(a) && PlainNames(b)
    ensures JoinNul(SortTexts(NamesOf(a))) == JoinNul(SortTexts(NamesOf(b))) <==> NamesOf(a) == NamesOf(b)
  {
    hide SortTexts, JoinNul;
    var (left, right) := (SortTexts(NamesOf(a)), SortTexts(NamesOf(b)));
    SortedTextsAre(NamesOf(a));
    SortedTextsAre(NamesOf(b));
    var k :| k in a;
    assert k.name in left;
    var l :| l in b;
    assert l.name in right;
    JoinIsInjective(left, right);
    assert left == right ==> forall t :: t in NamesOf(a) <==> t in NamesOf(b);
  }

  lemma SortedTextsAre(s: set<string>)
    ensures forall t :: t in SortTexts(s) <==> t in s
  {
  }

  // ---------------------------------------------------------------- gaps

  lemma {:induction false} AbsentAre(steps: set<int>, low: int, high: int, n: int)
    ensures n in Absent(steps, low, high) <==> low <= n < high && n !in steps
    decreases high - low
  {
    if low < high { AbsentAre(steps, low, high - 1, n); }
  }

  /** Between given ends, the gaps determine the steps. */
  lemma SameGaps(a: set<int>, b: set<int>)
    requires a != {} && b != {} && Min(a) == Min(b) && Max(a) == Max(b)
    ensures Gaps(a) == Gaps(b) <==> a == b
  {
    hide Absent, Min, Max;
    if Gaps(a) == Gaps(b) {
      forall n
        ensures n in a <==> n in b
      {
        AbsentAre(a, Min(a), Max(a) + 1, n);
        AbsentAre(b, Min(b), Max(b) + 1, n);
      }
    }
  }

  /** Steps without a gap are all that their ends and their number allow. */
  lemma FullSteps(a: set<int>, b: set<int>)
    requires a != {} && b != {} && Min(a) == Min(b) && Max(a) == Max(b) && |a| == |b| && Gaps(b) == []
    ensures a == b
  {
    hide Absent, Min, Max;
    forall n | n in a
      ensures n in b
    {
      AbsentAre(b, Min(b), Max(b) + 1, n);
    }
    SameSize(a, b);
  }

  lemma SameSize<T>(a: set<T>, b: set<T>)
    requires a <= b && |a| == |b|
    ensures a == b
  {
    assert b == a + (b - a) && |b| == |a| + |b - a|;
  }

  // ---------------------------------------------------------------- the verdict over any store

  /** The comparison can see the gaps of these points: they are listed, or there are none. */
  predicate GapsSeen(points: set<PointKey>) {
    Narrow(points) || Gaps(StepsOf(points)) == []
  }

  /** Exactly when the audit passes, for any store: it holds as many points of the task as expected, at
      exactly the expected steps and under exactly the expected names; and some point was expected, and
      the gaps between the expected steps can be seen. */
  lemma AuditIsExact(points: map<PointKey, real>, task: string, expected: set<PointKey>)
    requires PlainNames(expected) && PlainNames(TaskPoints(points, task))
    ensures var stored := TaskPoints(points, task);
            var (found, actual) := QueryAudit(points, task);
            Pass(SummaryOf(expected), found, actual) <==>
              && |stored| == |expected| && StepsOf(stored) == StepsOf(expected) && NamesOf(stored) == NamesOf(expected)
              && expected != {} && GapsSeen(expected)
  {
    hide Gaps, JoinNul, SortTexts, Min, Max;
    var stored := TaskPoints(points, task);
    var (a, b) := (StepsOf(stored), StepsOf(expected));
    SomeSteps(stored);
    SomeSteps(expected);
    if stored != {} && expected != {} {
      SameNames(stored, expected);
      if Min(a) == Min(b) && Max(a) == Max(b) {
        SameGaps(a, b);
        if |a| == |b| && Gaps(b) == [] { FullSteps(a, b); }
      }
    }
  }

  lemma SomeSteps(points: set<PointKey>)
    ensures points == {} <==> StepsOf(points) == {}
  {
    if k :| k in points { assert k.step in StepsOf(points); }
  }

  /** So no loss goes unnoticed, and nothing foreign either: when the store lacks an expected point and has
      none in its place, or has one too many, the comparison fails; and over a store that holds only
      expected points it passes if and only if it holds all of them, there are some, and the gaps between
      their steps can be seen. */
  lemma LossIsNoticed(points: map<PointKey, real>, task: string, expected: set<PointKey>)
    requires PlainNames(expected) && PlainNames(TaskPoints(points, task))
    ensures var stored := TaskPoints(points, task);
            var (found, actual) := QueryAudit(points, task);
            var pass := Pass(SummaryOf(expected), found, actual);
            && (stored < expected || expected < stored ==> !pass)
            && (stored <= expected ==> (pass <==> stored == expected && expected != {} && GapsSeen(expected)))
  {
    hide Pass, QueryAudit, SummaryOf, GapsSeen;
    var stored := TaskPoints(points, task);
    AuditIsExact(points, task, expected);
    if stored <= expected && |stored| == |expected| { SameSize(stored, expected); }
    if expected <= stored && |stored| == |expected| { SameSize(expected, stored); }
  }

  /** The names that the generator uses are without the separator. */
  lemma {:induction false} PostedArePlain(cfg: Config, task: string, start: int, posted: seq<MetricBatch>,
          lows: seq<nat>)
    requires cfg.Valid() && AllGenerated(cfg, task, start, posted, lows)
    ensures PlainNames(PostedKeys(posted))
  {
    hide SamplesKeys, KeySet;
    if posted != [] {
      var last := |posted| - 1;
      PostedArePlain(cfg, task, start, posted[..last], lows[..last]);
      PostedIsOwn(cfg, task, start, posted, lows);
      forall k | k in SamplesKeys(posted[last].task, posted[last].samples)
        ensures Plain(k.name)
      {
        KeysOfSamples(posted[last].task, posted[last].samples, k);
        var i :| 0 <= i < |posted[last].samples| && k.step == posted[last].samples[i].step
          && k.ts == posted[last].samples[i].ts && k.name in posted[last].samples[i].metrics;
        assert k.name in KeySet(cfg, lows[last] + i);
        KeySetIsPlain(cfg, lows[last] + i);
      }
    }
  }

  lemma KeySetIsPlain(cfg: Config, step: nat)
    requires cfg.Valid()
    ensures forall name | name in KeySet(cfg, step) :: Plain(name)
  {
  }
}
