/** The load simulator: the batches it generates, the expectation it builds up while posting them, and
    its comparison with the audit query. */
module Simulator {
  import opened Domain
  import opened Order
  import opened Store
  import opened Ingest
  import Cursors

  datatype Config = Config(
    batchSize: nat, evalLoss: bool, evalEvery: nat, gpuUtil: bool, gpuMem: bool, throughput: bool,
        intervalMillis: nat) {
    predicate Valid() {
      0 < batchSize <= MAX_BATCH_SIZE && 0 < evalEvery && 0 < intervalMillis
    }
  }

  // ---------------------------------------------------------------- generation

  /** The metrics of one step; their values are random and do not matter here. */
  function KeySet(cfg: Config, step: nat): set<string>
    requires cfg.Valid()
  {
    {"loss", "lr"}
    + (if cfg.evalLoss && step % cfg.evalEvery == 0 then {"eval_loss"} else {})
    + (if cfg.gpuUtil then {"gpu_util"} else {})
    + (if cfg.gpuMem then {"gpu_mem"} else {})
    + (if cfg.throughput then {"throughput"} else {})
  }

  /** Which metrics a step has: two always, one every so many steps, and three by configuration. */
  lemma KeysAre(cfg: Config, step: nat, name: string)
    requires cfg.Valid()
    ensures name in KeySet(cfg, step) <==>
              || name == "loss" || name == "lr"
              || (name == "eval_loss" && cfg.evalLoss && step % cfg.evalEvery == 0)
              || (name == "gpu_util" && cfg.gpuUtil) || (name == "gpu_mem" && cfg.gpuMem)
              || (name == "throughput" && cfg.throughput)
  {
  }

  /** The batch of one task that starts at step `low`. */
  ghost predicate Generated(cfg: Config, task: string, start: int, low: nat, b: MetricBatch)
    requires cfg.Valid()
  {
    && b.task == task && |b.samples| == cfg.batchSize
    && forall i | 0 <= i < |b.samples| ::
         && b.samples[i].step == low + i && b.samples[i].ts == start + cfg.intervalMillis * (low + i)
         && b.samples[i].metrics.Keys == KeySet(cfg, low + i)
  }

  class Generator {
    const task: string
    const cfg: Config
    ghost const start: int
    var step: nat
    var nextTS: int

    constructor (task: string, start: int, cfg: Config)
      requires cfg.Valid()
      ensures this.task == task && this.cfg == cfg && this.start == start && Valid() && step == 0
    {
      this.task, this.cfg, this.start, step, nextTS := task, cfg, start, 0, start;
    }

    ghost predicate Valid()
      reads this
    {
      cfg.Valid() && nextTS == start + cfg.intervalMillis * step
    }

    method NextBatch() returns (b: MetricBatch)
      requires Valid()
      modifies this`step, this`nextTS
      ensures Valid() && step == old(step) + cfg.batchSize && Generated(cfg, task, start, old(step), b)
    {
      var samples: seq<Sample> := [];
      for i := 0 to cfg.batchSize
        invariant Valid() && step == old(step) + i && |samples| == i
        invariant forall j | 0 <= j < i ::
                    && samples[j].step == old(step) + j
                    && samples[j].ts == start + cfg.intervalMillis * (old(step) + j)
                    && samples[j].metrics.Keys == KeySet(cfg, old(step) + j)
      {
        var metrics := RandomMetrics(KeySet(cfg, step));
        samples := samples + [Sample(step, nextTS, metrics)];
        step := step + 1;
        nextTS := nextTS + cfg.intervalMillis;
      }
      b := MetricBatch(task, samples);
    }
  }

  method RandomMetrics(keys: set<string>) returns (metrics: map<string, Number>)
    ensures metrics.Keys == keys
  {
    metrics := map[];
    var rest := keys;
    while rest != {}
      invariant rest <= keys && metrics.Keys == keys - rest
      decreases rest
    {
      var key :| key in rest;
      var value: real := *;
      metrics := metrics[key := Finite(value)];
      rest := rest - {key};
    }
  }

  // ---------------------------------------------------------------- the points of batches

  function SampleKeys(task: string, s: Sample): set<PointKey> {
    set name | name in s.metrics :: PointKey(task, name, s.step, s.ts)
  }

  function SamplesKeys(task: string, samples: seq<Sample>): set<PointKey> {
    if samples == [] then {} else SamplesKeys(task, samples[..|samples| - 1]) + SampleKeys(task, samples[|samples| - 1])
  }

  /** Every point key of the posted batches. */
  function PostedKeys(batches: seq<MetricBatch>): set<PointKey> {
    if batches == [] then {}
    else
      var last := batches[|batches| - 1];
      PostedKeys(batches[..|batches| - 1]) + SamplesKeys(last.task, last.samples)
  }

  function StepsOf(points: set<PointKey>): set<int> {
    set p | p in points :: p.step
  }

  function NamesOf(points: set<PointKey>): set<string> {
    set p | p in points :: p.name
  }

  lemma {:induction false} SampleKeysCount(task: string, s: Sample, names: set<string>)
    requires names <= s.metrics.Keys
    ensures |set name | name in names :: PointKey(task, name, s.step, s.ts)| == |names|
    decreases |names|
  {
    var all := set name | name in names :: PointKey(task, name, s.step, s.ts);
    if names != {} {
      var name :| name in names;
      SampleKeysCount(task, s, names - {name});
      var rest := set n | n in names - {name} :: PointKey(task, n, s.step, s.ts);
      assert all == rest + {PointKey(task, name, s.step, s.ts)};
    } else {
      assert all == {};
    }
  }

  /** Where the points of consecutive samples are. */
  lemma {:induction false} KeysOfSamples(task: string, samples: seq<Sample>, k: PointKey)
    ensures k in SamplesKeys(task, samples) <==>
            k.task == task && exists i ::
                0 <= i < |samples| && k.step == samples[i].step && k.ts == samples[i].ts && k.name in samples[i].metrics
  {
    if samples != [] {
      var init := samples[..|samples| - 1];
      KeysOfSamples(task, init, k);
      if k in SamplesKeys(task, init) {
        var i :| 0 <= i < |init| && k.step == init[i].step && k.ts == init[i].ts && k.name in init[i].metrics;
        assert samples[i] == init[i];
      }
    }
  }

  // ---------------------------------------------------------------- summaries

  datatype Summary = Summary(
    pointCount: nat, distinctSteps: nat, firstStep: Option<int>, lastStep: Option<int>, keys: seq<string>,
        missingSteps: seq<int>)

  /** The steps from low up to, but not including, high that do not occur. */
  function Absent(steps: set<int>, low: int, high: int): seq<int>
    decreases high - low
  {
    if high <= low then []
    else Absent(steps, low, high - 1) + if high - 1 in steps then [] else [high - 1]
  }

  function Gaps(steps: set<int>): seq<int> {
    if steps == {} then [] else Absent(steps, Min(steps), Max(steps) + 1)
  }

  function SummaryOf(points: set<PointKey>): Summary {
    var steps := StepsOf(points);
    Summary(|points|, |steps|,
            if steps == {} then None else Some(Min(steps)),
            if steps == {} then None else Some(Max(steps)),
            SortTexts(NamesOf(points)), Gaps(steps))
  }

  // ---------------------------------------------------------------- the incremental expectation

  class ExpectedState {
    const task: string
    var batchItems: nat
    var pointCount: nat
    var distinctSteps: nat
    var firstStep: Option<int>
    var lastStep: Option<int>
    var keys: seq<string>
    var missingSteps: seq<int>
    var steps: set<int>
    var batches: set<string>

    constructor (task: string)
      ensures this.task == task && Describes({}) && batches == {} && missingSteps == []
    {
      this.task, batchItems, pointCount, distinctSteps := task, 0, 0, 0;
      firstStep, lastStep, keys, missingSteps, steps, batches := None, None, [], [], {}, {};
    }

    /** First, last and number of the recorded steps. */
    ghost predicate Spans()
      reads this`distinctSteps, this`firstStep, this`lastStep, this`steps
    {
      && distinctSteps == |steps|
      && (firstStep.Some? <==> steps != {}) && (lastStep.Some? <==> steps != {})
      && (firstStep.Some? ==> firstStep.value in steps && forall s | s in steps :: firstStep.value <= s)
      && (lastStep.Some? ==> lastStep.value in steps && forall s | s in steps :: s <= lastStep.value)
    }

    /** The counters are those of exactly these points; the keys may not be sorted yet. */
    ghost predicate Counts(points: set<PointKey>)
      reads this
    {
      && pointCount == |points| && steps == StepsOf(points) && Spans()
      && Elements(keys) == NamesOf(points)
    }

    ghost predicate Describes(points: set<PointKey>)
      reads this
    {
      Counts(points) && keys == SortTexts(NamesOf(points))
    }

    method AddStep(step: int)
      requires Spans()
      modifies this`distinctSteps, this`firstStep, this`lastStep, this`steps
      ensures Spans() && steps == old(steps) + {step}
    {
      if firstStep == None || step < firstStep.value {
        firstStep := Some(step);
      }
      steps := steps + {step};
      distinctSteps := |steps|;
      if lastStep == None || step > lastStep.value {
        lastStep := Some(step);
      }
    }

    method AddKeys(names: set<string>)
      modifies this`keys
      ensures Elements(keys) == Elements(old(keys)) + names
    {
      var rest := names;
      while rest != {}
        invariant rest <= names && Elements(keys) == Elements(old(keys)) + (names - rest)
        decreases rest
      {
        var name :| name in rest;
        ElementsGrow(keys, name);
        if name !in keys {
          keys := keys + [name];
        }
        assert names - (rest - {name}) == (names - rest) + {name};
        rest := rest - {name};
      }
    }

    method AddSample(sample: Sample)
      requires Spans()
      modifies this`batchItems, this`pointCount, this`distinctSteps, this`firstStep, this`lastStep, this`keys,
          this`steps
      ensures Spans() && steps == old(steps) + {sample.step}
      ensures batchItems == old(batchItems) + 1 && pointCount == old(pointCount) + |sample.metrics|
      ensures Elements(keys) == Elements(old(keys)) + sample.metrics.Keys
    {
      batchItems := batchItems + 1;
      pointCount := pointCount + |sample.metrics|;
      AddStep(sample.step);
      AddKeys(sample.metrics.Keys);
    }

    /** addExpected: counts every sample and pair again, whether or not its step was seen before. */
    method AddExpected(b: MetricBatch)
      requires Spans()
      modifies this`batchItems, this`pointCount, this`distinctSteps, this`firstStep, this`lastStep, this`keys,
          this`steps
      ensures Spans() && steps == old(steps) + StepSet(b.samples)
      ensures batchItems == old(batchItems) + |b.samples| && pointCount == old(pointCount) + PairCount(b.samples)
      ensures keys == SortTexts(Elements(old(keys)) + NameSet(b.samples))
    {
      hide Spans, SortTexts, StepSet, NameSet, PairCount, Elements;
      NoSamples();
      assert b.samples[..0] == [];
      for index := 0 to |b.samples|
        invariant Spans() && steps == old(steps) + StepSet(b.samples[..index])
        invariant batchItems == old(batchItems) + index && pointCount == old(pointCount) + PairCount(b.samples[..index])
        invariant Elements(keys) == Elements(old(keys)) + NameSet(b.samples[..index])
      {
        AddSample(b.samples[index]);
        OneMore(b.samples, index);
      }
      assert b.samples[..|b.samples|] == b.samples;
      keys := SortTexts(Elements(keys));
    }

    /** Note a posted batch; it is added only when its fingerprint is new. */
    method Record(b: MetricBatch, ghost cfg: Config, ghost start: int, ghost low: nat,
                  ghost posted: seq<MetricBatch>, ghost lows: seq<nat>, ghost next: nat)
      requires cfg.Valid() && AllGenerated(cfg, task, start, posted, lows) && Generated(cfg, task, start, low, b)
      requires forall i | 0 <= i < |lows| :: lows[i] + cfg.batchSize <= next
      requires low == next || b in posted
      requires Recorded(batches, posted) && Describes(PostedKeys(posted))
      modifies this
      ensures Recorded(batches, posted + [b]) && Describes(PostedKeys(posted + [b]))
      ensures missingSteps == old(missingSteps)
    {
      hide PostedKeys, SamplesKeys, StepsOf, NamesOf, KeySet, Recorded, Spans, SortTexts, StepSet, NameSet, PairCount,
           Fingerprint;
      KnownOrNew(cfg, task, start, posted, lows, batches, next, b, low);
      RecordedMore(batches, posted, b);
      var fingerprint := Fingerprint(b);
      if fingerprint in batches {
        assert batches + {fingerprint} == batches;
      } else {
        batches := batches + {fingerprint};
        MetricsOfGenerated(cfg, task, start, low, b);
        NewBatchCounts(task, PostedKeys(posted), b.samples);
        AddExpected(b);
        PostedGrows(posted, b);
      }
    }

    method Finish(ghost points: set<PointKey>) returns (e: Summary)
      requires Describes(points) && missingSteps == []
      modifies this`missingSteps
      ensures e == SummaryOf(points)
    {
      hide StepsOf, NamesOf;
      if firstStep != None {
        var step := firstStep.value;
        while step <= lastStep.value
          invariant firstStep.value <= step <= lastStep.value + 1
          invariant missingSteps == Absent(steps, firstStep.value, step)
        {
          if step !in steps {
            missingSteps := missingSteps + [step];
          }
          step := step + 1;
        }
        assert firstStep.value == Min(steps) && lastStep.value == Max(steps);
      }
      e := Summary(pointCount, distinctSteps, firstStep, lastStep, keys, missingSteps);
    }
  }

  function Elements(names: seq<string>): set<string> {
    set name | name in names
  }

  lemma ElementsGrow(names: seq<string>, name: string)
    ensures Elements(names + [name]) == Elements(names) + {name}
    ensures name in names ==> Elements(names) + {name} == Elements(names)
  {
  }

  function StepSet(samples: seq<Sample>): set<int> {
    set s | s in samples :: s.step
  }

  function NameSet(samples: seq<Sample>): set<string> {
    set s, name | s in samples && name in s.metrics :: name
  }

  function PairCount(samples: seq<Sample>): nat {
    if samples == [] then 0 else PairCount(samples[..|samples| - 1]) + |samples[|samples| - 1].metrics|
  }

  lemma NoSamples()
    ensures StepSet([]) == {} && NameSet([]) == {} && PairCount([]) == 0
  {
  }

  lemma OneMore(samples: seq<Sample>, n: nat)
    requires n < |samples|
    ensures StepSet(samples[..n + 1]) == StepSet(samples[..n]) + {samples[n].step}
    ensures NameSet(samples[..n + 1]) == NameSet(samples[..n]) + samples[n].metrics.Keys
    ensures PairCount(samples[..n + 1]) == PairCount(samples[..n]) + |samples[n].metrics|
  {
    var more, init := samples[..n + 1], samples[..n];
    assert more[..n] == init && more == init + [samples[n]];
    assert forall s | s in more :: s in init || s == samples[n];
    forall name | name in samples[n].metrics.Keys
      ensures name in NameSet(more)
    {
      assert samples[n] in more;
    }
  }

  /** A batch whose steps are new adds as many points as it has pairs. */
  lemma {:induction false} NewBatchCounts(task: string, points: set<PointKey>, samples: seq<Sample>)
    requires forall i | 0 <= i < |samples| :: samples[i].step !in StepsOf(points) && |samples[i].metrics| > 0
    requires forall i, j | 0 <= i < j < |samples| :: samples[i].step != samples[j].step
    ensures |points + SamplesKeys(task, samples)| == |points| + PairCount(samples)
    ensures StepsOf(points + SamplesKeys(task, samples)) == StepsOf(points) + StepSet(samples)
    ensures NamesOf(points + SamplesKeys(task, samples)) == NamesOf(points) + NameSet(samples)
  {
    hide StepsOf, NamesOf, SampleKeys, StepSet, NameSet;
    if samples == [] {
      NoSamples();
      assert points + {} == points;
    } else {
      var n := |samples| - 1;
      NewBatchCounts(task, points, samples[..n]);
      OneMore(samples, n);
      assert samples[..n + 1] == samples;
      var before := points + SamplesKeys(task, samples[..n]);
      assert samples[n].step !in StepSet(samples[..n]) by { StepsBefore(samples, n); }
      OneMoreSample(task, samples[n], before);
      assert points + SamplesKeys(task, samples) == before + SampleKeys(task, samples[n]);
    }
  }

  lemma StepsBefore(samples: seq<Sample>, n: nat)
    requires n < |samples| && forall i, j | 0 <= i < j < |samples| :: samples[i].step != samples[j].step
    ensures samples[n].step !in StepSet(samples[..n])
  {
  }

  lemma OneMoreSample(task: string, s: Sample, points: set<PointKey>)
    requires s.step !in StepsOf(points) && |s.metrics| > 0
    ensures |points + SampleKeys(task, s)| == |points| + |s.metrics|
    ensures StepsOf(points + SampleKeys(task, s)) == StepsOf(points) + {s.step}
    ensures NamesOf(points + SampleKeys(task, s)) == NamesOf(points) + s.metrics.Keys
  {
    var added := SampleKeys(task, s);
    SampleKeysCount(task, s, s.metrics.Keys);
    assert added == set name | name in s.metrics.Keys :: PointKey(task, name, s.step, s.ts);
    assert |s.metrics.Keys| == |s.metrics|;
    assert points !! added by { assert forall p | p in points :: p.step in StepsOf(points); }
    var name :| name in s.metrics.Keys;
    assert PointKey(task, name, s.step, s.ts) in points + added;
    forall name | name in s.metrics.Keys
      ensures name in NamesOf(points + added)
    {
      assert PointKey(task, name, s.step, s.ts) in points + added;
    }
  }

  // ---------------------------------------------------------------- fingerprints

  function Fingerprint(b: MetricBatch): string
    requires forall i | 0 <= i < |b.samples| :: b.samples[i].step >= 0
  {
    if |b.samples| == 0 then ""
    else Cursors.Itoa(b.samples[0].step) + ":" + Cursors.Itoa(b.samples[|b.samples| - 1].step)
  }

  lemma BeforeColon(s: string, x: string, t: string, y: string)
    requires ':' !in s && ':' !in t && s + ":" + x == t + ":" + y
    ensures s == t
  {
    hide Cursors.Split;
    assert s + [':'] + x == t + [':'] + y;
    Cursors.SplitAt(s, x, ':');
    Cursors.SplitAt(t, y, ':');
    assert ([s] + Cursors.Split(x, ':'))[0] == s && ([t] + Cursors.Split(y, ':'))[0] == t;
  }

  /** Different first steps give different fingerprints. */
  lemma FingerprintTellsTheStart(a: nat, b: nat, c: nat, d: nat)
    requires Cursors.Itoa(a) + ":" + Cursors.Itoa(b) == Cursors.Itoa(c) + ":" + Cursors.Itoa(d)
    ensures a == c
  {
    hide Cursors.Itoa, Cursors.DigitsValue;
    assert !Cursors.IsDigit(':');
    BeforeColon(Cursors.Itoa(a), Cursors.Itoa(b), Cursors.Itoa(c), Cursors.Itoa(d));
    Cursors.ItoaValue(a);
    Cursors.ItoaValue(c);
  }

  /** The points of the batch that starts at step `low`. */
  lemma GeneratedKeys(cfg: Config, task: string, start: int, low: nat, b: MetricBatch, k: PointKey)
    requires cfg.Valid() && Generated(cfg, task, start, low, b)
    ensures k in SamplesKeys(task, b.samples) <==>
            k.task == task && low <= k.step < low + cfg.batchSize
                && k.ts == start + cfg.intervalMillis * k.step && k.name in KeySet(cfg, k.step)
  {
    hide KeySet, SamplesKeys;
    KeysOfSamples(task, b.samples, k);
    if low <= k.step < low + cfg.batchSize {
      var i := k.step - low;
      assert b.samples[i].step == low + i && b.samples[i].metrics.Keys == KeySet(cfg, k.step);
    }
  }

  /** On generated batches the fingerprint tells different batches apart. */
  lemma FingerprintIsInjective(cfg: Config, task: string, start: int, a: MetricBatch, low: nat, b: MetricBatch,
          other: nat)
    requires cfg.Valid() && Generated(cfg, task, start, low, a) && Generated(cfg, task, start, other, b)
    requires Fingerprint(a) == Fingerprint(b)
    ensures low == other && SamplesKeys(task, a.samples) == SamplesKeys(task, b.samples)
  {
    hide KeySet, SamplesKeys, Cursors.Itoa;
    assert a.samples[0].step == low + 0 && b.samples[0].step == other + 0;
    FingerprintTellsTheStart(low, a.samples[|a.samples| - 1].step, other, b.samples[|b.samples| - 1].step);
    forall k
      ensures k in SamplesKeys(task, a.samples) <==> k in SamplesKeys(task, b.samples)
    {
      GeneratedKeys(cfg, task, start, low, a, k);
      GeneratedKeys(cfg, task, start, other, b, k);
    }
  }

  // ---------------------------------------------------------------- one task of a run

  lemma {:induction false} PostedContains(batches: seq<MetricBatch>, i: nat)
    requires i < |batches|
    ensures SamplesKeys(batches[i].task, batches[i].samples) <= PostedKeys(batches)
  {
    var last := |batches| - 1;
    if i < last { PostedContains(batches[..last], i); }
  }

  lemma PostedGrows(batches: seq<MetricBatch>, b: MetricBatch)
    ensures PostedKeys(batches + [b]) == PostedKeys(batches) + SamplesKeys(b.task, b.samples)
  {
    assert (batches + [b])[..|batches|] == batches;
  }

  /** `lows` are the first steps of the posted batches. */
  ghost predicate AllGenerated(cfg: Config, task: string, start: int, posted: seq<MetricBatch>, lows: seq<nat>)
    requires cfg.Valid()
  {
    |lows| == |posted| && forall i | 0 <= i < |posted| :: Generated(cfg, task, start, lows[i], posted[i])
  }

  /** The steps below `next` are the only ones used so far. */
  lemma {:induction false} StepsBelow(cfg: Config, task: string, start: int, posted: seq<MetricBatch>,
          lows: seq<nat>, next: nat)
    requires cfg.Valid() && AllGenerated(cfg, task, start, posted, lows)
    requires forall i | 0 <= i < |lows| :: lows[i] + cfg.batchSize <= next
    ensures forall s | s in StepsOf(PostedKeys(posted)) :: s < next
  {
    if posted != [] {
      var last := |posted| - 1;
      StepsBelow(cfg, task, start, posted[..last], lows[..last], next);
      forall k | k in SamplesKeys(posted[last].task, posted[last].samples)
        ensures k.step < next
      {
        KeysOfSamples(posted[last].task, posted[last].samples, k);
      }
      forall k | k in PostedKeys(posted[..last])
        ensures k.step < next
      {
        assert k.step in StepsOf(PostedKeys(posted[..last]));
      }
    }
  }

  /** The batches seen, by fingerprint, are the posted ones. */
  ghost predicate Recorded(batches: set<string>, posted: seq<MetricBatch>) {
    && (forall b | b in posted :: forall i | 0 <= i < |b.samples| :: b.samples[i].step >= 0)
    && (forall i | 0 <= i < |posted| :: Fingerprint(posted[i]) in batches)
    && (forall f | f in batches :: exists i :: 0 <= i < |posted| && Fingerprint(posted[i]) == f)
  }

  /** A batch whose fingerprint is known adds no point; one whose fingerprint is new has only new steps. */
  lemma KnownOrNew(cfg: Config, task: string, start: int, posted: seq<MetricBatch>, lows: seq<nat>,
          batches: set<string>,
                   next: nat, b: MetricBatch, low: nat)
    requires cfg.Valid() && AllGenerated(cfg, task, start, posted, lows) && Generated(cfg, task, start, low, b)
    requires forall i | 0 <= i < |lows| :: lows[i] + cfg.batchSize <= next
    requires Recorded(batches, posted) && (low == next || b in posted)
    ensures Fingerprint(b) in batches ==> PostedKeys(posted + [b]) == PostedKeys(posted)
    ensures Fingerprint(b) !in batches ==> low == next && forall i | 0 <= i < |b.samples| ::
        b.samples[i].step !in StepsOf(PostedKeys(posted))
  {
    hide SamplesKeys, PostedKeys, Fingerprint, StepsOf, KeySet;
    PostedGrows(posted, b);
    StepsBelow(cfg, task, start, posted, lows, next);
    if Fingerprint(b) in batches {
      var i :| 0 <= i < |posted| && Fingerprint(posted[i]) == Fingerprint(b);
      FingerprintIsInjective(cfg, task, start, posted[i], lows[i], b, low);
      PostedContains(posted, i);
    }
  }

  /** What one tick meets: whether an earlier batch is posted again instead of the new one, and which;
      whether the batch is dropped; and whether posting it succeeds. */
  datatype Tick = Tick(replay: Option<nat>, dropped: bool, delivered: bool)

  /** The first steps of the posted batches, in order, and whether a post has failed and ended the task. */
  datatype Plan = Plan(lows: seq<nat>, failed: bool)

  function LowOf(batchSize: nat, plan: Plan, index: nat, tick: Tick): nat {
    if plan.lows != [] && tick.replay.Some? then plan.lows[tick.replay.value % |plan.lows|] else index * batchSize
  }

  function PlanOf(batchSize: nat, ticks: seq<Tick>): (plan: Plan)
    ensures |plan.lows| <= |ticks|
  {
    if ticks == [] then Plan([], false)
    else
      var index := |ticks| - 1;
      var (before, tick) := (PlanOf(batchSize, ticks[..index]), ticks[index]);
      if before.failed || tick.dropped then before
      else if !tick.delivered then Plan(before.lows, true)
      else Plan(before.lows + [LowOf(batchSize, before, index, tick)], false)
  }

  /** Once a post has failed nothing more is posted. */
  lemma {:induction false} FailureEnds(batchSize: nat, ticks: seq<Tick>, n: nat)
    requires n <= |ticks| && PlanOf(batchSize, ticks[..n]).failed
    ensures PlanOf(batchSize, ticks) == PlanOf(batchSize, ticks[..n])
    decreases |ticks|
  {
    if n < |ticks| {
      assert ticks[..|ticks| - 1][..n] == ticks[..n];
      FailureEnds(batchSize, ticks[..|ticks| - 1], n);
    } else {
      assert ticks[..n] == ticks;
    }
  }

  lemma OneMoreTick(batchSize: nat, ticks: seq<Tick>, tick: Tick)
    ensures var before := PlanOf(batchSize, ticks);
            PlanOf(batchSize, ticks + [tick]) ==
              if before.failed || tick.dropped then before
              else if !tick.delivered then Plan(before.lows, true)
              else Plan(before.lows + [LowOf(batchSize, before, |ticks|, tick)], false)
  {
    var more := ticks + [tick];
    assert more[..|more| - 1] == ticks && more[|more| - 1] == tick;
    hide LowOf;
  }

  /** The batch that a tick calls for is a generated one, new or posted before. */
  lemma ChosenIsGenerated(cfg: Config, task: string, start: int, history: seq<MetricBatch>, plan: Plan, index: nat,
                          tick: Tick, next: MetricBatch, chosen: MetricBatch)
    requires cfg.Valid() && AllGenerated(cfg, task, start, history, plan.lows)
    requires Generated(cfg, task, start, index * cfg.batchSize, next)
    requires forall i | 0 <= i < |plan.lows| :: plan.lows[i] + cfg.batchSize <= index * cfg.batchSize
    requires chosen == if |history| > 0 && tick.replay.Some? then history[tick.replay.value % |history|] else next
    ensures var low := LowOf(cfg.batchSize, plan, index, tick);
            && Generated(cfg, task, start, low, chosen)
            && low <= index * cfg.batchSize && (low == index * cfg.batchSize || chosen in history)
  {
    hide Generated;
  }

  /** One task: generate a batch per tick, sometimes post an earlier one again instead, sometimes drop
      it; stop at the first post that fails. It posts exactly the batches that its ticks call for, and the
      expectation built up batch by batch is the summary of exactly the posted points. */
  method RunTask(task: string, start: int, cfg: Config, ticks: seq<Tick>)
    returns (expected: Summary, posted: seq<MetricBatch>, failed: bool)
    requires cfg.Valid()
    ensures failed == PlanOf(cfg.batchSize, ticks).failed
    ensures AllGenerated(cfg, task, start, posted, PlanOf(cfg.batchSize, ticks).lows)
    ensures expected == SummaryOf(PostedKeys(posted))
  {
    hide PostedKeys, SummaryOf, KeySet, Recorded, ExpectedState.Describes, PlanOf, LowOf, Generated;
    var gen := new Generator(task, start, cfg);
    var state := new ExpectedState(task);
    var history: seq<MetricBatch> := [];
    ghost var plan := Plan([], false);
    failed := false;
    NothingPosted();
    assert PlanOf(cfg.batchSize, ticks[..0]) == plan by { NothingPlanned(cfg.batchSize); }
    for index := 0 to |ticks|
      invariant gen.Valid() && gen.cfg == cfg && gen.task == task && gen.start == start && state.task == task
      invariant !failed && plan == PlanOf(cfg.batchSize, ticks[..index]) && !plan.failed
      invariant AllGenerated(cfg, task, start, history, plan.lows) && gen.step == index * cfg.batchSize
      invariant forall i | 0 <= i < |plan.lows| :: plan.lows[i] + cfg.batchSize <= gen.step
      invariant Recorded(state.batches, history)
      invariant state.Describes(PostedKeys(history)) && state.missingSteps == []
    {
      var tick := ticks[index];
      assert ticks[..index + 1] == ticks[..index] + [tick];
      OneMoreTick(cfg.batchSize, ticks[..index], tick);
      assert (index + 1) * cfg.batchSize == index * cfg.batchSize + cfg.batchSize;
      ghost var low, lows := LowOf(cfg.batchSize, plan, index, tick), plan.lows;
      var next := gen.NextBatch();
      var batch := next;
      if |history| > 0 && tick.replay.Some? {
        batch := history[tick.replay.value % |history|];
      }
      ChosenIsGenerated(cfg, task, start, history, plan, index, tick, next, batch);
      plan := PlanOf(cfg.batchSize, ticks[..index + 1]);
      if !tick.dropped {
        if !tick.delivered {
          failed := true;
          FailureEnds(cfg.batchSize, ticks, index + 1);
          break;
        }
        state.Record(batch, cfg, start, low, history, lows, index * cfg.batchSize);
        history := history + [batch];
      }
    }
    assert !failed ==> ticks[..|ticks|] == ticks;
    posted := history;
    expected := state.Finish(PostedKeys(history));
  }

  lemma NothingPlanned(batchSize: nat)
    ensures PlanOf(batchSize, []) == Plan([], false)
  {
  }

  lemma NothingPosted()
    ensures PostedKeys([]) == {} && Recorded({}, [])
  {
  }

  lemma MetricsOfGenerated(cfg: Config, task: string, start: int, low: nat, b: MetricBatch)
    requires cfg.Valid() && Generated(cfg, task, start, low, b)
    ensures forall i | 0 <= i < |b.samples| :: |b.samples[i].metrics| > 0
    ensures forall i, j | 0 <= i < j < |b.samples| :: b.samples[i].step != b.samples[j].step
  {
    forall i | 0 <= i < |b.samples|
      ensures |b.samples[i].metrics| > 0
    {
      assert "loss" in KeySet(cfg, low + i);
      assert "loss" in b.samples[i].metrics.Keys;
    }
  }

  lemma RecordedMore(batches: set<string>, posted: seq<MetricBatch>, b: MetricBatch)
    requires Recorded(batches, posted) && forall i | 0 <= i < |b.samples| :: b.samples[i].step >= 0
    ensures Recorded(batches + {Fingerprint(b)}, posted + [b])
  {
    hide Fingerprint;
    var more := posted + [b];
    forall f | f in batches + {Fingerprint(b)}
      ensures exists i :: 0 <= i < |more| && Fingerprint(more[i]) == f
    {
      if f == Fingerprint(b) {
        assert more[|posted|] == b;
      } else {
        var i :| 0 <= i < |posted| && Fingerprint(posted[i]) == f;
        assert more[i] == posted[i];
      }
    }
  }

  // ---------------------------------------------------------------- the audit query

  const AUDIT_SPAN := 100000

  function TaskPoints(points: map<PointKey, real>, task: string): set<PointKey> {
    set k | k in points && k.task == task
  }

  /** The steps of a set reach at most the span that the query lists gaps for. */
  predicate Narrow(points: set<PointKey>) {
    var steps := StepsOf(points);
    steps == {} || Max(steps) - Min(steps) <= AUDIT_SPAN
  }

  /** The audit query over the point table; the endpoint answers 404 when the first part is false. */
  function QueryAudit(points: map<PointKey, real>, task: string): (bool, Summary) {
    var own := TaskPoints(points, task);
    var summary := SummaryOf(own);
    (own != {}, if Narrow(own) then summary else summary.(missingSteps := []))
  }

  /** strings.Join(values, NUL) */
  function JoinNul(values: seq<string>): string {
    if values == [] then "" else if |values| == 1 then values[0] else values[0] + ['\0'] + JoinNul(values[1..])
  }

  /** compareAudit found no difference. */
  predicate Pass(expected: Summary, exists_: bool, actual: Summary) {
    && exists_
    && actual.pointCount == expected.pointCount && actual.distinctSteps == expected.distinctSteps
    && actual.firstStep == expected.firstStep && actual.lastStep == expected.lastStep
    && JoinNul(actual.keys) == JoinNul(expected.keys) && actual.missingSteps == expected.missingSteps
  }

  /** The simulator's verdict. Feed the posted batches to a first-wins store through any flushes, in
      any order, split or repeated in any way, next to any points of other tasks: the expectation
      built up while posting passes the audit if and only if something was posted and its steps either
      span at most 100000 or have no gap. */
  lemma AuditVerdict(calls: seq<FlushCall>, task: string, posted: seq<MetricBatch>)
    requires ValidRun(EMPTY, calls)
    requires forall k | k in PostedKeys(posted) :: k.task == task
    requires forall k: PointKey | k.task == task :: k in PostedKeys(posted) <==> exists r ::
        r in AllRows(calls) && r.id == k
    ensures var keys := PostedKeys(posted);
            var (found, actual) := QueryAudit(RunFlushes(EMPTY, calls).points, task);
            Pass(SummaryOf(keys), found, actual) <==> keys != {} && (Narrow(keys) || Gaps(StepsOf(keys)) == [])
  {
    hide PostedKeys, StepsOf, Gaps, JoinNul;
    var points := RunFlushes(EMPTY, calls).points;
    RunsFoldTheInput(EMPTY, calls);
    forall k: PointKey | k.task == task
      ensures k in points <==> k in PostedKeys(posted)
    {
      FirstWins(map[], AllRows(calls), k);
    }
    assert TaskPoints(points, task) == PostedKeys(posted);
  }

  /** Generated batches carry points of their own task only, and at least one each. */
  lemma {:induction false} PostedIsOwn(cfg: Config, task: string, start: int, posted: seq<MetricBatch>, lows: seq<nat>)
    requires cfg.Valid() && AllGenerated(cfg, task, start, posted, lows)
    ensures forall k | k in PostedKeys(posted) :: k.task == task
    ensures posted != [] ==> PostedKeys(posted) != {}
  {
    hide SamplesKeys, KeySet;
    if posted != [] {
      var last := |posted| - 1;
      PostedIsOwn(cfg, task, start, posted[..last], lows[..last]);
      forall k | k in SamplesKeys(task, posted[last].samples)
        ensures k.task == task
      {
        KeysOfSamples(task, posted[last].samples, k);
      }
      LossIsThere(cfg, lows[last]);
      var first := PointKey(task, "loss", lows[last], start + cfg.intervalMillis * lows[last]);
      GeneratedKeys(cfg, task, start, lows[last], posted[last], first);
      assert first in PostedKeys(posted);
    }
  }

  lemma LossIsThere(cfg: Config, step: nat)
    requires cfg.Valid()
    ensures "loss" in KeySet(cfg, step)
  {
  }

  // ---------------------------------------------------------------- where the verdict is wrong

  function LowSet(lows: seq<nat>): set<int> {
    if lows == [] then {} else LowSet(lows[..|lows| - 1]) + {lows[|lows| - 1]}
  }

  /** The steps of generated batches of one sample each. */
  lemma {:induction false} SingleSteps(cfg: Config, task: string, start: int, posted: seq<MetricBatch>, lows: seq<nat>)
    requires cfg.Valid() && cfg.batchSize == 1 && AllGenerated(cfg, task, start, posted, lows)
    ensures StepsOf(PostedKeys(posted)) == LowSet(lows)
  {
    hide KeySet, SamplesKeys;
    if posted != [] {
      var last := |posted| - 1;
      SingleSteps(cfg, task, start, posted[..last], lows[..last]);
      var own := SamplesKeys(task, posted[last].samples);
      assert lows == lows[..last] + [lows[last]];
      forall k | k in own
        ensures k.step == lows[last]
      {
        GeneratedKeys(cfg, task, start, lows[last], posted[last], k);
      }
      LossIsThere(cfg, lows[last]);
      var first := PointKey(task, "loss", lows[last], start + cfg.intervalMillis * lows[last]);
      GeneratedKeys(cfg, task, start, lows[last], posted[last], first);
      assert first in own && first.step in StepsOf(own);
      assert StepsOf(own) == {lows[last]};
      assert StepsOf(PostedKeys(posted)) == StepsOf(PostedKeys(posted[..last])) + StepsOf(own);
    }
  }

  /** Post, then so many drops, then post again. */
  function WideTicks(drops: nat): seq<Tick> {
    [Tick(None, false, true)] + seq(drops, _ => Tick(None, true, true)) + [Tick(None, false, true)]
  }

  lemma {:induction false} DropsChangeNothing(batchSize: nat, ticks: seq<Tick>, drops: seq<Tick>)
    requires forall t | t in drops :: t.dropped
    ensures PlanOf(batchSize, ticks + drops) == PlanOf(batchSize, ticks)
    decreases |drops|
  {
    if drops == [] {
      assert ticks + drops == ticks;
    } else {
      var init := drops[..|drops| - 1];
      assert (ticks + drops)[..|ticks + drops| - 1] == ticks + init;
      assert (ticks + drops)[|ticks + drops| - 1] == drops[|drops| - 1];
      DropsChangeNothing(batchSize, ticks, init);
    }
  }

  lemma WidePlan(drops: nat)
    ensures PlanOf(1, WideTicks(drops)) == Plan([0, drops + 1], false)
  {
    hide PlanOf;
    var (post, dropped) := ([Tick(None, false, true)], seq(drops, _ => Tick(None, true, true)));
    FirstPost(post);
    DropsChangeNothing(1, post, dropped);
    LastPost(post + dropped);
  }

  lemma FirstPost(post: seq<Tick>)
    requires post == [Tick(None, false, true)]
    ensures PlanOf(1, post) == Plan([0], false)
  {
    assert post[..0] == [];
    assert PlanOf(1, []) == Plan([], false);
    assert [] + [0] == [0];
  }

  lemma FreshLow(batchSize: nat, plan: Plan, index: nat, tick: Tick)
    requires tick.replay.None?
    ensures LowOf(batchSize, plan, index, tick) == index * batchSize
  {
  }

  lemma LastPost(ticks: seq<Tick>)
    requires PlanOf(1, ticks) == Plan([0], false)
    ensures PlanOf(1, ticks + [Tick(None, false, true)]) == Plan([0, |ticks|], false)
  {
    hide PlanOf, LowOf;
    OneMoreTick(1, ticks, Tick(None, false, true));
    FreshLow(1, Plan([0], false), |ticks|, Tick(None, false, true));
    assert [0] + [|ticks|] == [0, |ticks|];
  }

  /** The simulator produces the failing case, and exactly from here on: with one sample a batch, those ticks
      make RunTask post two batches. Whatever flushes carry their points, and although nothing was lost, the
      comparison reports a difference if and only if the two steps are more than 100000 apart. */
  lemma WideGapFailsTheAudit(cfg: Config, task: string, start: int, drops: nat, posted: seq<MetricBatch>,
                             calls: seq<FlushCall>)
    requires cfg.Valid() && cfg.batchSize == 1 && ValidRun(EMPTY, calls)
    requires AllGenerated(cfg, task, start, posted, PlanOf(1, WideTicks(drops)).lows)
    requires forall k: PointKey | k.task == task ::
               k in PostedKeys(posted) <==> exists r :: r in AllRows(calls) && r.id == k
    ensures var (found, actual) := QueryAudit(RunFlushes(EMPTY, calls).points, task);
            Pass(SummaryOf(PostedKeys(posted)), found, actual) <==> drops + 1 <= 100000
  {
    hide PostedKeys, KeySet, StepsOf, Generated, SummaryOf, QueryAudit, Pass, PlanOf, WideTicks, Gaps;
    WidePlan(drops);
    var lows: seq<nat> := [0, drops + 1];
    PostedIsOwn(cfg, task, start, posted, lows);
    SingleSteps(cfg, task, start, posted, lows);
    var steps := StepsOf(PostedKeys(posted));
    assert LowSet(lows) == {0, drops + 1} by {
      assert lows[..1] == [0] && lows[..1][..0] == [] && LowSet([]) == {};
      assert LowSet([0]) == {0};
    }
    TwoStepsApart(steps, drops);
    AuditVerdict(calls, task, posted);
  }

  lemma TwoStepsApart(steps: set<int>, drops: nat)
    requires steps == {0, drops + 1}
    ensures steps != {} && Max(steps) - Min(steps) == drops + 1 && (drops > 0 ==> Gaps(steps) != [])
  {
    hide Min, Max, Absent;
    assert 0 in steps && drops + 1 in steps;
    if drops > 0 {
      assert 1 !in steps;
      AbsentHas(steps, Min(steps), Max(steps) + 1, 1);
    }
  }

  lemma {:induction false} AbsentHas(steps: set<int>, low: int, high: int, n: int)
    requires low <= n < high && n !in steps
    ensures n in Absent(steps, low, high)
    decreases high - low
  {
    if n < high - 1 { AbsentHas(steps, low, high - 1, n); }
  }

  /** And so is a task of which nothing was posted: the endpoint knows no such task. */
  lemma NothingPostedFailsTheAudit(calls: seq<FlushCall>, task: string)
    requires ValidRun(EMPTY, calls) && forall r | r in AllRows(calls) :: r.id.task != task
    ensures var (found, actual) := QueryAudit(RunFlushes(EMPTY, calls).points, task);
            !Pass(SummaryOf(PostedKeys([])), found, actual)
  {
    hide SummaryOf, Pass, QueryAudit;
    AuditVerdict(calls, task, []);
  }
}
