/** The path of a request: HTTP validation, the message made of it, the worker's checks, and the
    expansion into metric points. A JSON body is modelled by the value it decodes to. */
module Ingest {
  import opened Domain
  import opened Order
  import opened Store
  import Cursors

  const MAX_BATCH_SIZE := 500
  const MAX_TASK_LENGTH := 64
  const MAX_KEY_LENGTH := 32
  const MAX_TIMESTAMP_MILLIS := 253402300799999
  const SCHEMA_VERSION := 1

  /** A decoded JSON sample: a missing or null member is None; no metrics member is the empty map. */
  datatype WireSample = WireSample(step: Option<int>, ts: Option<int>, metrics: map<string, Number>)

  datatype Request = Request(task: string, batch: seq<WireSample>)

  datatype Sample = Sample(step: int, ts: int, metrics: map<string, Number>)

  datatype MetricBatch = MetricBatch(task: string, samples: seq<Sample>)

  datatype Message = Message(version: int, id: string, correlation: string, task: string, batch: seq<Sample>)

  datatype WireMessage = WireMessage(
    version: Option<int>, id: string, correlation: string, task: string, batch: seq<WireSample>)

  datatype Header = IntegerHeader(value: int) | TextHeader(text: string) | OtherHeader

  /** A broker delivery; the body is None when it is not exactly one JSON object of the known shape. */
  datatype Delivery = Delivery(
    contentType: string, id: string, correlation: string, headers: map<string, Header>, body: Option<WireMessage>)

  // ---------------------------------------------------------------- the checks

  predicate Alphanumeric(c: char) {
    'A' <= c <= 'Z' || 'a' <= c <= 'z' || '0' <= c <= '9'
  }

  predicate NameChar(c: char) {
    Alphanumeric(c) || c == '.' || c == '_' || c == '-'
  }

  /** ^[A-Za-z0-9][A-Za-z0-9._-]*$, at most 64 bytes */
  predicate TaskOk(task: string) {
    0 < |task| <= MAX_TASK_LENGTH && Alphanumeric(task[0]) && forall i | 0 <= i < |task| :: NameChar(task[i])
  }

  /** ^[A-Za-z0-9._-]+$, at most 32 bytes */
  predicate KeyOk(key: string) {
    0 < |key| <= MAX_KEY_LENGTH && forall i | 0 <= i < |key| :: NameChar(key[i])
  }

  predicate StepOk(step: Option<int>) {
    step.Some? && 0 <= step.value <= MAX_INT32
  }

  predicate TsOk(ts: Option<int>) {
    ts.Some? && 0 < ts.value <= MAX_TIMESTAMP_MILLIS
  }

  predicate SampleOk(s: WireSample) {
    StepOk(s.step) && TsOk(s.ts) && |s.metrics| > 0 && forall key | key in s.metrics ::
        KeyOk(key) && s.metrics[key].Finite?
  }

  const CAPITALS := "ABCDEFGHIJKLMNOPQRSTUVWXYZ"
  const SMALL_LETTERS := "abcdefghijklmnopqrstuvwxyz"
  const DIGITS := "0123456789"
  const LETTERS_AND_DIGITS := CAPITALS + SMALL_LETTERS + DIGITS
  const NAME_CHARACTERS := LETTERS_AND_DIGITS + "._-"

  lemma AlphabetOf(letters: string, first: char, c: char)
    requires letters != [] && first as int + |letters| < 0x80
    requires forall i | 0 <= i < |letters| :: letters[i] as int == first as int + i
    ensures c in letters <==> first as int <= c as int < first as int + |letters|
  {
    if first as int <= c as int < first as int + |letters| { assert letters[c as int - first as int] == c; }
  }

  lemma NameAlphabet(c: char)
    ensures Alphanumeric(c) <==> c in LETTERS_AND_DIGITS
    ensures NameChar(c) <==> c in NAME_CHARACTERS
  {
    AlphabetOf(CAPITALS, 'A', c);
    AlphabetOf(SMALL_LETTERS, 'a', c);
    AlphabetOf(DIGITS, '0', c);
    assert c in "._-" <==> c == '.' || c == '_' || c == '-';
  }

  /** A task name is a letter or digit followed by at most 63 of the name characters. */
  lemma TaskNames(task: string)
    ensures TaskOk(task) <==>
              && task != [] && task[0] in LETTERS_AND_DIGITS && |task[1..]| <= 63
              && forall c | c in task[1..] :: c in NAME_CHARACTERS
  {
    forall c ensures Alphanumeric(c) <==> c in LETTERS_AND_DIGITS ensures NameChar(c) <==> c in NAME_CHARACTERS {
      NameAlphabet(c);
    }
    if task != [] { assert forall i | 0 < i < |task| :: task[i] == task[1..][i - 1]; }
  }

  /** A metric key is one to 32 of the name characters. */
  lemma MetricKeys(key: string)
    ensures KeyOk(key) <==> 1 <= |key| <= 32 && forall c | c in key :: c in NAME_CHARACTERS
  {
    forall c ensures NameChar(c) <==> c in NAME_CHARACTERS { NameAlphabet(c); }
  }

  /** What the HTTP endpoint accepts. */
  predicate Acceptable(r: Request) {
    TaskOk(r.task) && 0 < |r.batch| <= MAX_BATCH_SIZE && forall i | 0 <= i < |r.batch| :: SampleOk(r.batch[i])
  }

  method ValidateSample(s: WireSample) returns (ok: bool)
    ensures ok <==> SampleOk(s)
  {
    if s.step == None || s.step.value < 0 || s.step.value > MAX_INT32 {
      return false;
    }
    if s.ts == None || s.ts.value <= 0 || s.ts.value > MAX_TIMESTAMP_MILLIS {
      return false;
    }
    if |s.metrics| == 0 {
      return false;
    }
    var keys := s.metrics.Keys;
    while keys != {}
      invariant keys <= s.metrics.Keys
      invariant forall key | key in s.metrics && key !in keys :: KeyOk(key) && s.metrics[key].Finite?
      decreases keys
    {
      var key :| key in keys;
      if !KeyOk(key) || s.metrics[key].NotANumber? || s.metrics[key].Infinite? {
        return false;
      }
      keys := keys - {key};
    }
    ok := true;
  }

  method Validate(r: Request) returns (ok: bool)
    ensures ok <==> Acceptable(r)
  {
    hide SampleOk;
    if !TaskOk(r.task) || |r.batch| == 0 || |r.batch| > MAX_BATCH_SIZE {
      return false;
    }
    for index := 0 to |r.batch|
      invariant forall i | 0 <= i < index :: SampleOk(r.batch[i])
    {
      var sampleOk := ValidateSample(r.batch[index]);
      if !sampleOk {
        return false;
      }
    }
    ok := true;
  }

  // ---------------------------------------------------------------- from request to message

  function Wire(s: Sample): WireSample {
    WireSample(Some(s.step), Some(s.ts), s.metrics)
  }

  function WireBatch(samples: seq<Sample>): (r: seq<WireSample>)
    ensures |r| == |samples| && forall i | 0 <= i < |r| :: r[i] == Wire(samples[i])
  {
    seq(|samples|, i requires 0 <= i < |samples| => Wire(samples[i]))
  }

  method CopyMetrics(metrics: map<string, Number>) returns (copy: map<string, Number>)
    ensures copy == metrics
  {
    copy := map[];
    var keys := metrics.Keys;
    while keys != {}
      invariant keys <= metrics.Keys && copy == metrics - keys
      decreases keys
    {
      var key :| key in keys;
      copy := copy[key := metrics[key]];
      keys := keys - {key};
    }
  }

  method ToMetricBatch(r: Request) returns (batch: MetricBatch)
    requires Acceptable(r)
    ensures batch.task == r.task && WireBatch(batch.samples) == r.batch
  {
    hide KeyOk, TaskOk;
    var samples := [];
    for index := 0 to |r.batch|
      invariant |samples| == index && forall i | 0 <= i < index :: Wire(samples[i]) == r.batch[i]
    {
      assert SampleOk(r.batch[index]);
      var metrics := CopyMetrics(r.batch[index].metrics);
      samples := samples + [Sample(r.batch[index].step.value, r.batch[index].ts.value, metrics)];
    }
    batch := MetricBatch(r.task, samples);
  }

  function MessageOf(batch: MetricBatch, id: string): Message {
    Message(SCHEMA_VERSION, id, id, batch.task, batch.samples)
  }

  method NewIngestMessage(batch: MetricBatch, generated: Option<string>) returns (message: Option<Message>)
    ensures message.Some? <==> generated.Some?
    ensures message.Some? ==> message.value == MessageOf(batch, generated.value)
  {
    if generated == None {
      return None;
    }
    var samples := [];
    for index := 0 to |batch.samples|
      invariant samples == batch.samples[..index]
    {
      var metrics := CopyMetrics(batch.samples[index].metrics);
      samples := samples + [Sample(batch.samples[index].step, batch.samples[index].ts, metrics)];
      assert batch.samples[..index + 1] == batch.samples[..index] + [batch.samples[index]];
    }
    assert batch.samples[..|batch.samples|] == batch.samples;
    message := Some(Message(SCHEMA_VERSION, generated.value, generated.value, batch.task, samples));
  }

  /** The publishing for a message, as the worker receives it (its JSON body round-trips). */
  function Published(m: Message): Delivery {
    Delivery("application/json", m.id, m.correlation,
             map["schema_version" := IntegerHeader(m.version), "message_id" := TextHeader(m.id),
                 "correlation_id" := TextHeader(m.correlation)],
             Some(WireMessage(Some(m.version), m.id, m.correlation, m.task, WireBatch(m.batch))))
  }

  // ---------------------------------------------------------------- the worker's checks

  /** What the worker requires of a decoded body. */
  predicate BodyOk(w: WireMessage) {
    && w.version == Some(SCHEMA_VERSION) && w.id != "" && w.correlation != ""
    && Acceptable(Request(w.task, w.batch))
  }

  method DecodeIngestMessage(body: Option<WireMessage>) returns (message: Option<Message>)
    ensures message.Some? <==> body.Some? && BodyOk(body.value)
    ensures message.Some? ==>
              var (m, w) := (message.value, body.value);
              m.version == SCHEMA_VERSION && m.id == w.id && m.correlation == w.correlation && m.task == w.task
                  && WireBatch(m.batch) == w.batch
  {
    hide TaskOk, SampleOk;
    if body == None {
      return None;
    }
    var wire := body.value;
    if wire.version == None || wire.version.value != SCHEMA_VERSION || wire.id == "" || wire.correlation == "" {
      return None;
    }
    if !TaskOk(wire.task) || |wire.batch| == 0 || |wire.batch| > MAX_BATCH_SIZE {
      return None;
    }
    var samples := [];
    for index := 0 to |wire.batch|
      invariant |samples| == index
      invariant forall i | 0 <= i < index :: SampleOk(wire.batch[i]) && Wire(samples[i]) == wire.batch[i]
    {
      var decoded := DecodeSample(wire.batch[index]);
      if decoded == None {
        assert !SampleOk(wire.batch[index]);
        return None;
      }
      samples := samples + [decoded.value];
    }
    message := Some(Message(wire.version.value, wire.id, wire.correlation, wire.task, samples));
  }

  method DecodeSample(s: WireSample) returns (decoded: Option<Sample>)
    ensures decoded.Some? <==> SampleOk(s)
    ensures decoded.Some? ==> Wire(decoded.value) == s
  {
    if s.step == None || s.step.value < 0 || s.step.value > MAX_INT32
       || s.ts == None || s.ts.value <= 0 || s.ts.value > MAX_TIMESTAMP_MILLIS || |s.metrics| == 0 {
      return None;
    }
    var metrics, keys := map[], s.metrics.Keys;
    while keys != {}
      invariant keys <= s.metrics.Keys && metrics == s.metrics - keys
      invariant forall key | key in metrics :: KeyOk(key) && metrics[key].Finite?
      decreases keys
    {
      var key :| key in keys;
      if !KeyOk(key) || s.metrics[key].NotANumber? || s.metrics[key].Infinite? {
        return None;
      }
      metrics := metrics[key := s.metrics[key]];
      keys := keys - {key};
    }
    assert metrics == s.metrics;
    decoded := Some(Sample(s.step.value, s.ts.value, metrics));
  }

  /** strings.EqualFold for a pattern of lower-case ASCII letters and '/': besides the ASCII letters,
      Unicode folds U+017F to 's'. */
  function Fold(c: char): char {
    if 'A' <= c <= 'Z' then (c as int + 32) as char else if c == '\U{17F}' then 's' else c
  }

  predicate IsJson(contentType: string) {
    |contentType| == |"application/json"| && forall i | 0 <= i < |contentType| ::
        Fold(contentType[i]) == "application/json"[i]
  }

  /** The letters that each letter of the type may be written with. */
  const JSON_TYPE: seq<string> :=
    ["aA", "pP", "pP", "lL", "iI", "cC", "aA", "tT", "iI", "oO", "nN", "/", "jJ", "sS\U{17F}", "oO", "nN"]

  lemma JsonTypes(contentType: string)
    ensures IsJson(contentType) <==>
              |contentType| == |JSON_TYPE| && forall i | 0 <= i < |contentType| :: contentType[i] in JSON_TYPE[i]
  {
    if |contentType| == |JSON_TYPE| {
      forall i | 0 <= i < |JSON_TYPE|
        ensures Fold(contentType[i]) == "application/json"[i] <==> contentType[i] in JSON_TYPE[i]
      {
        FoldsTo(contentType[i], i);
      }
    }
  }

  lemma FoldsTo(c: char, i: nat)
    requires i < |JSON_TYPE|
    ensures Fold(c) == "application/json"[i] <==> c in JSON_TYPE[i]
  {
    assert c in "aA" <==> c == 'a' || c == 'A';
    assert c in "pP" <==> c == 'p' || c == 'P';
    assert c in "lL" <==> c == 'l' || c == 'L';
    assert c in "iI" <==> c == 'i' || c == 'I';
    assert c in "cC" <==> c == 'c' || c == 'C';
    assert c in "tT" <==> c == 't' || c == 'T';
    assert c in "oO" <==> c == 'o' || c == 'O';
    assert c in "nN" <==> c == 'n' || c == 'N';
    assert c in "/" <==> c == '/';
    assert c in "jJ" <==> c == 'j' || c == 'J';
    assert c in "sS\U{17F}" <==> c == 's' || c == 'S' || c == '\U{17F}';
  }

  predicate HeadersOk(d: Delivery, w: WireMessage) {
    && d.id != "" && d.id == w.id && d.correlation != "" && d.correlation == w.correlation
    && "schema_version" in d.headers && d.headers["schema_version"] == IntegerHeader(SCHEMA_VERSION)
    && "message_id" in d.headers && d.headers["message_id"] == TextHeader(w.id)
    && "correlation_id" in d.headers && d.headers["correlation_id"] == TextHeader(w.correlation)
  }

  predicate Accepted(d: Delivery) {
    IsJson(d.contentType) && d.body.Some? && BodyOk(d.body.value) && HeadersOk(d, d.body.value)
  }

  method ValidateDelivery(d: Delivery) returns (message: Option<Message>)
    ensures message.Some? <==> Accepted(d)
    ensures message.Some? ==>
              var (m, w) := (message.value, d.body.value);
              m.version == SCHEMA_VERSION && m.id == w.id && m.correlation == w.correlation && m.task == w.task
                  && WireBatch(m.batch) == w.batch
  {
    hide BodyOk;
    if !IsJson(d.contentType) {
      return None;
    }
    message := DecodeIngestMessage(d.body);
    if message == None {
      return;
    }
    var m := message.value;
    if d.id == "" || d.id != m.id || d.correlation == "" || d.correlation != m.correlation {
      return None;
    }
    if "schema_version" !in d.headers || d.headers["schema_version"] != IntegerHeader(SCHEMA_VERSION) {
      return None;
    }
    if "message_id" !in d.headers || d.headers["message_id"] != TextHeader(m.id) {
      return None;
    }
    if "correlation_id" !in d.headers || d.headers["correlation_id"] != TextHeader(m.correlation) {
      return None;
    }
  }

  /** The two layers of validation agree: a batch published under a non-empty generated id passes all
      checks of the worker if and only if it would pass HTTP validation. So no accepted request is
      dead-lettered, and the worker lets nothing through that the endpoint would have refused. */
  lemma ValidationsAgree(batch: MetricBatch, id: string)
    requires id != ""
    ensures Accepted(Published(MessageOf(batch, id))) <==> Acceptable(Request(batch.task, WireBatch(batch.samples)))
  {
    hide Acceptable;
    var d := Published(MessageOf(batch, id));
    assert d.headers["schema_version"] == IntegerHeader(SCHEMA_VERSION);
    assert d.headers["message_id"] == TextHeader(id) && d.headers["correlation_id"] == TextHeader(id);
    assert forall c: char | c in "application/json" :: Fold(c) == c;
    assert IsJson(d.contentType);
  }

  // ---------------------------------------------------------------- expansion

  function PointOf(task: string, s: Sample, key: string): MetricPoint
    requires key in s.metrics
  {
    MetricPoint(PointKey(task, key, s.step, s.ts), s.metrics[key])
  }

  function ExpandSample(task: string, s: Sample): (r: seq<MetricPoint>)
    ensures |r| == |s.metrics|
  {
    var keys := SortTexts(s.metrics.Keys);
    assert |s.metrics.Keys| == |s.metrics|;
    seq(|keys|, i requires 0 <= i < |keys| => assert keys[i] in s.metrics.Keys; PointOf(task, s, keys[i]))
  }

  function Expand(task: string, batch: seq<Sample>): seq<MetricPoint> {
    if batch == [] then [] else Expand(task, batch[..|batch| - 1]) + ExpandSample(task, batch[|batch| - 1])
  }

  /** The inner loop: the points of one sample, by sorted key. */
  method AppendSample(task: string, sample: Sample, points: seq<MetricPoint>) returns (more: seq<MetricPoint>)
    ensures more == points + ExpandSample(task, sample)
  {
    hide SortTexts;
    var keys := SortTexts(sample.metrics.Keys);
    ghost var added := ExpandSample(task, sample);
    more := points;
    for k := 0 to |keys|
      invariant |keys| == |added| && more == points + added[..k]
    {
      assert keys[k] in sample.metrics.Keys;
      assert added[..k + 1] == added[..k] + [added[k]];
      more := more + [MetricPoint(PointKey(task, keys[k], sample.step, sample.ts), sample.metrics[keys[k]])];
    }
    assert added[..|keys|] == added;
  }

  method ExpandMetricPoints(m: Message) returns (points: seq<MetricPoint>)
    ensures points == Expand(m.task, m.batch)
  {
    hide Expand;
    points := [];
    ExpandStep(m.task, m.batch, 0);
    for index := 0 to |m.batch|
      invariant points == Expand(m.task, m.batch[..index])
    {
      points := AppendSample(m.task, m.batch[index], points);
      ExpandStep(m.task, m.batch, index);
    }
    assert m.batch[..|m.batch|] == m.batch;
  }

  lemma ExpandStep(task: string, batch: seq<Sample>, index: nat)
    requires index <= |batch|
    ensures Expand(task, []) == []
    ensures index < |batch| ==>
              Expand(task, batch[..index + 1]) == Expand(task, batch[..index]) + ExpandSample(task, batch[index])
  {
    if index < |batch| { assert batch[..index + 1][..index] == batch[..index]; }
  }

  /** Where a point of the expansion comes from: the sample's position and the metric's key. */
  datatype Source = Source(sample: nat, key: string)

  predicate Before(a: Source, b: Source) {
    a.sample < b.sample || (a.sample == b.sample && a.key != b.key && TextLe(a.key, b.key))
  }

  ghost predicate Ascending(sources: seq<Source>) {
    forall i, j | 0 <= i < j < |sources| :: Before(sources[i], sources[j])
  }

  /** `sources` are the key-value pairs of the batch. */
  ghost predicate Lists(batch: seq<Sample>, sources: seq<Source>) {
    forall s: Source :: s in sources <==> s.sample < |batch| && s.key in batch[s.sample].metrics
  }

  ghost predicate Expanded(task: string, batch: seq<Sample>, sources: seq<Source>, points: seq<MetricPoint>) {
    |sources| == |points| && forall i | 0 <= i < |sources| ::
      var s := sources[i];
      s.sample < |batch| && s.key in batch[s.sample].metrics && points[i] == PointOf(task, batch[s.sample], s.key)
  }

  /** The expansion is exactly the key-value pairs, each once, in sample-then-key order. */
  lemma {:induction false} ExpansionIsOrdered(task: string, batch: seq<Sample>) returns (sources: seq<Source>)
    ensures Ascending(sources) && Lists(batch, sources) && Expanded(task, batch, sources, Expand(task, batch))
  {
    hide Before, Ascending, Lists, Expanded;
    if batch == [] {
      sources := [];
      NoSources(task);
    } else {
      var last := |batch| - 1;
      assert batch[..last] + [batch[last]] == batch;
      var init := ExpansionIsOrdered(task, batch[..last]);
      var more := SampleSources(task, batch, last);
      sources := init + more;
      ListsAppend(batch, init, more);
      AscendingAppend(batch[..last], init, more, last);
      ExpandedAppend(task, batch, init, more, Expand(task, batch[..last]), ExpandSample(task, batch[last]));
    }
  }

  lemma NoSources(task: string)
    ensures Ascending([]) && Lists([], []) && Expanded(task, [], [], [])
  {
  }

  lemma SampleSources(task: string, batch: seq<Sample>, n: nat) returns (r: seq<Source>)
    requires n < |batch|
    ensures Ascending(r) && Expanded(task, batch, r, ExpandSample(task, batch[n]))
    ensures forall s: Source :: s in r <==> s.sample == n && s.key in batch[n].metrics
  {
    hide TextLe, SortTexts;
    var keys := SortTexts(batch[n].metrics.Keys);
    r := seq(|keys|, i requires 0 <= i < |keys| => Source(n, keys[i]));
    forall s: Source
      ensures s in r <==> s.sample == n && s.key in batch[n].metrics
    {
      if s in r { var i :| 0 <= i < |r| && r[i] == s; assert keys[i] in keys; }
      if s.sample == n && s.key in batch[n].metrics {
        assert s.key in keys;
        var i :| 0 <= i < |keys| && keys[i] == s.key;
        assert r[i] == s;
      }
    }
    assert forall i | 0 <= i < |keys| :: keys[i] in keys;
  }

  lemma ListsAppend(batch: seq<Sample>, init: seq<Source>, more: seq<Source>)
    requires batch != [] && Lists(batch[..|batch| - 1], init)
    requires forall s: Source :: s in more <==> s.sample == |batch| - 1 && s.key in batch[|batch| - 1].metrics
    ensures Lists(batch, init + more)
  {
  }

  lemma AscendingAppend(before: seq<Sample>, init: seq<Source>, more: seq<Source>, last: nat)
    requires Ascending(init) && Ascending(more) && Lists(before, init) && last == |before|
    requires forall s: Source | s in more :: s.sample == last
    ensures Ascending(init + more)
  {
    hide TextLe;
    assert forall i | 0 <= i < |init| :: init[i] in init && init[i].sample < last;
    assert forall i | 0 <= i < |more| :: more[i] in more && more[i].sample == last;
  }

  lemma ExpandedAppend(task: string, batch: seq<Sample>, init: seq<Source>, more: seq<Source>,
          points: seq<MetricPoint>, added: seq<MetricPoint>)
    requires batch != [] && Expanded(task, batch[..|batch| - 1], init, points) && Expanded(task, batch, more, added)
    ensures Expanded(task, batch, init + more, points + added)
  {
  }

  /** Such a listing is unique, so the order of the expansion is fixed by the message alone. */
  lemma {:induction false} OrderIsUnique(a: seq<Source>, b: seq<Source>)
    requires Ascending(a) && Ascending(b)
    requires forall s: Source :: s in a <==> s in b
    ensures a == b
  {
    if b != [] { MemberOfBoth(b, a); }
    if a != [] {
      assert a[0] in b && b != [] && b[0] in a;
      FirstIsLeast(a, b[0]);
      FirstIsLeast(b, a[0]);
      TextLeAntisymmetricIf(a[0].key, b[0].key);
      assert a[0] == b[0];
      forall s: Source
        ensures s in a[1..] <==> s in b[1..]
      {
        assert s in a <==> s == a[0] || s in a[1..];
        assert s in b <==> s == b[0] || s in b[1..];
      }
      OrderIsUnique(a[1..], b[1..]);
      assert a == [a[0]] + a[1..] && b == [b[0]] + b[1..];
    }
  }

  lemma FirstIsLeast(a: seq<Source>, s: Source)
    requires s in a && Ascending(a)
    ensures s == a[0] || Before(a[0], s)
  {
  }

  lemma TextLeAntisymmetricIf(x: string, y: string)
    ensures TextLe(x, y) && TextLe(y, x) ==> x == y
  {
    if TextLe(x, y) && TextLe(y, x) { TextLeAntisymmetric(x, y); }
  }

  /** An accepted message expands to at least one row, so no delivery waits for zero rows; and every row is
      within what the encoding and the column types take. (Whether a partition exists for its timestamp is
      another matter: see Retention.FlushFindsPartition.) */
  lemma AcceptedIsStorable(d: Delivery, m: Message)
    requires Accepted(d) && m.task == d.body.value.task && WireBatch(m.batch) == d.body.value.batch
    ensures Expand(m.task, m.batch) != [] && AllStorable(Expand(m.task, m.batch))
    ensures TaskOk(m.task) && ':' !in m.task
  {
    hide Expand, KeyOk, Ascending;
    var points := Expand(m.task, m.batch);
    var sources := ExpansionIsOrdered(m.task, m.batch);
    assert forall i | 0 <= i < |m.batch| :: SampleOk(Wire(m.batch[i])) by {
      assert forall i | 0 <= i < |m.batch| :: SampleOk(WireBatch(m.batch)[i]);
    }
    forall i | 0 <= i < |points|
      ensures Storable(points[i])
    {
      assert sources[i] in sources;
      assert SampleOk(Wire(m.batch[sources[i].sample]));
    }
    assert m.batch[0].metrics != map[];
    var key :| key in m.batch[0].metrics;
    assert Source(0, key) in sources;
  }

  /** The task name of an accepted message makes unambiguous SSE ids: sent back as Last-Event-ID, the
      id of its event n resumes after n, and is refused on the stream of any other accepted task. */
  lemma AcceptedTaskMakesCursors(task: string, other: string, number: nat)
    requires TaskOk(task) && TaskOk(other) && number <= MAX_INT64
    ensures Cursors.ParseLastEventID(Cursors.EventID(task, number), task) == Cursors.At(number)
    ensures other != task ==> Cursors.ParseLastEventID(Cursors.EventID(task, number), other) == Cursors.Invalid
  {
    Cursors.CursorRoundTrip(task, other, number);
  }
}
