/** The Last-Event-ID cursor: its text form, and when the stream accepts it. */
module Cursors {
  import opened Domain
  import opened Order
  import opened Store

  // ---------------------------------------------------------------- text

  predicate IsDigit(c: char) { '0' <= c <= '9' }

  predicate AllDigits(s: string) { forall i | 0 <= i < |s| :: IsDigit(s[i]) }

  function DigitsValue(s: string): nat
    requires AllDigits(s)
  {
    if s == [] then 0 else DigitsValue(s[..|s| - 1]) * 10 + (s[|s| - 1] - '0') as nat
  }

  /** fmt's %d for a non-negative number. */
  function Itoa(n: nat): (s: string)
    ensures s != [] && AllDigits(s)
  {
    if n < 10 then [n as char + '0'] else Itoa(n / 10) + [(n % 10) as char + '0']
  }

  lemma {:induction false} ItoaValue(n: nat)
    ensures DigitsValue(Itoa(n)) == n
  {
    if n >= 10 {
      ItoaValue(n / 10);
      var s := Itoa(n);
      assert s[..|s| - 1] == Itoa(n / 10);
    } else {
      assert Itoa(n)[..0] == [];
    }
  }

  /** strconv.ParseInt(s, 10, 64): an optional sign, then at least one digit, within int64. */
  function ParseInt64(s: string): Option<int> {
    var negative := s != [] && s[0] == '-';
    var digits := if s != [] && (s[0] == '-' || s[0] == '+') then s[1..] else s;
    if digits == [] || !AllDigits(digits) then None
    else
      var magnitude: int := DigitsValue(digits);
      if negative then (if magnitude <= MAX_INT64 + 1 then Some(-magnitude) else None)
      else if magnitude <= MAX_INT64 then Some(magnitude)
      else None
  }

  /** What is accepted as an int64: an optional sign, then decimal digits, leading zeros allowed, with a value
      between int64's least and greatest. */
  lemma ParsedExactly(s: string, n: int)
    ensures ParseInt64(s) == Some(n) <==>
              exists digits: string :: digits != [] && AllDigits(digits) && Reads(s, digits, n)
  {
    if ParseInt64(s) == Some(n) {
      var digits := if s[0] == '-' || s[0] == '+' then s[1..] else s;
      assert s == digits || s == ['-'] + digits || s == ['+'] + digits;
      assert Reads(s, digits, n);
    }
    if digits: string :| digits != [] && AllDigits(digits) && Reads(s, digits, n) {
      assert IsDigit(digits[0]);
      assert s[0] == '-' || s[0] == '+' ==> s[1..] == digits;
    }
  }

  /** The text is the digits with or without a sign, and `n` is their value with that sign. */
  ghost predicate Reads(s: string, digits: string, n: int)
    requires AllDigits(digits)
  {
    || ((s == digits || s == ['+'] + digits) && n == DigitsValue(digits) && n <= MAX_INT64)
    || (s == ['-'] + digits && -n == DigitsValue(digits) && n >= -MAX_INT64 - 1)
  }

  /** strings.Split with a one-character separator. */
  function Split(s: string, sep: char): (parts: seq<string>)
    ensures |parts| >= 1
  {
    if s == [] then [[]]
    else if s[0] == sep then [[]] + Split(s[1..], sep)
    else
      var rest := Split(s[1..], sep);
      [[s[0]] + rest[0]] + rest[1..]
  }

  lemma {:induction false} SplitPlain(s: string, sep: char)
    requires sep !in s
    ensures Split(s, sep) == [s]
  {
    if s != [] {
      SplitPlain(s[1..], sep);
      assert s == [s[0]] + s[1..];
    }
  }

  lemma {:induction false} SplitAt(left: string, right: string, sep: char)
    requires sep !in left
    ensures Split(left + [sep] + right, sep) == [left] + Split(right, sep)
  {
    var s := left + [sep] + right;
    if left == [] {
      assert s[1..] == right;
    } else {
      assert s[1..] == left[1..] + [sep] + right;
      SplitAt(left[1..], right, sep);
      assert left == [left[0]] + left[1..];
    }
  }

  /** Splitting into two parts means there is exactly one separator, between them. */
  lemma {:induction false} SplitInTwo(s: string, sep: char)
    requires |Split(s, sep)| <= 2
    ensures |Split(s, sep)| == 1 ==> Split(s, sep)[0] == s && sep !in s
    ensures |Split(s, sep)| == 2 ==>
              s == Split(s, sep)[0] + [sep] + Split(s, sep)[1] && sep !in Split(s, sep)[0] && sep !in Split(s, sep)[1]
  {
    if s != [] {
      SplitInTwo(s[1..], sep);
      assert s == [s[0]] + s[1..];
    }
  }

  datatype Cursor = NoCursor | At(number: nat) | Invalid

  function ParseLastEventID(value: string, task: string): Cursor {
    if value == "" then NoCursor
    else
      var parts := Split(value, ':');
      if |parts| != 2 || parts[0] != task then Invalid
      else
        var number := ParseInt64(parts[1]);
        if number == None || number.value < 0 then Invalid else At(number.value)
  }

  /** The id field of a metrics event. */
  function EventID(task: string, number: nat): string {
    task + ":" + Itoa(number)
  }

  lemma DigitsHaveNoColon(text: string)
    requires ParseInt64(text).Some?
    ensures ':' !in text
  {
    assert text == [text[0]] + text[1..];
    assert !IsDigit(':');
  }

  /** The header is accepted if and only if it is the task, one colon, and a decimal number from 0
      to int64's largest (possibly with a plus sign or leading zeros). Task names have no colon. */
  lemma AcceptedHeaders(value: string, task: string, number: nat)
    requires ':' !in task
    ensures ParseLastEventID(value, task) == At(number)
            <==> exists text :: value == task + ":" + text && ParseInt64(text) == Some(number)
    ensures ParseLastEventID(value, task) == NoCursor <==> value == ""
  {
    if ParseLastEventID(value, task) == At(number) {
      SplitInTwo(value, ':');
      assert value == task + ":" + Split(value, ':')[1];
    }
    if text :| value == task + ":" + text && ParseInt64(text) == Some(number) {
      DigitsHaveNoColon(text);
      assert value == task + [':'] + text;
      SplitAt(task, text, ':');
      SplitPlain(text, ':');
    }
  }

  lemma ItoaParses(number: nat)
    requires number <= MAX_INT64
    ensures ParseInt64(Itoa(number)) == Some(number)
  {
    assert IsDigit(Itoa(number)[0]);
    ItoaValue(number);
  }

  /** A client that sends back the id it received resumes exactly there, and the id of one task is
      no cursor for another. */
  lemma CursorRoundTrip(task: string, other: string, number: nat)
    requires ':' !in task && ':' !in other && number <= MAX_INT64
    ensures ParseLastEventID(EventID(task, number), task) == At(number)
    ensures other != task ==> ParseLastEventID(EventID(task, number), other) == Invalid
  {
    var text := Itoa(number);
    ItoaParses(number);
    DigitsHaveNoColon(text);
    assert EventID(task, number) == task + [':'] + text;
    SplitAt(task, text, ':');
    SplitPlain(text, ':');
    AcceptedHeaders(EventID(task, number), task, number);
  }

  // ---------------------------------------------------------------- the retained events

  /** 168 hours, in milliseconds. */
  const RETENTION_WINDOW: int := 168 * 60 * 60 * 1000

  /** Numbers of the task's events that are inside the window at time `now`. */
  function Retained(db: Tables, task: string, now: int): (numbers: set<int>)
    ensures forall n :: n in numbers <==>
              var e := EventId(task, n); e in db.events && db.events[e].createdAt >= now - RETENTION_WINDOW
  {
    set e | e in db.events && e.task == task && db.events[e].createdAt >= now - RETENTION_WINDOW :: e.number
  }

  /** The bounds query: the oldest retained event, and the newest number ever issued. */
  function Bounds(db: Tables, task: string, now: int): (int, int) {
    var numbers := Retained(db, task, now);
    if numbers == {} then (0, LastNumber(db, task))
    else (Min(numbers), if Max(numbers) > LastNumber(db, task) then Max(numbers) else LastNumber(db, task))
  }

  /** For any tables: the least retained number, or 0 for none, and the greatest number retained or issued. */
  lemma BoundsAre(db: Tables, task: string, now: int)
    ensures var (oldest, latest) := Bounds(db, task, now);
            var numbers := Retained(db, task, now);
            && (if numbers == {} then oldest == 0 else oldest in numbers && forall n | n in numbers :: oldest <= n)
            && (forall n | n in numbers :: n <= latest) && LastNumber(db, task) <= latest
            && (latest in numbers || latest == LastNumber(db, task))
  {
    hide Retained;
  }

  /** The replay query. */
  function Query(db: Tables, task: string, after: int, now: int): (r: seq<int>)
    ensures StrictlySorted(IntLe, r)
    ensures forall n :: n in r <==> n in Retained(db, task, now) && n > after
  {
    assert TotalOrder(IntLe);
    SortSet(IntLe, set n | n in Retained(db, task, now) && n > after)
  }

  predicate Refused(after: int, oldest: int, latest: int) {
    (oldest > 0 && after < oldest - 1) || (oldest == 0 && latest > after)
  }

  /** Event number `n` has left the window. */
  predicate Expired(created: seq<int>, n: int, now: int) {
    1 <= n <= |created| && created[n - 1] < now - RETENTION_WINDOW
  }

  /** `created` are the creation times of all events ever issued to the task, in order; the table
      holds at least the ones still inside the window. */
  ghost predicate Chronicle(db: Tables, task: string, created: seq<int>, now: int) {
    && |created| == LastNumber(db, task)
    && (forall i, j | 0 <= i < j < |created| :: created[i] <= created[j])
    && (forall e | e in db.events && e.task == task ::
          1 <= e.number <= |created| && db.events[e].createdAt == created[e.number - 1])
    && (forall n | 1 <= n <= |created| && !Expired(created, n, now) :: EventId(task, n) in db.events)
  }

  /** The retained events are a contiguous suffix of what was issued. */
  lemma RetainedIsSuffix(db: Tables, task: string, created: seq<int>, now: int)
    requires Chronicle(db, task, created, now)
    ensures var (oldest, latest) := Bounds(db, task, now);
            && latest == |created|
            && (oldest == 0 ==> forall n | 1 <= n <= |created| :: Expired(created, n, now))
            && (oldest != 0 ==>
                 && 1 <= oldest <= latest
                 && forall n | 1 <= n <= |created| :: n >= oldest <==> !Expired(created, n, now))
  {
    hide Retained;
    var numbers := Retained(db, task, now);
    forall n
      ensures n in numbers <==> 1 <= n <= |created| && !Expired(created, n, now)
    {
    }
    var (oldest, latest) := Bounds(db, task, now);
    if numbers != {} {
      assert oldest in numbers;
      forall n | 1 <= n <= |created|
        ensures n >= oldest <==> !Expired(created, n, now)
      {
        if n >= oldest { assert created[oldest - 1] <= created[n - 1]; }
        if !Expired(created, n, now) { assert n in numbers; }
      }
    } else {
      forall n | 1 <= n <= |created|
        ensures Expired(created, n, now)
      {
        assert n !in numbers;
      }
    }
  }

  /** Acceptance is exact: a cursor is refused if and only if some event issued after it is no
      longer retained. */
  lemma CursorIsExact(db: Tables, task: string, created: seq<int>, now: int, after: nat)
    requires Chronicle(db, task, created, now)
    ensures var (oldest, latest) := Bounds(db, task, now);
            Refused(after, oldest, latest)
            <==> exists n :: after < n <= latest && Expired(created, n, now)
  {
    hide Bounds;
    RetainedIsSuffix(db, task, created, now);
    var (oldest, latest) := Bounds(db, task, now);
    if Refused(after, oldest, latest) {
      assert Expired(created, after + 1, now);
    }
  }

  /** The numbers from..to-1. */
  function Range(from: int, to: int): (r: seq<int>)
    ensures |r| == (if from < to then to - from else 0)
    ensures forall i | 0 <= i < |r| :: r[i] == from + i
  {
    if from < to then seq(to - from, i requires 0 <= i < to - from => from + i) else []
  }

  lemma RangeGrows(from: int, to: int)
    requires from <= to
    ensures Range(from, to + 1) == Range(from, to) + [to]
  {
  }

  lemma RangeHead(from: int, to: int)
    requires from < to
    ensures Range(from, to) != [] && Range(from, to)[0] == from && Range(from, to)[1..] == Range(from + 1, to)
  {
  }

  /** When nothing above the cursor has expired, the replay is gap-free: every issued number above it, in order. */
  lemma ReplayIsComplete(db: Tables, task: string, created: seq<int>, now: int, after: nat)
    requires Chronicle(db, task, created, now)
    ensures Query(db, task, after, now) == Range(after + 1, LastNumber(db, task) + 1)
            <==> forall n | after < n <= |created| :: !Expired(created, n, now)
  {
    hide SortSet, Range, Query;
    var r, q, retained := Range(after + 1, LastNumber(db, task) + 1), Query(db, task, after, now),
        Retained(db, task, now);
    forall n
      ensures n in r <==> after < n <= |created|
    {
      if after < n <= |created| { assert r[n - after - 1] == n; }
    }
    if forall n | after < n <= |created| :: !Expired(created, n, now) {
      forall n
        ensures n in q <==> n in r
      {
        if after < n <= |created| { assert !Expired(created, n, now) && EventId(task, n) in db.events; }
      }
      assert TotalOrder(IntLe);
      SortedUnique(IntLe, q, r);
    } else {
      var n :| after < n <= |created| && Expired(created, n, now);
      assert n in r && n !in q;
    }
  }
}
