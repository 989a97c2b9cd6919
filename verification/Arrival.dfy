/** Exactly what a stream shows, in every run, in terms of the copies that its bridge received. */
module Arrivals {
  import opened Bridge
  import opened Cursors
  import opened Domain
  import opened Live
  import opened Order
  import opened Store
  import Relay

  /** Since the present stream's query: the last number its replay reaches, and the copies of its task that
      the bridge has received, in order. */
  datatype Watch = Watch(floor: int, heard: seq<Attempt>)

  function Watching(w: World, task: string, step: Step, watch: Watch): Watch
    requires Enabled(w, task, step)
  {
    match step
    case Query =>
      Watch(Floor(Apply(w, task, Step.Query).conn), [])
    case Receive =>
      var e := w.core.log[w.reached].id;
      if e.task == task then watch.(heard := watch.heard + [Attempt(e, true)]) else watch
    case _ => watch
  }

  function Watched(w: World, task: string, steps: seq<Step>, watch: Watch): Watch
    requires PossibleRun(w, task, steps)
    decreases |steps|
  {
    if steps == [] then watch
    else Watched(Apply(w, task, steps[0]), task, steps[1..], Watching(w, task, steps[0], watch))
  }

  function Numbers(events: seq<EventId>): (r: seq<int>)
    ensures |r| == |events| && forall i | 0 <= i < |r| :: r[i] == events[i].number
  {
    seq(|events|, i requires 0 <= i < |events| => events[i].number)
  }

  /** The numbers that get past a filter whose mark starts at the floor. */
  function Passed(task: string, watch: Watch): seq<int> {
    Numbers(Handed(map[task := watch.floor], watch.heard))
  }

  /** Some copy of the event was received before every copy of a later one. */
  ghost predicate HeardInTurn(watch: Watch, e: EventId) {
    exists i: nat :: Leads(watch.heard, e, i)
  }

  function MarkOf(task: string, watch: Watch): int {
    Last(LastAfter(map[task := watch.floor], watch.heard), task)
  }

  function Greater(a: int, b: int): int {
    if a < b then b else a
  }

  // ---------------------------------------------------------------- the invariant

  ghost predicate Sorted(numbers: seq<int>) {
    forall i, j | 0 <= i < j < |numbers| :: numbers[i] < numbers[j]
  }

  /** Written, still to be replayed, and waiting in the channel: together exactly the replay and what has
      passed since. */
  ghost predicate ShowsExactly(conn: Conn, task: string, watch: Watch) {
    conn.Streaming? ==>
      conn.written + conn.replay + Above(conn.channel, Greater(conn.after, watch.floor))
      == Range(conn.start + 1, watch.floor + 1) + Passed(task, watch)
  }

  ghost predicate Told(conn: Conn, task: string, mark: int, watch: Watch) {
    && (HasChannel(conn) ==> Sorted(conn.channel))
    && (conn.Streaming? ==>
          && conn.start <= watch.floor
          && MarkOf(task, watch) == Greater(mark, watch.floor)
          && conn.after <= MarkOf(task, watch)
          && conn.replay == Range(conn.after + 1, watch.floor + 1))
    && ShowsExactly(conn, task, watch)
  }

  ghost predicate Genuine(db: Tables, task: string, watch: Watch) {
    forall a | a in watch.heard :: a.id.task == task && a.id in db.events && a.sinkOk
  }

  ghost predicate ReplayIssued(db: Tables, task: string, conn: Conn, floor: int) {
    conn.Streaming? ==> floor == conn.start || floor <= LastNumber(db, task)
  }

  ghost predicate Exact(w: World, task: string, watch: Watch) {
    && Told(w.conn, task, Last(w.last, task), watch)
    && (w.conn.Streaming? ==> Genuine(w.core.db, task, watch) && ReplayIssued(w.core.db, task, w.conn, watch.floor))
  }

  // ---------------------------------------------------------------- steps

  lemma NumbersSnoc(events: seq<EventId>, e: EventId)
    ensures Numbers(events + [e]) == Numbers(events) + [e.number]
  {
  }

  /** One more copy of the task: it passes exactly when it is above everything that has. */
  lemma HearMore(task: string, watch: Watch, e: EventId)
    requires e.task == task
    ensures var more := watch.(heard := watch.heard + [Attempt(e, true)]);
            && Passed(task, more) == Passed(task, watch) + (if e.number > MarkOf(task, watch) then [e.number] else [])
            && MarkOf(task, more) == Greater(MarkOf(task, watch), e.number)
  {
    hide Handed, LastAfter, Numbers;
    var start := map[task := watch.floor];
    HandedSnoc(start, watch.heard, Attempt(e, true));
    NumbersSnoc(Handed(start, watch.heard), e);
    assert Handed(start, watch.heard) + [] == Handed(start, watch.heard);
  }

  /** A number that passes the bridge's own mark goes into the channel; above the floor the two agree. */
  lemma PutKeepsTold(conn: Conn, task: string, mark: int, watch: Watch, e: EventId)
    requires Told(conn, task, mark, watch) && e.task == task
    requires HasChannel(conn) ==> forall n | n in conn.channel :: n <= mark
    ensures var more := watch.(heard := watch.heard + [Attempt(e, true)]);
            && (e.number > mark ==> Told(PutChannel(conn, e.number), task, e.number, more))
            && (e.number <= mark ==> Told(conn, task, mark, more))
  {
    hide Passed, MarkOf, Above, Range;
    HearMore(task, watch, e);
    if HasChannel(conn) {
      AboveSnoc(conn.channel, e.number, Greater(if conn.Streaming? then conn.after else 0, watch.floor));
      assert forall i | 0 <= i < |conn.channel| :: conn.channel[i] in conn.channel;
    }
    if conn.Streaming? {
      var above := Above(conn.channel, Greater(conn.after, watch.floor));
      var shown := conn.written + conn.replay;
      assert shown + (above + [e.number]) == shown + above + [e.number];
      assert above + [] == above && Passed(task, watch) + [] == Passed(task, watch);
      assert Range(conn.start + 1, watch.floor + 1) + (Passed(task, watch) + [e.number])
          == Range(conn.start + 1, watch.floor + 1) + Passed(task, watch) + [e.number];
    }
  }

  lemma ReceiveTells(w: World, task: string, watch: Watch)
    requires Inv(w, task) && Enabled(w, task, Receive) && Exact(w, task, watch)
    ensures Exact(Apply(w, task, Receive), task, Watching(w, task, Receive, watch))
  {
    hide Relay.Inv, Chronological, Top, Told, After, Passes;
    ReceiveTask(w, task);
    var e := w.core.log[w.reached].id;
    ChannelIsMarked(w, task);
    if e.task == task {
      PutKeepsTold(w.conn, task, Last(w.last, task), watch, e);
    }
  }

  lemma ChannelIsMarked(w: World, task: string)
    requires Inv(w, task)
    ensures HasChannel(w.conn) ==> forall n | n in w.conn.channel :: n <= Last(w.last, task)
  {
    hide Relay.Inv, Chronological, Top, Waiting;
  }

  lemma FreshTold(conn: Conn, task: string, mark: int, floor: int)
    requires conn.Streaming? && conn.written == [] && conn.after == conn.start <= floor && mark <= floor
    requires conn.replay == Range(conn.start + 1, floor + 1)
    requires Sorted(conn.channel) && forall n | n in conn.channel :: n <= mark
    ensures Told(conn, task, mark, Watch(floor, []))
  {
    hide Range;
    assert forall i | 0 <= i < |conn.channel| :: conn.channel[i] in conn.channel;
    NothingAbove(conn.channel, floor);
    assert conn.written + conn.replay + [] == conn.replay;
  }

  lemma QueryTells(w: World, task: string, watch: Watch)
    requires Inv(w, task) && Enabled(w, task, Step.Query) && Exact(w, task, watch)
    ensures Exact(Apply(w, task, Step.Query), task, Watching(w, task, Step.Query, watch))
  {
    hide Inv, ShowsExactly, Cursors.Query, Range, MarkOf;
    ChannelIsMarked(w, task);
    QueryReaches(w, task);
    var next := Apply(w, task, Step.Query);
    FreshTold(next.conn, task, Last(next.last, task), Floor(next.conn));
  }

  /** The replay reaches every event issued so far. */
  lemma QueryReaches(w: World, task: string)
    requires Inv(w, task) && Enabled(w, task, Step.Query)
    ensures var next := Apply(w, task, Step.Query);
            && Last(w.last, task) <= LastNumber(w.core.db, task)
            && next.conn.replay == Range(next.conn.start + 1, Floor(next.conn) + 1)
            && Floor(next.conn) == Greater(next.conn.start, LastNumber(w.core.db, task))
  {
    hide Cursors.Query, Retained, Top, Relay.Consistent, Chronological, Range, Above, GapRetained, Numbered, NoExpiry,
         Waiting;
    var db, now, start := w.core.db, w.core.clock, StartOf(w.client.cursor, w.conn.latest);
    GapIsVisible(db, task, w.client.cursor, w.conn.latest, w.conn.at, now, start);
    RangeLength(start + 1, LastNumber(db, task) + 1);
    RangeLength(start + 1, start + 1);
    TopIsIssued(w.core, w.reached, task);
  }

  lemma {:induction false} NothingAbove(channel: seq<int>, a: int)
    requires forall i | 0 <= i < |channel| :: channel[i] <= a
    ensures Above(channel, a) == []
  {
    if channel != [] { NothingAbove(channel[..|channel| - 1], a); }
  }

  /** Sorted numbers above their own head are the rest. */
  lemma HeadWritten(channel: seq<int>, a: int)
    requires channel != [] && Sorted(channel)
    ensures channel[0] <= a ==> Above(channel[1..], a) == Above(channel, a)
    ensures channel[0] > a ==> [channel[0]] + Above(channel[1..], channel[0]) == Above(channel, a)
  {
    hide Above;
    AboveHead(channel, a);
    AllAbove(channel[1..], channel[0]);
    if channel[0] > a { AllAbove(channel[1..], a); }
    assert [] + Above(channel[1..], a) == Above(channel[1..], a);
  }

  lemma {:induction false} AllAbove(channel: seq<int>, a: int)
    requires forall i | 0 <= i < |channel| :: channel[i] > a
    ensures Above(channel, a) == channel
  {
    if channel != [] {
      AllAbove(channel[..|channel| - 1], a);
      assert channel == channel[..|channel| - 1] + [channel[|channel| - 1]];
    }
  }

  lemma WriteKeepsTold(conn: Conn, task: string, mark: int, watch: Watch)
    requires conn.Streaming? && conn.replay == [] && conn.channel != [] && Told(conn, task, mark, watch)
    requires forall n | n in conn.channel :: n <= mark
    ensures var (head, rest) := (conn.channel[0], conn.channel[1..]);
            && (head <= conn.after ==> Told(conn.(channel := rest), task, mark, watch))
            && (head > conn.after ==>
                  Told(conn.(after := head, written := conn.written + [head], channel := rest), task, mark, watch))
  {
    hide Above, Passed, MarkOf;
    HeadWritten(conn.channel, conn.after);
    assert conn.channel[0] in conn.channel;
    var (head, rest) := (conn.channel[0], conn.channel[1..]);
    if head > conn.after {
      assert conn.written + [] + ([head] + Above(rest, head)) == conn.written + [head] + [] + Above(rest, head);
    }
  }

  lemma ReplayKeepsTold(conn: Conn, task: string, mark: int, watch: Watch)
    requires conn.Streaming? && conn.replay != [] && Told(conn, task, mark, watch)
    ensures var (head, rest) := (conn.replay[0], conn.replay[1..]);
            && head > conn.after
            && Told(conn.(after := head, written := conn.written + [head], replay := rest), task, mark, watch)
  {
    hide Above, Passed, MarkOf, Range;
    RangeLength(conn.after + 1, watch.floor + 1);
    RangeHead(conn.after + 1, watch.floor + 1);
    assert conn.written + conn.replay == conn.written + [conn.replay[0]] + conn.replay[1..];
  }

  lemma WriteTells(w: World, task: string, step: Step, watch: Watch)
    requires Inv(w, task) && Enabled(w, task, step) && Exact(w, task, watch) && (step.WriteReplay? || step.WriteLive?)
    ensures Exact(Apply(w, task, step), task, watch)
  {
    hide Inv, Told;
    ChannelIsMarked(w, task);
    if step.WriteReplay? {
      ReplayKeepsTold(w.conn, task, Last(w.last, task), watch);
    } else {
      WriteKeepsTold(w.conn, task, Last(w.last, task), watch);
    }
  }

  lemma StepTells(w: World, task: string, step: Step, watch: Watch)
    requires Inv(w, task) && Enabled(w, task, step) && Exact(w, task, watch)
    ensures Exact(Apply(w, task, step), task, Watching(w, task, step, watch))
  {
    hide Inv, Exact, Watching;
    match step {
      case Core(s) => CoreTells(w, task, s, watch);
      case Receive => ReceiveTells(w, task, watch);
      case Query => QueryTells(w, task, watch);
      case WriteReplay => WriteTells(w, task, step, watch); WatchingStays(w, task, step, watch);
      case WriteLive => WriteTells(w, task, step, watch); WatchingStays(w, task, step, watch);
      case _ => OtherTells(w, task, step, watch); WatchingStays(w, task, step, watch);
    }
  }

  lemma WatchingStays(w: World, task: string, step: Step, watch: Watch)
    requires Enabled(w, task, step) && !step.Query? && !step.Receive?
    ensures Watching(w, task, step, watch) == watch
  {
  }

  lemma CoreTells(w: World, task: string, step: Relay.Step, watch: Watch)
    requires Inv(w, task) && Enabled(w, task, Core(step)) && Exact(w, task, watch)
    ensures Exact(Apply(w, task, Core(step)), task, Watching(w, task, Core(step), watch))
  {
    hide Relay.Inv, Relay.Apply, Relay.Enabled, Chronological, ConnInv, Top, Told;
    CoreGrows(w.core, step);
  }

  lemma OtherTells(w: World, task: string, step: Step, watch: Watch)
    requires Inv(w, task) && Enabled(w, task, step) && Exact(w, task, watch)
    requires step.Join? || step.Leave? || step.Subscribe? || step.Bounds? || step.Drop? || step.Restart?
    ensures Exact(Apply(w, task, step), task, watch)
  {
    hide Inv, MarkOf, Passed, Above, Range, Cursors.Bounds;
  }

  lemma {:induction false} RunTells(w: World, task: string, steps: seq<Step>, watch: Watch)
    requires Inv(w, task) && PossibleRun(w, task, steps) && Exact(w, task, watch)
    ensures Inv(Run(w, task, steps), task)
    ensures Exact(Run(w, task, steps), task, Watched(w, task, steps, watch))
    decreases |steps|
  {
    hide Inv, Apply, Enabled, Exact, Watching, Whole, StaysUnbroken;
    if steps != [] {
      StepKeeps(w, task, steps[0]);
      StepTells(w, task, steps[0], watch);
      RunTells(Apply(w, task, steps[0]), task, steps[1..], Watching(w, task, steps[0], watch));
    }
  }

  const NOTHING := Watch(0, [])

  // ---------------------------------------------------------------- what a stream shows

  /** In every run, whatever the outages, restarts and re-sent copies: what is written, still to be replayed
      and waiting in the channel is together exactly the replay, start to floor, followed by the numbers of
      the copies received since that were above everything before them. */
  lemma StreamIsExact(cursor: Option<int>, task: string, steps: seq<Step>)
    requires cursor.Some? ==> 0 <= cursor.value
    requires PossibleRun(Initial(cursor), task, steps)
    ensures ShowsExactly(Run(Initial(cursor), task, steps).conn, task, Watched(Initial(cursor), task, steps, NOTHING))
  {
    hide Inv, Whole, Exact, ShowsExactly;
    InitialInv(cursor, task);
    InitialExact(cursor, task);
    RunTells(Initial(cursor), task, steps, NOTHING);
    ExactShows(Run(Initial(cursor), task, steps), task, Watched(Initial(cursor), task, steps, NOTHING));
  }

  lemma ExactShows(w: World, task: string, watch: Watch)
    requires Exact(w, task, watch)
    ensures ShowsExactly(w.conn, task, watch)
  {
    hide ShowsExactly;
  }

  /** And exactly when nothing is missing, for every run: a stream with nothing left to write is complete if
      and only if of each event after its replay the bridge has received some copy before every copy of a
      later event. */
  lemma CompleteExactly(cursor: Option<int>, task: string, steps: seq<Step>)
    requires cursor.Some? ==> 0 <= cursor.value
    requires PossibleRun(Initial(cursor), task, steps)
    requires var conn := Run(Initial(cursor), task, steps).conn;
             conn.Streaming? && conn.replay == [] && conn.channel == []
    ensures var (w, watch) := (Run(Initial(cursor), task, steps), Watched(Initial(cursor), task, steps, NOTHING));
            Complete(w, task) <==>
              forall n | watch.floor < n <= LastNumber(w.core.db, task) :: HeardInTurn(watch, EventId(task, n))
  {
    hide Inv, Whole, Exact, Complete, HeardInTurn;
    InitialInv(cursor, task);
    InitialExact(cursor, task);
    RunTells(Initial(cursor), task, steps, NOTHING);
    ExactIsComplete(Run(Initial(cursor), task, steps), task, Watched(Initial(cursor), task, steps, NOTHING));
  }

  lemma InitialExact(cursor: Option<int>, task: string)
    ensures Exact(Initial(cursor), task, NOTHING)
  {
  }

  /** The numbers that passed: increasing, above the floor, issued, and which they are. */
  lemma PassedAre(db: Tables, task: string, watch: Watch)
    requires Genuine(db, task, watch) && Numbered(db)
    ensures Sorted(Passed(task, watch))
    ensures forall n :: n in Passed(task, watch) <==> watch.floor < n && HeardInTurn(watch, EventId(task, n))
    ensures forall n | n in Passed(task, watch) :: watch.floor < n <= LastNumber(db, task)
  {
    hide Handed, Leads;
    var start := map[task := watch.floor];
    var events := Handed(start, watch.heard);
    HandedIncreases(start, watch.heard);
    HandedAreHeard(start, watch.heard);
    forall i | 0 <= i < |events|
      ensures events[i] in events && events[i].task == task && events[i] in db.events
    {
      assert events[i] in events;
      var a :| a in watch.heard && a.id == events[i];
    }
    forall n
      ensures n in Passed(task, watch) <==> watch.floor < n && HeardInTurn(watch, EventId(task, n))
    {
      HandedExactly(start, watch.heard, EventId(task, n));
      if n in Passed(task, watch) {
        var i :| 0 <= i < |events| && Passed(task, watch)[i] == n;
        assert events[i] == EventId(task, n);
      }
      if EventId(task, n) in events {
        var i :| 0 <= i < |events| && events[i] == EventId(task, n);
        assert Passed(task, watch)[i] == n;
      }
    }
  }

  lemma {:induction false} HandedAreHeard(last: map<string, int>, attempts: seq<Attempt>)
    ensures forall e | e in Handed(last, attempts) :: exists a :: a in attempts && a.id == e
    decreases |attempts|
  {
    if attempts != [] {
      HandedAreHeard(After(last, attempts[0]), attempts[1..]);
      assert forall a | a in attempts[1..] :: a in attempts;
      assert attempts[0] in attempts;
    }
  }

  lemma ExactIsComplete(w: World, task: string, watch: Watch)
    requires Inv(w, task) && Exact(w, task, watch) && w.conn.Streaming? && w.conn.replay == [] && w.conn.channel == []
    ensures Complete(w, task) <==>
              forall n | watch.floor < n <= LastNumber(w.core.db, task) :: HeardInTurn(watch, EventId(task, n))
  {
    hide Chronological, ConnInv, Top, Relay.Consistent, Range, HeardInTurn, Passed, MarkOf, Above;
    var (start, floor, issued) := (w.conn.start, watch.floor, LastNumber(w.core.db, task));
    var passed := Passed(task, watch);
    PassedAre(w.core.db, task, watch);
    EmptyAbove(Greater(w.conn.after, floor));
    assert w.conn.written + [] + [] == w.conn.written;
    if floor <= issued {
      RangeExtends(start + 1, floor + 1, issued + 1);
      SamePrefix(Range(start + 1, floor + 1), passed, Range(floor + 1, issued + 1));
      SortedIsRange(passed, floor, issued);
    } else {
      SortedIsRange(passed, floor, issued);
      RangeLength(floor + 1, issued + 1);
      RangeLength(start + 1, issued + 1);
      RangeLength(start + 1, floor + 1);
    }
  }

  lemma SamePrefix(a: seq<int>, b: seq<int>, c: seq<int>)
    ensures a + b == a + c <==> b == c
  {
    if a + b == a + c {
      assert b == (a + b)[|a|..] && c == (a + c)[|a|..];
    }
  }

  /** Increasing numbers within bounds are all of them if and only if none is missing. */
  lemma SortedIsRange(numbers: seq<int>, low: int, high: int)
    requires Sorted(numbers) && forall n | n in numbers :: low < n <= high
    ensures numbers == Range(low + 1, high + 1) <==> forall n | low < n <= high :: n in numbers
  {
    var all := Range(low + 1, high + 1);
    forall n | low < n <= high
      ensures n in all
    {
      assert all[n - low - 1] == n;
    }
    if forall n | low < n <= high :: n in numbers {
      assert forall n :: n in all <==> n in numbers;
      assert TotalOrder(IntLe);
      SortedUnique(IntLe, numbers, all);
    }
  }
}
