/** End to end: flushes, relays, the broadcast log, one API instance's bridge, and one client with its
    streams of one task, in any interleaving, with outages of the bridge and broken connections. */
module Live {
  import opened Domain
  import opened Store
  import opened Outbox
  import opened Cursors
  import opened Bridge
  import Relay

  /** One streaming request. */
  datatype Conn =
    | Absent
    | Subscribed(channel: seq<int>)
    | Bounded(channel: seq<int>, latest: int, at: int)
    | Streaming(latest: int, start: int, after: int, channel: seq<int>, replay: seq<int>, written: seq<int>)
    | Closed

  /** The client: the cursor it sends, and everything its connections have brought it so far. */
  datatype Client = Client(cursor: Option<int>, received: seq<int>)

  /** The bridge is connected or not (`up`); the log's first `reached` copies it has received or missed. */
  datatype World = World(core: Relay.State, up: bool, reached: nat, last: map<string, int>, conn: Conn, client: Client)

  function Initial(cursor: Option<int>): World {
    World(Relay.INITIAL, false, 0, map[], Absent, Client(cursor, []))
  }

  datatype Step =
    | Core(step: Relay.Step)
    /** The bridge declares a new queue, which gets the copies from now on. */
    | Join
    /** The bridge loses its session, and with it the queue and what is still in it. */
    | Leave
    | Receive
    | Subscribe
    | Bounds
    | Query
    | WriteReplay
    | WriteLive
    /** The connection ends after the client has received the first `k` of the events written on it. */
    | Drop(k: nat)
    /** So does the whole API instance. */
    | Restart(k: nat)

  predicate HasChannel(conn: Conn) {
    conn.Subscribed? || conn.Bounded? || conn.Streaming?
  }

  function Written(conn: Conn): seq<int> {
    if conn.Streaming? then conn.written else []
  }

  /** No event that was retained when the bounds were read expires before the replay query. */
  ghost predicate NoExpiry(db: Tables, task: string, at: int, now: int) {
    forall e | e in db.events && e.task == task && db.events[e].createdAt >= at - RETENTION_WINDOW ::
      db.events[e].createdAt >= now - RETENTION_WINDOW
  }

  ghost predicate Enabled(w: World, task: string, step: Step) {
    match step
    case Core(s) => Relay.Enabled(w.core, s)
    case Join => !w.up
    case Leave => w.up
    case Receive => w.up && w.reached < |w.core.log|
    case Subscribe => w.conn.Absent?
    case Bounds => w.conn.Subscribed?
    case Query => w.conn.Bounded? && NoExpiry(w.core.db, task, w.conn.at, w.core.clock)
    case WriteReplay => w.conn.Streaming? && w.conn.replay != []
    case WriteLive => w.conn.Streaming? && w.conn.replay == [] && w.conn.channel != []
    case Drop(k) => HasChannel(w.conn) && k <= |Written(w.conn)|
    case Restart(k) => k <= |Written(w.conn)|
  }

  function PutChannel(conn: Conn, number: int): Conn {
    match conn
    case Subscribed(channel) => Subscribed(channel + [number])
    case Bounded(channel, latest, at) => Bounded(channel + [number], latest, at)
    case Streaming(latest, start, after, channel, replay, written) =>
      Streaming(latest, start, after, channel + [number], replay, written)
    case _ => conn
  }

  /** The handler's writeEvent: at or below the cursor is dropped, above it is written. */
  function Write(conn: Conn, number: int): Conn
    requires conn.Streaming?
  {
    if number <= conn.after then conn else conn.(after := number, written := conn.written + [number])
  }

  /** Where a stream starts: at the cursor, or at the newest event when there is none. */
  function StartOf(cursor: Option<int>, latest: int): int {
    if cursor.Some? then cursor.value else latest
  }

  /** The client resumes from the last event it has received. */
  function Receives(client: Client, part: seq<int>): Client {
    if part == [] then client else Client(Some(part[|part| - 1]), client.received + part)
  }

  function Apply(w: World, task: string, step: Step): World
    requires Enabled(w, task, step)
  {
    match step
    case Core(s) => w.(core := Relay.Apply(w.core, s))
    case Join => w.(up := true, reached := |w.core.log|)
    case Leave => w.(up := false)
    case Receive =>
      var e := w.core.log[w.reached].id;
      var a := Attempt(e, true);
      w.(reached := w.reached + 1, last := After(w.last, a),
         conn := if e.task == task && Passes(w.last, a) then PutChannel(w.conn, e.number) else w.conn)
    case Subscribe => w.(conn := Subscribed([]))
    case Bounds =>
      var (oldest, latest) := Cursors.Bounds(w.core.db, task, w.core.clock);
      if w.client.cursor.Some? && Cursors.Refused(w.client.cursor.value, oldest, latest) then w.(conn := Closed)
      else w.(conn := Bounded(w.conn.channel, latest, w.core.clock))
    case Query =>
      var start := StartOf(w.client.cursor, w.conn.latest);
      w.(conn := Streaming(w.conn.latest, start, start, w.conn.channel,
                           Cursors.Query(w.core.db, task, start, w.core.clock), []))
    case WriteReplay => w.(conn := Write(w.conn, w.conn.replay[0]).(replay := w.conn.replay[1..]))
    case WriteLive => w.(conn := Write(w.conn, w.conn.channel[0]).(channel := w.conn.channel[1..]))
    case Drop(k) => w.(conn := Absent, client := Receives(w.client, Written(w.conn)[..k]))
    case Restart(k) =>
      w.(up := false, last := map[], conn := if HasChannel(w.conn) then Absent else w.conn,
         client := Receives(w.client, Written(w.conn)[..k]))
  }

  ghost predicate PossibleRun(w: World, task: string, steps: seq<Step>)
    decreases |steps|
  {
    steps == [] || (Enabled(w, task, steps[0]) && PossibleRun(Apply(w, task, steps[0]), task, steps[1..]))
  }

  function Run(w: World, task: string, steps: seq<Step>): World
    requires PossibleRun(w, task, steps)
    decreases |steps|
  {
    if steps == [] then w else Run(Apply(w, task, steps[0]), task, steps[1..])
  }

  // ---------------------------------------------------------------- how far a log reaches

  /** The greatest number of the task among the log's first `upTo` copies; 0 if there is none. */
  function Top(log: seq<Relay.Copy>, upTo: nat, task: string): int
    requires upTo <= |log|
  {
    if upTo == 0 then 0
    else
      var below, id := Top(log, upTo - 1, task), log[upTo - 1].id;
      if id.task == task && id.number > below then id.number else below
  }

  lemma {:induction false} TopBounds(log: seq<Relay.Copy>, upTo: nat, task: string, i: nat)
    requires i < upTo <= |log| && log[i].id.task == task
    ensures log[i].id.number <= Top(log, upTo, task)
  {
    if i < upTo - 1 { TopBounds(log, upTo - 1, task, i); }
  }

  lemma {:induction false} TopGrows(log: seq<Relay.Copy>, low: nat, high: nat, task: string)
    requires low <= high <= |log|
    ensures 0 <= Top(log, low, task) <= Top(log, high, task)
  {
    if low < high { TopGrows(log, low, high - 1, task); } else if low > 0 { TopGrows(log, low - 1, low - 1, task); }
  }

  lemma {:induction false} TopStable(log: seq<Relay.Copy>, more: seq<Relay.Copy>, upTo: nat, task: string)
    requires log <= more && upTo <= |log|
    ensures Top(more, upTo, task) == Top(log, upTo, task)
  {
    if upTo > 0 { TopStable(log, more, upTo - 1, task); }
  }

  /** In first-copy order, the next copy is at most one past everything before it. */
  lemma NextNumber(log: seq<Relay.Copy>, pos: nat)
    requires Relay.FirstCopyOrder(log) && pos < |log|
    ensures log[pos].id.number <= Top(log, pos, log[pos].id.task) + 1
  {
    var e := log[pos].id;
    TopGrows(log, pos, pos, e.task);
    if e.number > 1 {
      assert Relay.Broadcast(log[..pos], EventId(e.task, e.number - 1));
      var j :| 0 <= j < pos && log[..pos][j] == Relay.Copy(EventId(e.task, e.number - 1), true);
      TopBounds(log, pos, e.task, j);
    }
  }

  lemma {:induction false} TopIsIssued(st: Relay.State, upTo: nat, task: string)
    requires Relay.Inv(st) && upTo <= |st.log|
    ensures Top(st.log, upTo, task) <= LastNumber(st.db, task)
  {
    if upTo > 0 {
      TopIsIssued(st, upTo - 1, task);
      assert st.log[upTo - 1].id in st.db.events;
    }
  }

  // ---------------------------------------------------------------- channel contents

  /** The part of a channel that a cursor at `a` lets through. */
  function Above(channel: seq<int>, a: int): seq<int> {
    if channel == [] then []
    else
      var last := channel[|channel| - 1];
      Above(channel[..|channel| - 1], a) + if last > a then [last] else []
  }

  lemma AboveSnoc(channel: seq<int>, n: int, a: int)
    ensures Above(channel + [n], a) == Above(channel, a) + if n > a then [n] else []
  {
    assert (channel + [n])[..|channel|] == channel;
  }

  lemma {:induction false} AboveHead(channel: seq<int>, a: int)
    requires channel != []
    ensures Above(channel, a) == (if channel[0] > a then [channel[0]] else []) + Above(channel[1..], a)
  {
    var front, last := channel[..|channel| - 1], channel[|channel| - 1];
    var tail := if last > a then [last] else [];
    assert Above(channel, a) == Above(front, a) + tail;
    if front != [] {
      AboveHead(front, a);
      AboveSnoc(front[1..], last, a);
      assert front[1..] + [last] == channel[1..];
      hide Above;
      var head := if channel[0] > a then [channel[0]] else [];
      assert head + Above(front[1..], a) + tail == head + (Above(front[1..], a) + tail);
    } else {
      assert channel[1..] == [];
    }
  }

  lemma {:induction false} AboveTwice(channel: seq<int>, a: int, b: int)
    requires a <= b
    ensures Above(Above(channel, a), b) == Above(channel, b)
  {
    if channel != [] {
      var front, last := channel[..|channel| - 1], channel[|channel| - 1];
      AboveTwice(front, a, b);
      if last > a {
        AboveSnoc(Above(front, a), last, b);
      } else {
        assert Above(channel, a) == Above(front, a) && Above(channel, b) == Above(front, b);
      }
    }
  }

  lemma {:induction false} AboveRange(from: int, top: int, b: int)
    requires from <= b + 1
    ensures Above(Range(from, top + 1), b) == Range(b + 1, top + 1)
    decreases top - from
  {
    hide Range;
    if from <= top {
      AboveRange(from, top - 1, b);
      RangeGrows(from, top);
      AboveSnoc(Range(from, top), top, b);
      if b < top { RangeGrows(b + 1, top); }
    }
  }

  /** Raising the cursor only trims the front of a contiguous run. */
  lemma AboveRaised(channel: seq<int>, a: int, b: int, top: int)
    requires Above(channel, a) == Range(a + 1, top + 1) && a <= b
    ensures Above(channel, b) == Range(b + 1, top + 1)
  {
    AboveTwice(channel, a, b);
    AboveRange(a + 1, top, b);
  }

  // ---------------------------------------------------------------- outages

  /** The greatest number the connection has written or will still replay. */
  function Floor(conn: Conn): int
    requires conn.Streaming?
  {
    conn.after + |conn.replay|
  }

  /** A bridge that joins now leaves no hole in an open stream: every event of the task copied so far is
      in its replay, or had been received before the bridge lost its session. */
  ghost predicate Seamless(w: World, task: string)
    requires w.reached <= |w.core.log|
  {
    w.conn.Streaming? ==>
      || Top(w.core.log, |w.core.log|, task) <= Floor(w.conn)
      || Top(w.core.log, |w.core.log|, task) <= Top(w.core.log, w.reached, task)
  }

  /** Whether the present stream is still unbroken after the step: every join since its query was seamless. */
  ghost predicate StaysUnbroken(w: World, task: string, step: Step, sofar: bool) {
    match step
    case Query => true
    case Join => sofar && w.reached <= |w.core.log| && Seamless(w, task)
    case _ => sofar
  }

  ghost predicate Unbroken(w: World, task: string, steps: seq<Step>, sofar: bool)
    requires PossibleRun(w, task, steps)
    decreases |steps|
  {
    if steps == [] then sofar
    else Unbroken(Apply(w, task, steps[0]), task, steps[1..], StaysUnbroken(w, task, steps[0], sofar))
  }

  /** Every join of the run is seamless. */
  ghost predicate AllSeamless(w: World, task: string, steps: seq<Step>)
    requires PossibleRun(w, task, steps)
    decreases |steps|
  {
    steps == [] || (StaysUnbroken(w, task, steps[0], true) && AllSeamless(Apply(w, task, steps[0]), task, steps[1..]))
  }

  // ---------------------------------------------------------------- the world invariant

  /** Within a task, later events are not older, and nothing is newer than the clock. */
  ghost predicate Chronological(db: Tables, clock: int) {
    && (forall e | e in db.events :: db.events[e].createdAt <= clock)
    && (forall e, f | e in db.events && f in db.events && e.task == f.task && e.number <= f.number ::
          db.events[e].createdAt <= db.events[f].createdAt)
  }

  /** What the channel holds above `floor` is exactly what the bridge has received above it. */
  ghost predicate Caught(channel: seq<int>, floor: int, top: int) {
    Above(channel, floor) == Range(floor + 1, top + 1)
  }

  /** Events after the bounds query are newer than it; a cursor's gap up to `latest` was retained then. */
  ghost predicate GapRetained(db: Tables, task: string, cursor: Option<int>, latest: int, at: int) {
    && (forall e | e in db.events && e.task == task && e.number > latest :: db.events[e].createdAt >= at)
    && (cursor.Some? ==> forall e | e in db.events && e.task == task && cursor.value < e.number <= latest ::
          db.events[e].createdAt >= at - RETENTION_WINDOW)
  }

  ghost predicate Issued(db: Tables, task: string, numbers: seq<int>) {
    forall n | n in numbers :: EventId(task, n) in db.events
  }

  /** Strictly increasing from `start` on, up to exactly `after`. */
  ghost predicate Rising(written: seq<int>, start: int, after: int) {
    && (forall i, j | 0 <= i < j < |written| :: written[i] < written[j])
    && (forall n | n in written :: start < n <= after)
    && (if written == [] then after == start else written[|written| - 1] == after)
  }

  /** The channel of a request that has not read its replay yet holds everything above some point that the
      bridge has received since; what the bridge missed before that is left to the replay. */
  ghost predicate Waiting(channel: seq<int>, mark: int, top: int) {
    exists since: int :: since <= top && (mark == top || since == top) && Caught(channel, since, top)
  }

  ghost predicate Filled(db: Tables, task: string, channel: seq<int>, mark: int) {
    Issued(db, task, channel) && forall n | n in channel :: n <= mark
  }

  ghost predicate ConnInv(db: Tables, clock: int, task: string, conn: Conn, cursor: Option<int>, mark: int, top: int) {
    match conn
    case Subscribed(channel) => Filled(db, task, channel, mark) && Waiting(channel, mark, top)
    case Bounded(channel, latest, at) =>
      && Filled(db, task, channel, mark) && Waiting(channel, mark, top)
      && 0 <= latest <= LastNumber(db, task) && at <= clock && GapRetained(db, task, cursor, latest, at)
    case Streaming(latest, start, after, channel, replay, written) =>
      && Filled(db, task, channel, mark) && Issued(db, task, replay) && Issued(db, task, written)
      && start == StartOf(cursor, latest) && 0 <= start <= after && 0 <= latest <= LastNumber(db, task)
      && Rising(written, start, after)
    case _ => true
  }

  /** What holds in every run, outages or not. */
  ghost predicate Inv(w: World, task: string) {
    && Relay.Inv(w.core) && Chronological(w.core.db, w.core.clock)
    && w.reached <= |w.core.log|
    && 0 <= Last(w.last, task) <= Top(w.core.log, w.reached, task)
    && (w.client.cursor.Some? ==> 0 <= w.client.cursor.value) && Issued(w.core.db, task, w.client.received)
    && ConnInv(w.core.db, w.core.clock, task, w.conn, w.client.cursor, Last(w.last, task),
        Top(w.core.log, w.reached, task))
  }

  /** What holds of a stream as long as it is unbroken. */
  ghost predicate Gapless(conn: Conn, mark: int, top: int) {
    conn.Streaming? ==>
      && conn.replay == Range(conn.after + 1, Floor(conn) + 1)
      && conn.written == Range(conn.start + 1, conn.after + 1)
      && Caught(conn.channel, Floor(conn), top)
      && (mark == top || top <= Floor(conn))
  }

  ghost predicate Whole(w: World, task: string)
    requires w.reached <= |w.core.log|
  {
    Gapless(w.conn, Last(w.last, task), Top(w.core.log, w.reached, task))
  }

  // ---------------------------------------------------------------- steps of the write side

  /** A step of the write side keeps events, adds only newer ones, and moves no counter back. */
  ghost predicate EventsGrow(before: Tables, after: Tables, clock: int) {
    && (forall e | e in before.events :: e in after.events && after.events[e] == before.events[e])
    && (forall e | e in after.events && e !in before.events ::
          after.events[e].createdAt == clock && e.number > LastNumber(before, e.task))
    && (forall task :: LastNumber(before, task) <= LastNumber(after, task))
  }

  lemma CoreGrows(st: Relay.State, step: Relay.Step)
    requires Relay.Inv(st) && Relay.Enabled(st, step)
    ensures EventsGrow(st.db, Relay.Apply(st, step).db, st.clock) && st.clock <= Relay.Apply(st, step).clock
  {
    hide InsertRows, TaskPayload, OfTask, Relay.Consistent, NewOutbox, Inserted;
    if step.Flush? {
      CountersAdvance(st.db, step.rows, step.order, st.clock);
    }
  }

  lemma CoreKeepsChronological(st: Relay.State, step: Relay.Step)
    requires Relay.Inv(st) && Relay.Enabled(st, step) && Chronological(st.db, st.clock)
    ensures Chronological(Relay.Apply(st, step).db, Relay.Apply(st, step).clock)
  {
    hide Relay.Apply, Relay.Consistent, Relay.Enabled;
    CoreGrows(st, step);
    var next := Relay.Apply(st, step);
    forall e, f | e in next.db.events && f in next.db.events && e.task == f.task && e.number <= f.number
      ensures next.db.events[e].createdAt <= next.db.events[f].createdAt
    {
      assert f in st.db.events ==> f.number <= LastNumber(st.db, f.task);
    }
  }

  lemma IssuedGrows(db: Tables, next: Tables, task: string, numbers: seq<int>)
    requires Issued(db, task, numbers) && forall e | e in db.events :: e in next.events
    ensures Issued(next, task, numbers)
  {
  }

  lemma CoreKeepsConn(db: Tables, next: Tables, clock: int, later: int, task: string, conn: Conn, cursor: Option<int>,
          mark: int, top: int)
    requires ConnInv(db, clock, task, conn, cursor, mark, top) && EventsGrow(db, next, clock) && clock <= later
    ensures ConnInv(next, later, task, conn, cursor, mark, top)
  {
    hide Waiting, Rising;
    if conn.Bounded? {
      forall e | e in next.events && e.task == task && e.number > conn.latest
        ensures next.events[e].createdAt >= conn.at
      {
        if e in db.events { assert db.events[e].createdAt >= conn.at; }
      }
    }
  }

  lemma CoreKeeps(w: World, task: string, step: Relay.Step)
    requires Inv(w, task) && Relay.Enabled(w.core, step)
    ensures Inv(Apply(w, task, Core(step)), task)
    ensures Whole(w, task) ==> Whole(Apply(w, task, Core(step)), task)
  {
    hide Relay.Apply, Relay.Enabled, ConnInv, Chronological, Relay.Inv, Gapless;
    var next := Relay.Apply(w.core, step);
    Relay.StepKeeps(w.core, step);
    CoreGrows(w.core, step);
    CoreKeepsChronological(w.core, step);
    TopStable(w.core.log, next.log, w.reached, task);
    IssuedGrows(w.core.db, next.db, task, w.client.received);
    CoreKeepsConn(w.core.db, next.db, w.core.clock, next.clock, task, w.conn, w.client.cursor,
                  Last(w.last, task), Top(w.core.log, w.reached, task));
  }

  // ---------------------------------------------------------------- the bridge's steps

  /** One copy arriving: either it is new and raises mark and top by one, or the top stays. */
  lemma ReceiveTask(w: World, task: string)
    requires Inv(w, task) && Enabled(w, task, Receive)
    ensures var e := w.core.log[w.reached].id;
            var top, next := Top(w.core.log, w.reached, task), Top(w.core.log, w.reached + 1, task);
            && 1 <= e.number && e in w.core.db.events
            && (e.task != task ==> next == top)
            && (e.task == task ==> e.number <= top + 1 && next == (if e.number == top + 1 then top + 1 else top))
            && (Passes(w.last, Attempt(e, true)) <==> e.number > Last(w.last, e.task))
            && Last(After(w.last, Attempt(e, true)), task)
               == if e.task == task && e.number > Last(w.last, task) then e.number else Last(w.last, task)
  {
    hide Chronological, ConnInv, Safe;
    NextNumber(w.core.log, w.reached);
    assert w.core.log[w.reached].id in w.core.db.events;
  }

  lemma PutKeepsCaught(channel: seq<int>, floor: int, top: int, number: int, next: int)
    requires Caught(channel, floor, top)
    requires (number == top + 1 == next) || (number <= floor && top == next)
    ensures Caught(channel + [number], floor, next)
  {
    hide Range, Above;
    AboveSnoc(channel, number, floor);
    if floor < number {
      RangeGrows(floor + 1, number);
    } else {
      RangeLength(floor + 1, top + 1);
      RangeLength(floor + 1, next + 1);
    }
  }

  lemma PutKeepsWaiting(channel: seq<int>, mark: int, top: int, number: int, next: int)
    requires Waiting(channel, mark, top) && mark <= top && mark < number
    requires (number == top + 1 == next) || (number <= top == next)
    ensures Waiting(channel + [number], number, next)
  {
    hide Caught;
    var since: int :| since <= top && (mark == top || since == top) && Caught(channel, since, top);
    PutKeepsCaught(channel, since, top, number, next);
  }

  lemma PutKeepsConn(db: Tables, clock: int, task: string, conn: Conn, cursor: Option<int>, mark: int, top: int,
          number: int, next: int)
    requires ConnInv(db, clock, task, conn, cursor, mark, top) && mark <= top && mark < number
    requires (number == top + 1 == next) || (number <= top == next)
    requires EventId(task, number) in db.events
    ensures ConnInv(db, clock, task, PutChannel(conn, number), cursor, number, next)
    ensures Gapless(conn, mark, top) ==> Gapless(PutChannel(conn, number), number, next)
  {
    hide Caught, GapRetained, Range, Waiting, Rising;
    if conn.Subscribed? || conn.Bounded? {
      PutKeepsWaiting(conn.channel, mark, top, number, next);
    }
    if conn.Streaming? && Gapless(conn, mark, top) {
      PutKeepsCaught(conn.channel, Floor(conn), top, number, next);
    }
  }

  lemma ReceiveKeeps(w: World, task: string)
    requires Inv(w, task) && Enabled(w, task, Receive)
    ensures Inv(Apply(w, task, Receive), task)
    ensures Whole(w, task) ==> Whole(Apply(w, task, Receive), task)
  {
    hide Chronological, ConnInv, Relay.Inv, Top, Gapless, After, Passes;
    var e := w.core.log[w.reached].id;
    var top, next := Top(w.core.log, w.reached, task), Top(w.core.log, w.reached + 1, task);
    ReceiveTask(w, task);
    if e.task == task && Passes(w.last, Attempt(e, true)) {
      PutKeepsConn(w.core.db, w.core.clock, task, w.conn, w.client.cursor, Last(w.last, task), top, e.number, next);
    }
  }

  lemma LeaveKeeps(w: World, task: string)
    requires Inv(w, task) && Enabled(w, task, Leave)
    ensures Inv(Apply(w, task, Leave), task)
    ensures Whole(w, task) ==> Whole(Apply(w, task, Leave), task)
  {
  }

  lemma JoinKeepsWaiting(channel: seq<int>, mark: int, top: int, next: int)
    requires Waiting(channel, mark, top) && top <= next
    ensures Waiting(channel, mark, next)
  {
    var since: int :| since <= top && (mark == top || since == top) && Caught(channel, since, top);
    AboveRaised(channel, since, next, top);
    assert Caught(channel, next, next);
  }

  lemma JoinKeeps(w: World, task: string)
    requires Inv(w, task) && Enabled(w, task, Join)
    ensures Inv(Apply(w, task, Join), task)
    ensures Whole(w, task) && Seamless(w, task) ==> Whole(Apply(w, task, Join), task)
  {
    hide Chronological, Relay.Inv, Top, Above, Waiting, Rising, GapRetained, Filled, Issued;
    var top, next := Top(w.core.log, w.reached, task), Top(w.core.log, |w.core.log|, task);
    TopGrows(w.core.log, w.reached, |w.core.log|, task);
    if w.conn.Subscribed? || w.conn.Bounded? {
      JoinKeepsWaiting(w.conn.channel, Last(w.last, task), top, next);
    }
  }

  // ---------------------------------------------------------------- the request's steps

  lemma SubscribeKeeps(w: World, task: string)
    requires Inv(w, task) && Enabled(w, task, Subscribe)
    ensures Inv(Apply(w, task, Subscribe), task) && Whole(Apply(w, task, Subscribe), task)
  {
    hide Chronological, Relay.Inv, Top;
    var top := Top(w.core.log, w.reached, task);
    assert Caught([], top, top);
  }

  /** The creation times of all events issued to the task. */
  function Times(db: Tables, task: string): (r: seq<int>)
    requires Numbered(db)
    ensures |r| == LastNumber(db, task)
    ensures forall n | 1 <= n <= |r| :: r[n - 1] == db.events[EventId(task, n)].createdAt
  {
    seq(LastNumber(db, task), i requires 0 <= i < LastNumber(db, task) => db.events[EventId(task, i + 1)].createdAt)
  }

  lemma TimesAreChronicle(db: Tables, task: string, clock: int, now: int)
    requires Numbered(db) && Chronological(db, clock)
    ensures Chronicle(db, task, Times(db, task), now)
  {
    hide Times;
    var times := Times(db, task);
    forall i, j | 0 <= i < j < |times|
      ensures times[i] <= times[j]
    {
      assert times[i + 1 - 1] == db.events[EventId(task, i + 1)].createdAt;
      assert times[j + 1 - 1] == db.events[EventId(task, j + 1)].createdAt;
    }
  }

  /** An accepted cursor has its whole gap retained, and what comes later is newer than the bounds. */
  lemma BoundsRetain(db: Tables, task: string, cursor: Option<int>, now: int)
    requires Numbered(db) && Chronological(db, now) && (cursor.Some? ==> 0 <= cursor.value)
    ensures var (oldest, latest) := Cursors.Bounds(db, task, now);
            && latest == LastNumber(db, task)
            && (cursor.None? || !Cursors.Refused(cursor.value, oldest, latest) ==>
                  GapRetained(db, task, cursor, latest, now))
  {
    hide Cursors.Bounds, Retained, Times;
    var (oldest, latest) := Cursors.Bounds(db, task, now);
    var times := Times(db, task);
    TimesAreChronicle(db, task, now, now);
    RetainedIsSuffix(db, task, times, now);
    if cursor.Some? && !Cursors.Refused(cursor.value, oldest, latest) {
      CursorIsExact(db, task, times, now, cursor.value);
      forall e | e in db.events && e.task == task && cursor.value < e.number <= latest
        ensures db.events[e].createdAt >= now - RETENTION_WINDOW
      {
        assert !Expired(times, e.number, now);
      }
    }
  }

  lemma BoundsKeeps(w: World, task: string)
    requires Inv(w, task) && Enabled(w, task, Bounds)
    ensures Inv(Apply(w, task, Bounds), task) && Whole(Apply(w, task, Bounds), task)
  {
    hide Cursors.Bounds, Cursors.Refused, Numbered, Chronological, GapRetained, Relay.Consistent, Top, Waiting, Filled;
    BoundsRetain(w.core.db, task, w.client.cursor, w.core.clock);
  }

  /** Whatever happened to the bridge before, a stream is unbroken right after its replay query. */
  lemma QueryKeeps(w: World, task: string)
    requires Inv(w, task) && Enabled(w, task, Query)
    ensures Inv(Apply(w, task, Query), task) && Whole(Apply(w, task, Query), task)
  {
    hide Cursors.Query, Retained, Top, Relay.Consistent, Chronological, Range, Above, GapRetained, Numbered, NoExpiry,
         Waiting;
    var db, now, next := w.core.db, w.core.clock, Apply(w, task, Query);
    var start, issued := next.conn.start, LastNumber(db, task);
    GapIsVisible(db, task, w.client.cursor, w.conn.latest, w.conn.at, now, start);
    var floor := if start < issued then issued else start;
    RangeLength(start + 1, issued + 1);
    RangeLength(start + 1, floor + 1);
    RangeLength(start + 1, start + 1);
    TopIsIssued(w.core, w.reached, task);
    ReplayIsIssued(db, task, start, now);
    WaitingIsCaught(w.conn.channel, Last(w.last, task), Top(w.core.log, w.reached, task), floor);
  }

  lemma ReplayIsIssued(db: Tables, task: string, start: int, now: int)
    ensures Issued(db, task, Cursors.Query(db, task, start, now))
  {
  }

  lemma WaitingIsCaught(channel: seq<int>, mark: int, top: int, floor: int)
    requires Waiting(channel, mark, top) && top <= floor
    ensures Caught(channel, floor, top)
  {
    var since: int :| since <= top && (mark == top || since == top) && Caught(channel, since, top);
    AboveRaised(channel, since, floor, top);
  }

  /** With nothing expiring in between, the replay query returns every number above the start. */
  lemma GapIsVisible(db: Tables, task: string, cursor: Option<int>, latest: int, at: int, now: int, start: nat)
    requires Numbered(db) && Chronological(db, now)
    requires GapRetained(db, task, cursor, latest, at) && NoExpiry(db, task, at, now)
    requires start == if cursor.Some? then cursor.value else latest
    ensures Cursors.Query(db, task, start, now) == Range(start + 1, LastNumber(db, task) + 1)
  {
    hide Cursors.Query, Retained, Times, Range;
    var times := Times(db, task);
    TimesAreChronicle(db, task, now, now);
    forall n | start < n <= |times|
      ensures !Expired(times, n, now)
    {
      assert EventId(task, n) in db.events;
    }
    ReplayIsComplete(db, task, times, now, start);
  }

  lemma WriteReplayKeeps(w: World, task: string)
    requires Inv(w, task) && Enabled(w, task, WriteReplay)
    ensures Inv(Apply(w, task, WriteReplay), task)
    ensures Whole(w, task) ==> Whole(Apply(w, task, WriteReplay), task)
  {
    hide Chronological, Relay.Inv, Top, Filled, Rising, Gapless;
    var c := w.conn;
    assert c.replay[0] in c.replay;
    WriteKeepsRising(c, c.replay[0]);
    if Whole(w, task) { ReplayKeepsGapless(c, Last(w.last, task), Top(w.core.log, w.reached, task)); }
  }

  lemma ReplayKeepsGapless(c: Conn, mark: int, top: int)
    requires c.Streaming? && c.replay != [] && c.start <= c.after && Gapless(c, mark, top)
    ensures c.replay[0] == c.after + 1
    ensures Gapless(c.(after := c.after + 1, written := c.written + [c.after + 1], replay := c.replay[1..]), mark, top)
  {
    hide Above, Range;
    RangeHead(c.after + 1, c.after + |c.replay| + 1);
    WrittenGrows(c.start, c.after, c.written);
  }

  lemma WrittenGrows(start: int, after: int, written: seq<int>)
    requires start <= after
    ensures written == Range(start + 1, after + 1) ==> written + [after + 1] == Range(start + 1, after + 2)
  {
    RangeGrows(start + 1, after + 1);
  }

  lemma WriteKeepsRising(conn: Conn, number: int)
    requires conn.Streaming? && Rising(conn.written, conn.start, conn.after) && conn.start <= conn.after
    ensures var next := Write(conn, number);
            && Rising(next.written, next.start, next.after) && conn.after <= next.after
            && forall n | n in next.written :: n == number || n in conn.written
  {
  }

  /** The live side of one write: the head of the channel is either old or exactly the next number. */
  lemma NextLive(channel: seq<int>, after: int, top: int)
    requires channel != [] && Caught(channel, after, top)
    ensures channel[0] <= after ==> Caught(channel[1..], after, top)
    ensures channel[0] > after ==> channel[0] == after + 1 <= top && Caught(channel[1..], after + 1, top)
  {
    hide Above, Range;
    AboveHead(channel, after);
    if channel[0] > after {
      assert Above(channel, after)[0] == channel[0];
      RangeLength(after + 1, top + 1);
      RangeHead(after + 1, top + 1);
      assert Above(channel[1..], after) == Range(after + 2, top + 1);
      AboveTwice(channel[1..], after, after + 1);
      AboveRange(after + 2, top, after + 1);
    } else {
      assert Above(channel[1..], after) == Above(channel, after);
    }
  }

  lemma RangeLength(from: int, to: int)
    ensures |Range(from, to)| == if from < to then to - from else 0
  {
  }

  lemma WriteLiveKeeps(w: World, task: string)
    requires Inv(w, task) && Enabled(w, task, WriteLive)
    ensures Inv(Apply(w, task, WriteLive), task)
    ensures Whole(w, task) ==> Whole(Apply(w, task, WriteLive), task)
  {
    hide Chronological, Relay.Inv, Top, Rising, Gapless;
    var c := w.conn;
    WriteKeepsRising(c, c.channel[0]);
    assert c.channel[0] in c.channel && forall n | n in c.channel[1..] :: n in c.channel;
    if Whole(w, task) { LiveKeepsGapless(c, Last(w.last, task), Top(w.core.log, w.reached, task)); }
  }

  lemma LiveKeepsGapless(c: Conn, mark: int, top: int)
    requires c.Streaming? && c.replay == [] && c.channel != [] && c.start <= c.after && Gapless(c, mark, top)
    ensures c.channel[0] <= c.after ==> Gapless(c.(channel := c.channel[1..]), mark, top)
    ensures c.channel[0] > c.after ==>
              && c.channel[0] == c.after + 1
              && Gapless(c.(after := c.after + 1, written := c.written + [c.after + 1], channel := c.channel[1..]),
                         mark, top)
  {
    hide Above, Range, Caught;
    NextLive(c.channel, c.after, top);
    WrittenGrows(c.start, c.after, c.written);
    RangeLength(c.after + 2, c.after + 2);
  }

  lemma EndKeeps(w: World, task: string, step: Step)
    requires Inv(w, task) && Enabled(w, task, step) && (step.Drop? || step.Restart?)
    ensures Inv(Apply(w, task, step), task) && Whole(Apply(w, task, step), task)
  {
    hide Chronological, Relay.Inv, Top, Waiting;
    if step.k > 0 {
      assert w.conn.written[..step.k][step.k - 1] in w.conn.written;
    }
  }

  lemma StepKeeps(w: World, task: string, step: Step)
    requires Inv(w, task) && Enabled(w, task, step)
    ensures Inv(Apply(w, task, step), task)
    ensures Whole(w, task) && StaysUnbroken(w, task, step, true) ==> Whole(Apply(w, task, step), task)
    ensures step.Query? ==> Whole(Apply(w, task, step), task)
  {
    hide Inv, Gapless, ConnInv;
    match step {
      case Core(s) => CoreKeeps(w, task, s);
      case Join => JoinKeeps(w, task);
      case Leave => LeaveKeeps(w, task);
      case Receive => ReceiveKeeps(w, task);
      case Subscribe => SubscribeKeeps(w, task);
      case Bounds => BoundsKeeps(w, task);
      case Query => QueryKeeps(w, task);
      case WriteReplay => WriteReplayKeeps(w, task);
      case WriteLive => WriteLiveKeeps(w, task);
      case Drop(_) => EndKeeps(w, task, step);
      case Restart(_) => EndKeeps(w, task, step);
    }
  }

  lemma {:induction false} RunKeeps(w: World, task: string, steps: seq<Step>, sofar: bool)
    requires Inv(w, task) && PossibleRun(w, task, steps) && (sofar ==> Whole(w, task))
    ensures Inv(Run(w, task, steps), task)
    ensures Unbroken(w, task, steps, sofar) ==> Whole(Run(w, task, steps), task)
    decreases |steps|
  {
    hide Inv, Apply, Enabled, Whole, Seamless;
    if steps != [] {
      StepKeeps(w, task, steps[0]);
      RunKeeps(Apply(w, task, steps[0]), task, steps[1..], StaysUnbroken(w, task, steps[0], sofar));
    }
  }

  lemma InitialInv(cursor: Option<int>, task: string)
    requires cursor.Some? ==> 0 <= cursor.value
    ensures Inv(Initial(cursor), task) && Whole(Initial(cursor), task)
  {
  }

  // ---------------------------------------------------------------- what one stream shows

  /** In every run, whatever the outages: a stream starts at the accepted cursor, or at the newest event
      when the request carried none, and what is written on it are issued events above that start,
      strictly increasing. */
  lemma StreamIncreases(cursor: Option<int>, task: string, steps: seq<Step>)
    requires cursor.Some? ==> 0 <= cursor.value
    requires PossibleRun(Initial(cursor), task, steps) && Run(Initial(cursor), task, steps).conn.Streaming?
    ensures var w := Run(Initial(cursor), task, steps);
            && w.conn.start == StartOf(w.client.cursor, w.conn.latest)
            && 0 <= w.conn.latest <= LastNumber(w.core.db, task)
            && Rising(w.conn.written, w.conn.start, w.conn.after)
            && (forall n | n in w.conn.written :: EventId(task, n) in w.core.db.events)
  {
    hide Inv, Whole, Rising, StartOf;
    InitialInv(cursor, task);
    RunKeeps(Initial(cursor), task, steps, true);
    StreamHolds(Run(Initial(cursor), task, steps), task);
  }

  lemma StreamHolds(w: World, task: string)
    requires Inv(w, task) && w.conn.Streaming?
    ensures w.conn.start == StartOf(w.client.cursor, w.conn.latest) && 0 <= w.conn.latest <= LastNumber(w.core.db, task)
    ensures Rising(w.conn.written, w.conn.start, w.conn.after)
    ensures forall n | n in w.conn.written :: EventId(task, n) in w.core.db.events
    ensures 0 <= w.conn.start <= w.conn.after
    ensures w.conn.after <= LastNumber(w.core.db, task) || w.conn.after == w.conn.start
  {
    hide Chronological, Top, Relay.Consistent;
    if w.conn.after != w.conn.start {
      assert w.conn.after in w.conn.written;
      assert EventId(task, w.conn.after) in w.core.db.events;
    }
  }

  /** An unbroken stream misses nothing: what has been written at any moment is the gap-free run of
      numbers right after its start, none repeated. */
  lemma StreamIsGapFree(cursor: Option<int>, task: string, steps: seq<Step>)
    requires cursor.Some? ==> 0 <= cursor.value
    requires PossibleRun(Initial(cursor), task, steps) && Run(Initial(cursor), task, steps).conn.Streaming?
    requires Unbroken(Initial(cursor), task, steps, true)
    ensures var conn := Run(Initial(cursor), task, steps).conn;
            conn.written == Range(conn.start + 1, conn.after + 1)
  {
    hide Inv, Whole, Range, Unbroken, PossibleRun, Run;
    InitialInv(cursor, task);
    RunKeeps(Initial(cursor), task, steps, true);
    WholeIsGapFree(Run(Initial(cursor), task, steps), task);
  }

  lemma WholeIsGapFree(w: World, task: string)
    requires Inv(w, task) && Whole(w, task) && w.conn.Streaming?
    ensures w.conn.written == Range(w.conn.start + 1, w.conn.after + 1)
  {
    hide Relay.Inv, ConnInv, Chronological, Range, Caught, Top;
  }

  /** Everything is drained: all events of the task are published, the bridge has received the whole
      log, and the connection has nothing left to write. */
  ghost predicate Drained(w: World, task: string) {
    && w.up && w.reached == |w.core.log|
    && w.conn.Streaming? && w.conn.replay == [] && w.conn.channel == []
    && (forall e | e in w.core.db.events && e.task == task :: Published(w.core.db.outbox, e))
  }

  /** The stream has shown every event of the task above its start, in order, each once. */
  ghost predicate Complete(w: World, task: string) {
    w.conn.Streaming? && w.conn.written == Range(w.conn.start + 1, LastNumber(w.core.db, task) + 1)
  }

  lemma DrainedIsComplete(w: World, task: string)
    requires Inv(w, task) && Whole(w, task) && Drained(w, task)
    ensures Complete(w, task)
    ensures w.conn.start < LastNumber(w.core.db, task) ==> w.conn.after == LastNumber(w.core.db, task)
  {
    hide Chronological, Above, Relay.Inv, Range, Top, Inv;
    StreamHolds(w, task);
    EverythingReceived(w, task);
    EmptyAbove(w.conn.after);
    RangeLength(w.conn.after + 1, Top(w.core.log, |w.core.log|, task) + 1);
    if w.conn.start >= LastNumber(w.core.db, task) {
      RangeLength(w.conn.start + 1, LastNumber(w.core.db, task) + 1);
      RangeLength(w.conn.start + 1, w.conn.after + 1);
    }
  }

  lemma EverythingReceived(w: World, task: string)
    requires Inv(w, task) && Drained(w, task)
    ensures Top(w.core.log, |w.core.log|, task) >= LastNumber(w.core.db, task)
  {
    hide Chronological, ConnInv, Safe, Relay.FirstCopyOrder, Top;
    var issued := LastNumber(w.core.db, task);
    TopGrows(w.core.log, 0, |w.core.log|, task);
    if issued > 0 {
      var e := EventId(task, issued);
      assert e in w.core.db.events && Published(w.core.db.outbox, e);
      assert Relay.Broadcast(w.core.log, e);
      var i :| 0 <= i < |w.core.log| && w.core.log[i] == Relay.Copy(e, true);
      TopBounds(w.core.log, |w.core.log|, task, i);
    }
  }

  lemma EmptyAbove(a: int)
    ensures Above([], a) == []
  {
  }

  // ---------------------------------------------------------------- what an outage costs

  /** No relay has sent an event of the task twice. */
  ghost predicate SentOnce(log: seq<Relay.Copy>, task: string) {
    forall i, j | 0 <= i < j < |log| && log[i].id.task == task :: log[i].id != log[j].id
  }

  /** Event `m` has gone past the stream: its copy is behind the bridge, and the stream does not have it. */
  ghost predicate Lost(w: World, task: string, m: int) {
    && w.conn.Streaming? && w.conn.start < m
    && m !in w.conn.written && m !in w.conn.replay && m !in w.conn.channel
    && exists j: nat :: j < w.reached && j < |w.core.log| && w.core.log[j].id == EventId(task, m)
  }

  /** Every number up to the top has a copy. */
  lemma {:induction false} TopIsCopied(log: seq<Relay.Copy>, upTo: nat, task: string, n: int)
    requires Relay.FirstCopyOrder(log) && upTo <= |log| && 1 <= n <= Top(log, upTo, task)
    ensures exists j: nat :: j < upTo && log[j].id == EventId(task, n)
  {
    var id := log[upTo - 1].id;
    if n <= Top(log, upTo - 1, task) {
      TopIsCopied(log, upTo - 1, task, n);
    } else {
      CopiesBelow(log, upTo - 1, n);
    }
  }

  /** A join that is not seamless loses at least the next event the stream was waiting for. */
  lemma BadJoinLoses(w: World, task: string)
    requires Inv(w, task) && Whole(w, task) && Enabled(w, task, Join) && !Seamless(w, task)
    ensures exists m :: Lost(Apply(w, task, Join), task, m)
  {
    hide Chronological, Caught, Top, Issued;
    var top := Top(w.core.log, w.reached, task);
    var m := (if Floor(w.conn) < top then top else Floor(w.conn)) + 1;
    TopIsCopied(w.core.log, |w.core.log|, task, m);
    assert forall n | n in w.conn.replay :: n <= Floor(w.conn);
    assert Lost(Apply(w, task, Join), task, m);
  }

  lemma LostStaysLost(w: World, task: string, step: Step, m: int)
    requires Inv(w, task) && Enabled(w, task, step) && Lost(w, task, m)
    requires SentOnce(Apply(w, task, step).core.log, task) && Apply(w, task, step).conn.Streaming?
    ensures Lost(Apply(w, task, step), task, m)
  {
    hide Chronological, ConnInv, Relay.Inv, Relay.Enabled, Top;
    var next := Apply(w, task, step);
    if step.Core? { Relay.StepKeeps(w.core, step.step); }
    var j: nat :| j < w.reached && j < |w.core.log| && w.core.log[j].id == EventId(task, m);
    assert next.core.log[j] == w.core.log[j];
    if step.Receive? { assert next.core.log[j].id != next.core.log[w.reached].id; }
  }

  lemma LogOnlyGrows(w: World, task: string, step: Step)
    requires Inv(w, task) && Enabled(w, task, step)
    ensures w.core.log <= Apply(w, task, step).core.log
  {
    hide ConnInv, Chronological, Relay.Inv, Relay.Enabled, Relay.Apply;
    if step.Core? { Relay.StepKeeps(w.core, step.step); }
  }

  /** A stream that is not unbroken has lost something, when nothing is sent twice. */
  ghost predicate Accounted(w: World, task: string, sofar: bool)
    requires w.reached <= |w.core.log|
  {
    if sofar then Whole(w, task) else w.conn.Streaming? ==> exists m :: Lost(w, task, m)
  }

  lemma StepAccounts(w: World, task: string, step: Step, sofar: bool)
    requires Inv(w, task) && Enabled(w, task, step) && Accounted(w, task, sofar)
    requires SentOnce(Apply(w, task, step).core.log, task)
    ensures Inv(Apply(w, task, step), task)
    ensures Accounted(Apply(w, task, step), task, StaysUnbroken(w, task, step, sofar))
  {
    hide Gapless, ConnInv, Seamless, Lost, SentOnce, Relay.Inv, Relay.Enabled, Relay.Apply, Chronological, Top;
    StepKeeps(w, task, step);
    var next := Apply(w, task, step);
    if !StaysUnbroken(w, task, step, sofar) && next.conn.Streaming? {
      if sofar {
        BadJoinLoses(w, task);
      } else {
        assert w.conn.Streaming?;
        var m :| Lost(w, task, m);
        LostStaysLost(w, task, step, m);
        assert Lost(next, task, m);
      }
    }
  }

  lemma {:induction false} RunAccounts(w: World, task: string, steps: seq<Step>, sofar: bool)
    requires Inv(w, task) && PossibleRun(w, task, steps) && Accounted(w, task, sofar)
    requires SentOnce(Run(w, task, steps).core.log, task)
    ensures Inv(Run(w, task, steps), task)
    ensures Accounted(Run(w, task, steps), task, Unbroken(w, task, steps, sofar))
    decreases |steps|
  {
    hide Inv, Apply, Enabled, Accounted, StaysUnbroken, SentOnce;
    if steps != [] {
      SentOnceBefore(w, task, steps);
      StepAccounts(w, task, steps[0], sofar);
      RunAccounts(Apply(w, task, steps[0]), task, steps[1..], StaysUnbroken(w, task, steps[0], sofar));
    }
  }

  lemma {:induction false} SentOnceBefore(w: World, task: string, steps: seq<Step>)
    requires Inv(w, task) && PossibleRun(w, task, steps) && steps != []
    requires SentOnce(Run(w, task, steps).core.log, task)
    ensures SentOnce(Apply(w, task, steps[0]).core.log, task)
  {
    hide Inv, Apply, Enabled, SentOnce;
    var next := Apply(w, task, steps[0]);
    StepKeeps(w, task, steps[0]);
    LogGrowsInRun(next, task, steps[1..]);
    SentOnceInPrefix(next.core.log, Run(next, task, steps[1..]).core.log, task);
  }

  lemma SentOnceInPrefix(log: seq<Relay.Copy>, more: seq<Relay.Copy>, task: string)
    requires log <= more && SentOnce(more, task)
    ensures SentOnce(log, task)
  {
    forall i, j | 0 <= i < j < |log| && log[i].id.task == task
      ensures log[i].id != log[j].id
    {
      assert more[i] == log[i] && more[j] == log[j];
    }
  }

  lemma {:induction false} LogGrowsInRun(w: World, task: string, steps: seq<Step>)
    requires Inv(w, task) && PossibleRun(w, task, steps)
    ensures w.core.log <= Run(w, task, steps).core.log
    decreases |steps|
  {
    hide Inv, Apply, Enabled;
    if steps != [] {
      StepKeeps(w, task, steps[0]);
      LogOnlyGrows(w, task, steps[0]);
      LogGrowsInRun(Apply(w, task, steps[0]), task, steps[1..]);
    }
  }

  /** A broken stream has a hole at every later moment: some event above its start is issued and sent, and
      neither written nor on its way (as long as no relay sends it again). */
  lemma BrokenStreamHasAGap(cursor: Option<int>, task: string, steps: seq<Step>)
    requires cursor.Some? ==> 0 <= cursor.value
    requires PossibleRun(Initial(cursor), task, steps) && Run(Initial(cursor), task, steps).conn.Streaming?
    requires SentOnce(Run(Initial(cursor), task, steps).core.log, task) && !Unbroken(Initial(cursor), task, steps, true)
    ensures exists m :: Lost(Run(Initial(cursor), task, steps), task, m)
  {
    hide Inv, Lost;
    InitialInv(cursor, task);
    RunAccounts(Initial(cursor), task, steps, true);
  }

  /** End to end. An unbroken stream is complete once everything is drained: the client has been sent
      exactly the task's events above its start, across the switch from replay to live. And when no relay
      sends an event twice, only an unbroken one is: a drained stream is complete if and only if every join
      of the bridge since its query was seamless. */
  lemma StreamIsComplete(cursor: Option<int>, task: string, steps: seq<Step>)
    requires cursor.Some? ==> 0 <= cursor.value
    requires PossibleRun(Initial(cursor), task, steps) && Drained(Run(Initial(cursor), task, steps), task)
    ensures Unbroken(Initial(cursor), task, steps, true) ==> Complete(Run(Initial(cursor), task, steps), task)
    ensures SentOnce(Run(Initial(cursor), task, steps).core.log, task) ==>
              (Complete(Run(Initial(cursor), task, steps), task) <==> Unbroken(Initial(cursor), task, steps, true))
  {
    hide Inv, Whole, Complete, Lost, SentOnce;
    var w := Run(Initial(cursor), task, steps);
    InitialInv(cursor, task);
    RunKeeps(Initial(cursor), task, steps, true);
    if Unbroken(Initial(cursor), task, steps, true) {
      DrainedIsComplete(w, task);
    } else if SentOnce(w.core.log, task) {
      RunAccounts(Initial(cursor), task, steps, true);
      var m :| Lost(w, task, m);
      LostIsIncomplete(w, task, m);
    }
  }

  lemma LostIsIncomplete(w: World, task: string, m: int)
    requires Inv(w, task) && Lost(w, task, m)
    ensures !Complete(w, task)
  {
    hide ConnInv, Chronological, Top;
    assert EventId(task, m) in w.core.db.events;
    var all := Range(w.conn.start + 1, LastNumber(w.core.db, task) + 1);
    assert all[m - w.conn.start - 1] == m;
  }

  // ---------------------------------------------------------------- across connections

  /** What the client has received over all its connections is one run of numbers, which began right after
      the cursor it was given, and its cursor is the end of it. */
  ghost predicate Resumes(first: Option<int>, client: Client) {
    if client.received == [] then client.cursor == first
    else
      && client.cursor == Some(client.received[|client.received| - 1])
      && client.received == Range(client.received[0], client.cursor.value + 1)
      && (first.Some? ==> client.received[0] == first.value + 1)
  }

  /** What the client has and what is on its present connection. */
  function Shown(w: World): seq<int> {
    w.client.received + Written(w.conn)
  }

  lemma RangeExtends(from: int, middle: int, to: int)
    requires from <= middle <= to
    ensures Range(from, middle) + Range(middle, to) == Range(from, to)
  {
  }

  lemma RangePrefix(from: int, to: int, k: nat)
    requires k <= |Range(from, to)|
    ensures Range(from, to)[..k] == Range(from, from + k)
  {
  }

  lemma PartResumes(first: Option<int>, client: Client, start: int, after: int, k: nat)
    requires Resumes(first, client) && 0 < k <= |Range(start + 1, after + 1)|
    requires client.cursor.Some? ==> start == client.cursor.value
    ensures Resumes(first, Receives(client, Range(start + 1, after + 1)[..k]))
  {
    hide Range;
    var before := client.received;
    RangePrefix(start + 1, after + 1, k);
    if before != [] {
      RangeLength(before[0], start + 1);
      RangeExtends(before[0], start + 1, start + 1 + k);
    }
  }

  lemma EndResumes(w: World, task: string, first: Option<int>, k: nat)
    requires Inv(w, task) && Whole(w, task) && Resumes(first, w.client) && k <= |Written(w.conn)|
    ensures Resumes(first, Receives(w.client, Written(w.conn)[..k]))
  {
    hide Chronological, Relay.Inv, Top, Caught, Issued, Filled, Resumes, Range;
    if k > 0 { PartResumes(first, w.client, w.conn.start, w.conn.after, k); }
    assert k == 0 ==> Written(w.conn)[..k] == [];
  }

  lemma {:induction false} RunResumes(w: World, task: string, first: Option<int>, steps: seq<Step>)
    requires Inv(w, task) && Whole(w, task) && Resumes(first, w.client)
    requires PossibleRun(w, task, steps) && AllSeamless(w, task, steps)
    ensures Inv(Run(w, task, steps), task) && Whole(Run(w, task, steps), task)
    ensures Resumes(first, Run(w, task, steps).client)
    decreases |steps|
  {
    hide Inv, Whole, Resumes, Relay.Enabled, Relay.Apply, Seamless;
    if steps != [] {
      var step := steps[0];
      StepKeeps(w, task, step);
      if step.Drop? || step.Restart? { EndResumes(w, task, first, step.k); }
      RunResumes(Apply(w, task, step), task, first, steps[1..]);
    }
  }

  /** Over any number of connections, each resumed from the last event received on the one before, with
      connections and API instances failing at any moment: when every join of the bridge was seamless, what
      the client has been shown is one gap-free run without repetitions. It starts right after the first
      cursor if there was one, and once everything is drained it reaches the newest event. */
  lemma ClientMissesNothing(cursor: Option<int>, task: string, steps: seq<Step>)
    requires cursor.Some? ==> 0 <= cursor.value
    requires PossibleRun(Initial(cursor), task, steps) && AllSeamless(Initial(cursor), task, steps)
    ensures var w := Run(Initial(cursor), task, steps); var shown := Shown(w);
            && (forall i | 0 <= i < |shown| :: shown[i] == shown[0] + i)
            && (cursor.Some? && shown != [] ==> shown[0] == cursor.value + 1)
            && (Drained(w, task) && shown != [] ==> shown[|shown| - 1] == LastNumber(w.core.db, task))
            && (Drained(w, task) && shown == [] ==> LastNumber(w.core.db, task) <= w.conn.start)
  {
    hide Inv, Whole, Resumes, Drained;
    InitialInv(cursor, task);
    assert Resumes(cursor, Initial(cursor).client) by { FreshClientResumes(cursor); }
    RunResumes(Initial(cursor), task, cursor, steps);
    var w := Run(Initial(cursor), task, steps);
    ShownIsOneRun(w, task, cursor);
    if Drained(w, task) { DrainedShowsAll(w, task, cursor); }
  }

  lemma FreshClientResumes(first: Option<int>)
    ensures Resumes(first, Client(first, []))
  {
  }

  lemma ShownIsOneRun(w: World, task: string, first: Option<int>)
    requires Inv(w, task) && Whole(w, task) && Resumes(first, w.client)
    ensures var shown := Shown(w);
            && (forall i | 0 <= i < |shown| :: shown[i] == shown[0] + i)
            && (first.Some? && shown != [] ==> shown[0] == first.value + 1)
  {
    hide Chronological, Relay.Inv, Top, Caught, Issued, Filled;
    if w.conn.Streaming? && w.client.received != [] {
      RangeExtends(w.client.received[0], w.conn.start + 1, w.conn.after + 1);
    }
  }

  lemma ReceivedIsIssued(w: World, task: string)
    requires Inv(w, task)
    ensures forall n | n in w.client.received :: n <= LastNumber(w.core.db, task)
  {
    hide Chronological, ConnInv, Top, Relay.Consistent;
    assert forall n | n in w.client.received :: EventId(task, n) in w.core.db.events;
  }

  lemma DrainedShowsAll(w: World, task: string, first: Option<int>)
    requires Inv(w, task) && Whole(w, task) && Resumes(first, w.client) && Drained(w, task)
    ensures var shown := Shown(w);
            && (shown != [] ==> shown[|shown| - 1] == LastNumber(w.core.db, task))
            && (shown == [] ==> LastNumber(w.core.db, task) <= w.conn.start)
  {
    hide Inv, Whole, Drained;
    DrainedIsComplete(w, task);
    StreamHolds(w, task);
    ReceivedIsIssued(w, task);
    var (received, written) := (w.client.received, w.conn.written);
    if received != [] && written == [] { assert received[|received| - 1] in received; }
    if written != [] { assert Shown(w)[|Shown(w)| - 1] == written[|written| - 1]; }
  }
}
