/** The bytes of a stream: the frames a connection writes, and how an EventSource client reads them
    back (sections 9.2.5 and 9.2.6 of the WHATWG HTML Living Standard). */
module Streams {
  import opened Domain
  import Cursors
  import Live

  datatype Frame = Metrics(task: string, number: nat, payload: string) | Ping(data: string)

  /** The non-empty lines of a frame; a blank line follows them. */
  function Fields(f: Frame): seq<string> {
    match f
    case Metrics(task, number, payload) =>
      ["event: metrics", "id: " + Cursors.EventID(task, number), "data: " + payload]
    case Ping(data) => ["event: ping", "data: " + data]
  }

  function Terminated(lines: seq<string>): string {
    if lines == [] then "" else lines[0] + ['\n'] + Terminated(lines[1..])
  }

  function Text(f: Frame): string {
    Terminated(Fields(f)) + ['\n']
  }

  function Wire(frames: seq<Frame>): string {
    if frames == [] then "" else Wire(frames[..|frames| - 1]) + Text(frames[|frames| - 1])
  }

  // ---------------------------------------------------------------- the client

  /** The complete lines of a text; a line ends in CR LF, LF or CR. */
  function Lines(text: string): seq<string> {
    SplitLines("", text)
  }

  function SplitLines(line: string, text: string): seq<string>
    decreases |text|
  {
    if text == [] then []
    else if text[0] == '\n' then [line] + SplitLines("", text[1..])
    else if text[0] == '\r' then [line] + SplitLines("", text[if |text| > 1 && text[1] == '\n' then 2 else 1..])
    else SplitLines(line + [text[0]], text[1..])
  }

  datatype Message = Message(kind: string, data: string, id: string)

  /** The parser's three buffers, the last event id that a reconnect would send, and what it dispatched. */
  datatype Client = Client(data: string, kind: string, idBuffer: string, lastId: string, got: seq<Message>)

  /** Field name and value of a line: split at the first colon, less one leading space of the value. */
  function Field(line: string): (string, string) {
    if line == [] then ([], [])
    else if line[0] == ':' then ([], if |line| > 1 && line[1] == ' ' then line[2..] else line[1..])
    else var (name, value) := Field(line[1..]); ([line[0]] + name, value)
  }

  function Process(c: Client, line: string): Client {
    if line == [] then
      if c.data == [] then c.(kind := "", lastId := c.idBuffer)
      else c.(data := "", kind := "", lastId := c.idBuffer,
              got := c.got + [Message(if c.kind == "" then "message" else c.kind, c.data[..|c.data| - 1], c.idBuffer)])
    else
      var (name, value) := Field(line);
      if name == "event" then c.(kind := value)
      else if name == "data" then c.(data := c.data + value + ['\n'])
      else if name == "id" && '\0' !in value then c.(idBuffer := value)
      else c
  }

  function ProcessAll(c: Client, lines: seq<string>): Client
    decreases |lines|
  {
    if lines == [] then c else ProcessAll(Process(c, lines[0]), lines[1..])
  }

  /** What a client has after reading a text on a fresh connection. `carried` is where its id buffer
      starts, `lastId` the id it connected with. */
  function Read(carried: string, lastId: string, text: string): Client {
    ProcessAll(Client("", "", carried, lastId, []), Lines(text))
  }

  // ---------------------------------------------------------------- framing round trip

  predicate OneLine(text: string) {
    '\n' !in text && '\r' !in text
  }

  lemma {:induction false} FirstLine(line: string, start: string, rest: string)
    requires OneLine(start)
    ensures SplitLines(line, start + ['\n'] + rest) == [line + start] + Lines(rest)
    decreases |start|
  {
    var text := start + ['\n'] + rest;
    if start == [] {
      assert text[1..] == rest && line + start == line;
    } else {
      assert text[1..] == start[1..] + ['\n'] + rest;
      FirstLine(line + [start[0]], start[1..], rest);
      assert line + [start[0]] + start[1..] == line + start;
    }
  }

  lemma {:induction false} ProcessConcat(c: Client, a: seq<string>, b: seq<string>)
    ensures ProcessAll(c, a + b) == ProcessAll(ProcessAll(c, a), b)
    decreases |a|
  {
    if a == [] {
      assert a + b == b;
    } else {
      assert (a + b)[1..] == a[1..] + b;
      ProcessConcat(Process(c, a[0]), a[1..], b);
    }
  }

  lemma {:induction false} FieldOf(name: string, value: string)
    requires ':' !in name
    ensures Field(name + ":" + [' '] + value) == (name, value)
  {
    var line := name + ":" + [' '] + value;
    if name == [] {
      assert line[2..] == value;
    } else {
      assert line[1..] == name[1..] + ":" + [' '] + value;
      FieldOf(name[1..], value);
      assert name == [name[0]] + name[1..];
    }
  }

  predicate WellFormed(f: Frame) {
    match f
    case Metrics(task, _, payload) => OneLine(task) && '\0' !in task && OneLine(payload)
    case Ping(data) => OneLine(data)
  }

  function MessageOf(f: Frame, lastId: string): Message {
    match f
    case Metrics(task, number, payload) => Message("metrics", payload, Cursors.EventID(task, number))
    case Ping(data) => Message("ping", data, lastId)
  }

  /** The id buffer after whole frames: the id of the last metrics frame, if there was one. */
  function IdAfter(frames: seq<Frame>, carried: string): string {
    if frames == [] then carried
    else
      match frames[|frames| - 1]
      case Metrics(task, number, _) => Cursors.EventID(task, number)
      case Ping(_) => IdAfter(frames[..|frames| - 1], carried)
  }

  function Messages(frames: seq<Frame>, carried: string): seq<Message> {
    if frames == [] then []
    else
      var init := frames[..|frames| - 1];
      Messages(init, carried) + [MessageOf(frames[|frames| - 1], IdAfter(init, carried))]
  }

  /** A client that has read whole frames. */
  function Reader(frames: seq<Frame>, carried: string, lastId: string): Client {
    var id := IdAfter(frames, carried);
    Client("", "", id, if frames == [] then lastId else id, Messages(frames, carried))
  }

  lemma LineThenRest(line: string, rest: string)
    requires OneLine(line)
    ensures Lines(line + ['\n'] + rest) == [line] + Lines(rest)
  {
    hide SplitLines;
    FirstLine("", line, rest);
    assert "" + line == line;
  }

  lemma Associates<T>(a: seq<T>, b: seq<T>, c: seq<T>)
    ensures (a + b) + c == a + (b + c)
  {
  }

  lemma {:induction false} TerminatedLines(lines: seq<string>, rest: string)
    requires forall line | line in lines :: OneLine(line)
    ensures Lines(Terminated(lines) + rest) == lines + Lines(rest)
  {
    hide Lines, OneLine;
    if lines == [] {
      assert "" + rest == rest && lines + Lines(rest) == Lines(rest);
    } else {
      var more := Terminated(lines[1..]) + rest;
      Associates(lines[0] + ['\n'], Terminated(lines[1..]), rest);
      LineThenRest(lines[0], more);
      TerminatedLines(lines[1..], rest);
      Associates([lines[0]], lines[1..], Lines(rest));
      assert [lines[0]] + lines[1..] == lines;
    }
  }

  lemma FieldsAreLines(f: Frame)
    requires WellFormed(f)
    ensures forall line | line in Fields(f) :: OneLine(line) && line != ""
  {
    hide Cursors.EventID;
    match f
    case Metrics(task, number, _) => IdIsOneLine(task, number);
    case Ping(_) =>
  }

  /** Lines of a frame, whatever follows it. */
  lemma FrameLines(f: Frame, rest: string)
    requires WellFormed(f)
    ensures Lines(Text(f) + rest) == Fields(f) + [""] + Lines(rest)
  {
    hide SplitLines, Fields, Terminated;
    FieldsAreLines(f);
    var more := "" + ['\n'] + rest;
    assert Text(f) + rest == Terminated(Fields(f)) + more;
    TerminatedLines(Fields(f), more);
    FirstLine("", "", rest);
    assert "" + "" == "";
    assert Fields(f) + ([""] + Lines(rest)) == Fields(f) + [""] + Lines(rest);
  }

  lemma IdIsOneLine(task: string, number: nat)
    requires OneLine(task) && '\0' !in task
    ensures OneLine("id: " + Cursors.EventID(task, number)) && '\0' !in Cursors.EventID(task, number)
  {
    hide Cursors.Itoa;
    assert forall c | c in Cursors.Itoa(number) :: Cursors.IsDigit(c);
  }

  /** A client between frames reads one frame as one message. */
  lemma FrameRead(c: Client, f: Frame, rest: string)
    requires WellFormed(f) && c.data == "" && c.kind == ""
    ensures var m := MessageOf(f, c.idBuffer);
            ProcessAll(c, Lines(Text(f) + rest)) == ProcessAll(Client("", "", m.id, m.id, c.got + [m]), Lines(rest))
  {
    hide Cursors.EventID, Lines, Process, Text;
    FrameLines(f, rest);
    match f
    case Metrics(task, number, payload) =>
      var id := Cursors.EventID(task, number);
      IdIsOneLine(task, number);
      var lines := ["event: metrics", "id: " + id, "data: " + payload, ""];
      assert Fields(f) + [""] == lines;
      ProcessConcat(c, lines, Lines(rest));
      FourLines(c, lines[0], lines[1], lines[2], lines[3]);
      assert "event: " + "metrics" == lines[0];
      EventLine(c, "metrics");
      IdLine(c.(kind := "metrics"), id);
      DataThenBlank(c.(kind := "metrics", idBuffer := id), payload);
    case Ping(data) =>
      var lines := ["event: ping", "data: " + data, ""];
      assert Fields(f) + [""] == lines;
      ProcessConcat(c, lines, Lines(rest));
      ThreeLines(c, lines[0], lines[1], lines[2]);
      assert "event: " + "ping" == lines[0];
      EventLine(c, "ping");
      DataThenBlank(c.(kind := "ping"), data);
  }

  lemma FieldLine(name: string, value: string)
    requires ':' !in name && name != ""
    ensures name + ": " + value != "" && Field(name + ": " + value) == (name, value)
  {
    FieldOf(name, value);
    assert name + ": " + value == name + ":" + [' '] + value;
  }

  lemma FourLines(c: Client, a: string, b: string, d: string, e: string)
    ensures ProcessAll(c, [a, b, d, e]) == Process(Process(Process(Process(c, a), b), d), e)
  {
    hide Process;
    assert [a, b, d, e][1..] == [b, d, e];
    ThreeLines(Process(c, a), b, d, e);
  }

  lemma ThreeLines(c: Client, a: string, b: string, d: string)
    ensures ProcessAll(c, [a, b, d]) == Process(Process(Process(c, a), b), d)
  {
    hide Process;
    assert [a, b, d][1..] == [b, d] && [b, d][1..] == [d] && [d][1..] == [];
    var one := Process(c, a);
    var two := Process(one, b);
    assert ProcessAll(one, [b, d]) == ProcessAll(two, [d]);
    assert ProcessAll(two, [d]) == ProcessAll(Process(two, d), []);
  }

  /** The last three lines of a frame: data, then the blank line that dispatches. */
  lemma DataThenBlank(c: Client, data: string)
    requires c.data == ""
    ensures Process(Process(c, "data: " + data), "")
         == c.(data := "", kind := "", lastId := c.idBuffer,
               got := c.got + [Message(if c.kind == "" then "message" else c.kind, data, c.idBuffer)])
  {
    hide Field;
    FieldLine("data", data);
    assert "data" + ": " + data == "data: " + data;
    var after := c.(data := data + ['\n']);
    assert "" + data + ['\n'] == data + ['\n'] && (data + ['\n'])[..|data|] == data;
    assert Process(c, "data: " + data) == after;
  }

  lemma EventLine(c: Client, kind: string)
    ensures Process(c, "event: " + kind) == c.(kind := kind)
  {
    hide Field;
    FieldLine("event", kind);
    assert "event" + ": " + kind == "event: " + kind;
  }

  lemma IdLine(c: Client, id: string)
    requires '\0' !in id
    ensures Process(c, "id: " + id) == c.(idBuffer := id)
  {
    hide Field;
    FieldLine("id", id);
    assert "id" + ": " + id == "id: " + id;
  }

  ghost predicate AllWellFormed(frames: seq<Frame>) {
    forall i | 0 <= i < |frames| :: WellFormed(frames[i])
  }

  lemma {:induction false} ReadBack(frames: seq<Frame>, carried: string, lastId: string, rest: string)
    requires AllWellFormed(frames)
    ensures ProcessAll(Client("", "", carried, lastId, []), Lines(Wire(frames) + rest))
         == ProcessAll(Reader(frames, carried, lastId), Lines(rest))
    decreases |frames|
  {
    hide Lines, Text, MessageOf, Process;
    if frames == [] {
      assert "" + rest == rest;
    } else {
      var init, f := frames[..|frames| - 1], frames[|frames| - 1];
      assert Wire(frames) + rest == Wire(init) + (Text(f) + rest);
      ReadBack(init, carried, lastId, Text(f) + rest);
      FrameRead(Reader(init, carried, lastId), f, rest);
      IdOfMessage(f, init, carried);
      assert init + [f] == frames;
    }
  }

  lemma IdOfMessage(f: Frame, init: seq<Frame>, carried: string)
    ensures MessageOf(f, IdAfter(init, carried)).id == IdAfter(init + [f], carried)
  {
    assert (init + [f])[..|init|] == init;
  }

  lemma {:induction false} LinesOfPrefix(line: string, a: string, b: string)
    requires '\r' !in a
    ensures SplitLines(line, a) <= SplitLines(line, a + b)
    decreases |a|
  {
    if a != [] {
      assert (a + b)[1..] == a[1..] + b;
      LinesOfPrefix(if a[0] == '\n' then "" else line + [a[0]], a[1..], b);
    }
  }

  lemma {:induction false} NothingDispatched(c: Client, lines: seq<string>)
    requires "" !in lines
    ensures ProcessAll(c, lines).got == c.got && ProcessAll(c, lines).lastId == c.lastId
    decreases |lines|
  {
    if lines != [] {
      hide Field;
      NothingDispatched(Process(c, lines[0]), lines[1..]);
    }
  }

  /** A frame that breaks off before its end dispatches nothing and moves no cursor. */
  lemma BrokenFrame(c: Client, f: Frame, cut: nat)
    requires WellFormed(f) && cut < |Text(f)|
    ensures var after := ProcessAll(c, Lines(Text(f)[..cut])); after.got == c.got && after.lastId == c.lastId
  {
    hide Process, SplitLines, Fields;
    var whole, part := Terminated(Fields(f)), Text(f)[..cut];
    FieldsAreLines(f);
    TerminatedLines(Fields(f), "");
    NoLines();
    NoReturns(Fields(f));
    assert whole + "" == whole == part + whole[cut..];
    LinesOfPrefix("", part, whole[cut..]);
    assert forall line | line in Lines(part) :: line in Lines(whole);
    NothingDispatched(c, Lines(part));
  }

  lemma {:induction false} NoReturns(lines: seq<string>)
    requires forall line | line in lines :: OneLine(line)
    ensures '\r' !in Terminated(lines)
  {
    if lines != [] {
      assert OneLine(lines[0]) && '\r' != '\n';
      NoReturns(lines[1..]);
    }
  }

  lemma NoLines()
    ensures Lines("") == []
  {
  }

  /** Framing round trip, cut anywhere: when the connection breaks after any number of bytes, the
      client has dispatched exactly the frames that arrived whole, in order, each metrics frame with
      its payload and id; and the id it would reconnect with is that of the last of them. */
  lemma StreamRoundTrip(frames: seq<Frame>, next: Frame, cut: nat, carried: string, lastId: string)
    requires AllWellFormed(frames) && WellFormed(next) && cut < |Text(next)|
    ensures var c := Read(carried, lastId, Wire(frames) + Text(next)[..cut]);
            && c.got == Messages(frames, carried)
            && c.lastId == if frames == [] then lastId else IdAfter(frames, carried)
  {
    hide Lines, Text;
    ReadBack(frames, carried, lastId, Text(next)[..cut]);
    BrokenFrame(Reader(frames, carried, lastId), next, cut);
  }

  /** So a client on a connection that broke in the middle of its plan has dispatched exactly the frames
      written whole; the broken one counts when nothing of it was missing. */
  lemma BrokenPlanIsRead(plan: seq<Frame>, n: nat, chars: nat, carried: string, lastId: string)
    requires AllWellFormed(plan) && n < |plan|
    ensures var c := Read(carried, lastId, Wire(plan[..n]) + Prefix(plan[n], chars));
            var got := plan[..if chars < |Text(plan[n])| then n else n + 1];
            c.got == Messages(got, carried) && c.lastId == if got == [] then lastId else IdAfter(got, carried)
  {
    hide Text;
    var next := Ping("");
    if chars < |Text(plan[n])| {
      StreamRoundTrip(plan[..n], plan[n], chars, carried, lastId);
    } else {
      PingHasText();
      assert plan[..n + 1][..n] == plan[..n];
      StreamRoundTrip(plan[..n + 1], next, 0, carried, lastId);
      assert Wire(plan[..n + 1]) + Text(next)[..0] == Wire(plan[..n]) + Text(plan[n]);
    }
  }

  lemma PingHasText()
    ensures |Text(Ping(""))| > 0
  {
  }

  /** The client of a stream of one task that has received at least one event reconnects with a header
      that the server reads as the number of the last event it received. */
  lemma {:induction false} ReconnectResumes(frames: seq<Frame>, task: string, carried: string)
    requires ':' !in task && MetricNumbers(frames) != []
    requires forall f | f in frames && f.Metrics? :: f.task == task && f.number <= MAX_INT64
    ensures var numbers := MetricNumbers(frames);
            Cursors.ParseLastEventID(IdAfter(frames, carried), task) == Cursors.At(numbers[|numbers| - 1])
    decreases |frames|
  {
    hide Cursors.ParseLastEventID, Cursors.EventID;
    var f := frames[|frames| - 1];
    match f
    case Metrics(_, number, _) => Cursors.CursorRoundTrip(task, task, number);
    case Ping(_) => ReconnectResumes(frames[..|frames| - 1], task, carried);
  }

  /** Heartbeats carry no id: a client that received only heartbeats reconnects with whatever its id
      buffer started with, so it keeps its cursor if and only if the buffer carried it over. */
  lemma {:induction false} HeartbeatsCarryNoId(frames: seq<Frame>, carried: string)
    requires MetricNumbers(frames) == []
    ensures IdAfter(frames, carried) == carried
    decreases |frames|
  {
    if frames != [] { HeartbeatsCarryNoId(frames[..|frames| - 1], carried); }
  }

  /** The numbers of the metrics frames. */
  function MetricNumbers(frames: seq<Frame>): (r: seq<nat>)
  {
    if frames == [] then []
    else
      var f := frames[|frames| - 1];
      MetricNumbers(frames[..|frames| - 1]) + if f.Metrics? then [f.number] else []
  }

  // ---------------------------------------------------------------- the connection

  datatype Event = Event(task: string, number: int, payload: string)

  /** What reaches the serving loop: an event from the hub, a heartbeat, or the end of the request. */
  datatype Input = FromHub(event: Event) | Heartbeat(millis: nat) | HubClosed | RequestDone

  predicate IsSpace(c: char) {
    c in "\t\n\r \U{b}\U{c}\U{85}\U{a0}\U{1680}\U{2028}\U{2029}\U{202f}\U{205f}\U{3000}"
        || '\U{2000}' <= c <= '\U{200a}'
  }

  function TrimLeft(text: string): string {
    if text != [] && IsSpace(text[0]) then TrimLeft(text[1..]) else text
  }

  function TrimRight(text: string): string {
    if text != [] && IsSpace(text[|text| - 1]) then TrimRight(text[..|text| - 1]) else text
  }

  /** The characters with the Unicode property White_Space. */
  const SPACES :=
    "\t\n\U{b}\U{c}\r \U{85}\U{a0}\U{1680}"
    + "\U{2000}\U{2001}\U{2002}\U{2003}\U{2004}\U{2005}\U{2006}\U{2007}\U{2008}\U{2009}\U{200a}"
    + "\U{2028}\U{2029}\U{202f}\U{205f}\U{3000}"

  lemma SpacesAre(c: char)
    ensures IsSpace(c) <==> c in SPACES
  {
  }

  predicate AllSpace(text: string) {
    forall i | 0 <= i < |text| :: IsSpace(text[i])
  }

  lemma {:induction false} LeftTrimmed(text: string) returns (left: string)
    ensures text == left + TrimLeft(text) && AllSpace(left)
    ensures TrimLeft(text) != [] ==> !IsSpace(TrimLeft(text)[0])
  {
    hide IsSpace;
    left := [];
    if text != [] && IsSpace(text[0]) {
      var rest := LeftTrimmed(text[1..]);
      left := [text[0]] + rest;
    }
  }

  lemma {:induction false} RightTrimmed(text: string) returns (right: string)
    ensures text == TrimRight(text) + right && AllSpace(right)
    ensures TrimRight(text) != [] ==> !IsSpace(TrimRight(text)[|TrimRight(text)| - 1]) && TrimRight(text)[0] == text[0]
  {
    hide IsSpace;
    right := [];
    if text != [] && IsSpace(text[|text| - 1]) {
      var front := text[..|text| - 1];
      var rest := RightTrimmed(front);
      right := rest + [text[|text| - 1]];
      assert text == front + [text[|text| - 1]] == TrimRight(front) + right;
    }
  }

  /** A payload is sent without the white space around it and otherwise as it is. */
  lemma PayloadIsTrimmed(event: Event) returns (left: string, right: string)
    requires event.number >= 0
    ensures FrameOf(event).Metrics? && FrameOf(event).task == event.task && FrameOf(event).number == event.number
    ensures var sent := FrameOf(event).payload;
            && event.payload == left + sent + right && AllSpace(left) && AllSpace(right)
            && (sent != [] ==> !IsSpace(sent[0]) && !IsSpace(sent[|sent| - 1]))
  {
    hide TrimLeft, TrimRight, IsSpace;
    left := LeftTrimmed(event.payload);
    right := RightTrimmed(TrimLeft(event.payload));
  }

  /** The numbers that writeEvent lets through, in order, when the cursor stands at `after`. */
  function Passing(after: int, numbers: seq<int>): seq<int>
    decreases |numbers|
  {
    if numbers == [] then []
    else if numbers[0] <= after then Passing(after, numbers[1..])
    else [numbers[0]] + Passing(numbers[0], numbers[1..])
  }

  function Highest(after: int, numbers: seq<int>): int
    decreases |numbers|
  {
    if numbers == [] then after else Highest(if numbers[0] <= after then after else numbers[0], numbers[1..])
  }

  lemma {:induction false} PassingSnoc(after: int, numbers: seq<int>, n: int)
    ensures Highest(after, numbers + [n]) == if n <= Highest(after, numbers) then Highest(after, numbers) else n
    ensures Passing(after, numbers + [n]) == Passing(after, numbers) + if n <= Highest(after, numbers) then [] else [n]
    decreases |numbers|
  {
    if numbers == [] {
      assert numbers + [n] == [n] && [n][1..] == [];
    } else {
      assert (numbers + [n])[1..] == numbers[1..] + [n];
      PassingSnoc(if numbers[0] <= after then after else numbers[0], numbers[1..], n);
    }
  }

  ghost predicate IncreasingAbove(numbers: seq<int>, low: int) {
    && (forall i | 0 <= i < |numbers| :: numbers[i] > low)
    && (forall i, j | 0 <= i < j < |numbers| :: numbers[i] < numbers[j])
  }

  lemma IncreasingCons(n: int, rest: seq<int>, low: int)
    requires IncreasingAbove(rest, n) && n > low
    ensures IncreasingAbove([n] + rest, low)
  {
  }

  /** What is written strictly increases and lies above the cursor, whatever comes in. */
  lemma {:induction false} PassingIncreases(after: int, numbers: seq<int>)
    ensures IncreasingAbove(Passing(after, numbers), after)
    decreases |numbers|
  {
    hide IncreasingAbove;
    if numbers == [] {
      NothingIncreases(after);
    } else if numbers[0] <= after {
      PassingIncreases(after, numbers[1..]);
    } else {
      PassingIncreases(numbers[0], numbers[1..]);
      IncreasingCons(numbers[0], Passing(numbers[0], numbers[1..]), after);
    }
  }

  lemma NothingIncreases(low: int)
    ensures IncreasingAbove([], low)
  {
  }

  function Numbers(events: seq<Event>): (r: seq<int>)
    ensures |r| == |events|
  {
    seq(|events|, i requires 0 <= i < |events| => events[i].number)
  }

  /** The events among the inputs up to the first end of the request. */
  function FromHubOnly(inputs: seq<Input>): seq<Event> {
    if inputs == [] || inputs[0].HubClosed? || inputs[0].RequestDone? then []
    else (if inputs[0].FromHub? then [inputs[0].event] else []) + FromHubOnly(inputs[1..])
  }

  function FrameOf(event: Event): Frame
    requires event.number >= 0
  {
    Metrics(event.task, event.number, TrimRight(TrimLeft(event.payload)))
  }

  function PingOf(millis: nat): Frame {
    Ping("{\"ts\":" + Cursors.Itoa(millis) + "}")
  }

  /** The frame one input asks for when the cursor stands at `after`, if any. */
  function Asked(after: nat, input: Input): seq<Frame> {
    match input
    case FromHub(event) => if event.number <= after then [] else [FrameOf(event)]
    case Heartbeat(millis) => [PingOf(millis)]
    case _ => []
  }

  function Moved(after: nat, input: Input): nat {
    if input.FromHub? && input.event.number > after then input.event.number else after
  }

  /** Everything a connection writes for these inputs as long as no write fails. */
  function Planned(after: nat, inputs: seq<Input>): seq<Frame>
    decreases |inputs|
  {
    if inputs == [] || inputs[0].HubClosed? || inputs[0].RequestDone? then []
    else Asked(after, inputs[0]) + Planned(Moved(after, inputs[0]), inputs[1..])
  }

  function MovedAll(after: nat, inputs: seq<Input>): nat
    decreases |inputs|
  {
    if inputs == [] || inputs[0].HubClosed? || inputs[0].RequestDone? then after
    else MovedAll(Moved(after, inputs[0]), inputs[1..])
  }

  function Replayed(replay: seq<Event>): (r: seq<Input>)
    ensures |r| == |replay| && forall i | 0 <= i < |r| :: r[i] == FromHub(replay[i])
  {
    seq(|replay|, i requires 0 <= i < |replay| => FromHub(replay[i]))
  }

  lemma {:induction false} NumbersOfFrames(a: seq<Frame>, b: seq<Frame>)
    ensures MetricNumbers(a + b) == MetricNumbers(a) + MetricNumbers(b)
    decreases |b|
  {
    if b == [] {
      assert a + b == a;
    } else {
      var init := b[..|b| - 1];
      NumbersOfFrames(a, init);
      assert (a + b)[..|a + b| - 1] == a + init;
    }
  }

  lemma AskedNumbers(after: nat, input: Input)
    ensures MetricNumbers(Asked(after, input)) ==
            if input.FromHub? && input.event.number > after then [input.event.number] else []
  {
    hide TrimLeft, TrimRight;
    assert forall f: Frame :: [f][..0] == [];
    assert MetricNumbers([]) == [];
  }

  /** The metrics frames planned for replay and live inputs are the events above the moving cursor. */
  lemma {:induction false} PlannedNumbers(after: nat, inputs: seq<Input>)
    ensures MetricNumbers(Planned(after, inputs)) == Passing(after, Numbers(FromHubOnly(inputs)))
    ensures MovedAll(after, inputs) == Highest(after, Numbers(FromHubOnly(inputs)))
    decreases |inputs|
  {
    hide Asked, MetricNumbers;
    if inputs == [] || inputs[0].HubClosed? || inputs[0].RequestDone? {
      NothingServed(after);
    } else {
      var rest := FromHubOnly(inputs[1..]);
      PlannedNumbers(Moved(after, inputs[0]), inputs[1..]);
      AskedNumbers(after, inputs[0]);
      NumbersOfFrames(Asked(after, inputs[0]), Planned(Moved(after, inputs[0]), inputs[1..]));
      if inputs[0].FromHub? {
        assert Numbers([inputs[0].event] + rest)[0] == inputs[0].event.number;
        assert Numbers([inputs[0].event] + rest)[1..] == Numbers(rest);
      } else {
        assert [] + rest == rest;
      }
    }
  }

  lemma NothingServed(start: int)
    ensures MetricNumbers([]) == [] && Passing(start, Numbers([])) == [] && Highest(start, Numbers([])) == start
  {
  }

  lemma {:induction false} ReplayThenLive(replay: seq<Event>, inputs: seq<Input>)
    ensures FromHubOnly(Replayed(replay) + inputs) == replay + FromHubOnly(inputs)
    decreases |replay|
  {
    if replay == [] {
      assert Replayed(replay) + inputs == inputs;
    } else {
      hide FromHubOnly;
      ReplayThenLive(replay[1..], inputs);
      HubFirst(replay[0], Replayed(replay[1..]) + inputs);
      assert Replayed(replay) + inputs == [FromHub(replay[0])] + (Replayed(replay[1..]) + inputs);
      assert replay + FromHubOnly(inputs) == [replay[0]] + (replay[1..] + FromHubOnly(inputs));
    }
  }

  lemma HubFirst(event: Event, rest: seq<Input>)
    ensures FromHubOnly([FromHub(event)] + rest) == [event] + FromHubOnly(rest)
  {
    assert ([FromHub(event)] + rest)[1..] == rest;
  }

  /** A write: it goes through, or breaks off after so many characters. */
  datatype Wrote = Whole | Cut(chars: nat)

  class Connection {
    const task: string
    var after: nat
    /** Everything written to the client. */
    var out: string
    var frames: seq<Frame>

    constructor (task: string, start: nat)
      ensures this.task == task && after == start && out == "" && frames == []
    {
      this.task, after, out, frames := task, start, "", [];
    }

    method Write(f: Frame, w: Wrote) returns (ok: bool)
      modifies this`out, this`frames
      ensures ok == w.Whole?
      ensures out == old(out) + if ok then Text(f) else Prefix(f, w.chars)
      ensures frames == old(frames) + if ok then [f] else []
    {
      ok := w.Whole?;
      var text := Text(f);
      out := out + if ok then text else text[..if w.chars < |text| then w.chars else |text|];
      frames := frames + if ok then [f] else [];
    }

    /** At or below the cursor: dropped. Above it: written, and the cursor moves. */
    method WriteEvent(event: Event, w: Wrote) returns (ok: bool)
      modifies this`after, this`out, this`frames
      ensures var asked := Asked(old(after), FromHub(event));
              && (ok <==> asked == [] || w.Whole?)
              && frames == old(frames) + (if ok then asked else [])
              && after == (if ok then Moved(old(after), FromHub(event)) else old(after))
              && out == old(out) + if asked == [] then "" else if ok then Text(asked[0]) else Prefix(asked[0], w.chars)
    {
      if event.number <= after {
        return true;
      }
      ok := Write(Metrics(event.task, event.number, TrimRight(TrimLeft(event.payload))), w);
      if ok {
        after := event.number;
      }
    }

    /** The replay, then the live loop; `wire` says how the i-th write goes. The output is exactly the
        planned frames up to the first write that breaks, and the broken part of that one. */
    method Serve(replay: seq<Event>, inputs: seq<Input>, wire: nat -> Wrote) returns (ok: bool)
      requires frames == [] && out == ""
      modifies this
      ensures var plan := Planned(old(after), Replayed(replay) + inputs);
              frames <= plan && (forall i: nat | i < |frames| :: wire(i).Whole?) && (ok <==> |frames| == |plan|)
      ensures ok ==> out == Wire(frames) && after == MovedAll(old(after), Replayed(replay) + inputs)
      ensures !ok ==> wire(|frames|).Cut?
      ensures !ok ==>
                var next := Planned(old(after), Replayed(replay) + inputs)[|frames|];
                out == Wire(frames) + Prefix(next, wire(|frames|).chars)
    {
      hide Planned, MovedAll, Wire, Text, Asked, Prefix;
      var items := Replayed(replay) + inputs;
      ghost var plan, goal := Planned(after, items), MovedAll(after, items);
      assert items[0..] == items && Wire([]) == "" by { NoFrames(); }
      for index := 0 to |items|
        invariant frames + Planned(after, items[index..]) == plan && MovedAll(after, items[index..]) == goal
        invariant out == Wire(frames) && forall i: nat | i < |frames| :: wire(i).Whole?
      {
        PlanStep(after, items, index, frames);
        match items[index] {
          case FromHub(event) =>
            ok := WriteEvent(event, wire(|frames|));
          case Heartbeat(millis) =>
            ok := Write(Ping("{\"ts\":" + Cursors.Itoa(millis) + "}"), wire(|frames|));
          case HubClosed =>
            return true;
          case RequestDone =>
            return true;
        }
        if !ok {
          return;
        }
      }
      assert items[|items|..] == [];
      PlanEnd(after);
      ok := true;
    }
  }

  /** As much of a frame as a broken write sends. */
  function Prefix(f: Frame, chars: nat): string {
    if chars < |Text(f)| then Text(f)[..chars] else Text(f)
  }

  lemma NoFrames()
    ensures Wire([]) == ""
  {
  }

  lemma PlanEnd(after: nat)
    ensures Planned(after, []) == [] && MovedAll(after, []) == after
  {
  }

  lemma PlanStep(after: nat, items: seq<Input>, index: nat, frames: seq<Frame>)
    requires index < |items|
    ensures var (input, asked, next) := (items[index], Asked(after, items[index]), items[index + 1..]);
            && |asked| <= 1 && (input.Heartbeat? ==> asked == [PingOf(input.millis)])
            && (input.HubClosed? || input.RequestDone? ==>
                Planned(after, items[index..]) == [] && MovedAll(after, items[index..]) == after)
            && (input.FromHub? || input.Heartbeat? ==>
                 && Planned(after, items[index..]) == asked + Planned(Moved(after, input), next)
                 && MovedAll(after, items[index..]) == MovedAll(Moved(after, input), next)
                 && frames + Planned(after, items[index..]) == frames + asked + Planned(Moved(after, input), next))
            && (asked != [] ==> Wire(frames + asked) == Wire(frames) + Text(asked[0]))
            && frames + [] == frames
  {
    hide Text, TrimLeft, TrimRight;
    var asked := Asked(after, items[index]);
    assert items[index..][1..] == items[index + 1..] && items[index..][0] == items[index];
    if asked != [] {
      assert frames + asked == frames + [asked[0]];
      assert (frames + asked)[..|frames|] == frames;
    }
  }

  /** The connection of the end-to-end model writes by the same rule. */
  function WriteAll(conn: Live.Conn, numbers: seq<int>): Live.Conn
    requires conn.Streaming?
    decreases |numbers|
  {
    if numbers == [] then conn else WriteAll(Live.Write(conn, numbers[0]), numbers[1..])
  }

  lemma {:induction false} LiveWritesAlike(conn: Live.Conn, numbers: seq<int>)
    requires conn.Streaming?
    ensures WriteAll(conn, numbers) ==
            conn.(after := Highest(conn.after, numbers), written := conn.written + Passing(conn.after, numbers))
    decreases |numbers|
  {
    if numbers == [] {
      assert conn.written + [] == conn.written;
    } else {
      LiveWritesAlike(Live.Write(conn, numbers[0]), numbers[1..]);
    }
  }
}
