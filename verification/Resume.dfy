/** When a request is accepted, and that an accepted one can always catch up with everything. */
module Resumptions {
  import opened Cursors
  import opened Domain
  import opened Live
  import opened Outbox
  import opened Store
  import Bridge
  import Leader
  import Leases
  import Outages
  import Relay

  // ---------------------------------------------------------------- the handshake

  /** Some issued event of the task above the cursor is older than the retention window. */
  ghost predicate GapExpired(db: Tables, task: string, cursor: int, now: int) {
    exists e :: e in db.events && e.task == task && e.number > cursor && db.events[e].createdAt < now - RETENTION_WINDOW
  }

  lemma RefusedExactly(w: World, task: string)
    requires Inv(w, task) && Enabled(w, task, Step.Bounds)
    ensures var next := Apply(w, task, Step.Bounds);
            && (next.conn.Closed? <==>
                  w.client.cursor.Some? && GapExpired(w.core.db, task, w.client.cursor.value, w.core.clock))
            && (!next.conn.Closed? ==>
                  next.conn == Bounded(w.conn.channel, LastNumber(w.core.db, task), w.core.clock))
            && next == w.(conn := next.conn)
  {
    hide Cursors.Bounds, Retained, Times, Relay.Consistent, ConnInv, Top;
    var (db, now) := (w.core.db, w.core.clock);
    var times := Times(db, task);
    TimesAreChronicle(db, task, now, now);
    RetainedIsSuffix(db, task, times, now);
    if w.client.cursor.Some? {
      var after: nat := w.client.cursor.value;
      CursorIsExact(db, task, times, now, after);
      ExpiredAre(db, task, after, now);
    }
  }

  lemma ExpiredAre(db: Tables, task: string, after: nat, now: int)
    requires Numbered(db)
    ensures (exists n :: after < n <= LastNumber(db, task) && Expired(Times(db, task), n, now))
            <==> GapExpired(db, task, after, now)
  {
    hide Times;
    if n :| after < n <= LastNumber(db, task) && Expired(Times(db, task), n, now) {
      assert EventId(task, n) in db.events && db.events[EventId(task, n)].createdAt < now - RETENTION_WINDOW;
    }
    if e :| e in db.events && e.task == task && e.number > after && db.events[e].createdAt < now - RETENTION_WINDOW {
      assert e == EventId(task, e.number) && Expired(Times(db, task), e.number, now);
    }
  }

  /** In every run: a request that has read the bounds is refused if and only if it carries a cursor and
      some event issued above that cursor has left the retention window. Otherwise it goes on with what its
      channel holds and with the newest number issued; nothing else changes. */
  lemma BoundsAreExact(cursor: Option<int>, task: string, steps: seq<Step>)
    requires cursor.Some? ==> 0 <= cursor.value
    requires PossibleRun(Initial(cursor), task, steps) && Enabled(Run(Initial(cursor), task, steps), task, Step.Bounds)
    ensures var w := Run(Initial(cursor), task, steps);
            var next := Apply(w, task, Step.Bounds);
            && (next.conn.Closed? <==>
                  w.client.cursor.Some? && GapExpired(w.core.db, task, w.client.cursor.value, w.core.clock))
            && (!next.conn.Closed? ==>
                  next.conn == Bounded(w.conn.channel, LastNumber(w.core.db, task), w.core.clock))
            && next == w.(conn := next.conn)
  {
    hide Inv, Whole, Apply, Enabled, GapExpired;
    InitialInv(cursor, task);
    RunKeeps(Initial(cursor), task, steps, true);
    RefusedExactly(Run(Initial(cursor), task, steps), task);
  }

  lemma QueriedExactly(w: World, task: string)
    requires Inv(w, task) && Enabled(w, task, Step.Query)
    ensures var start := StartOf(w.client.cursor, w.conn.latest);
            Apply(w, task, Step.Query) ==
              w.(conn := Streaming(w.conn.latest, start, start, w.conn.channel,
                                   Range(start + 1, LastNumber(w.core.db, task) + 1), []))
  {
    hide Cursors.Query, Retained, Top, Relay.Consistent, Chronological, Range, GapRetained, Numbered, NoExpiry, Waiting;
    GapIsVisible(w.core.db, task, w.client.cursor, w.conn.latest, w.conn.at, w.core.clock,
                 StartOf(w.client.cursor, w.conn.latest));
  }

  /** And an accepted request gets in its replay every event issued above its start, in order. */
  lemma ReplayIsExact(cursor: Option<int>, task: string, steps: seq<Step>)
    requires cursor.Some? ==> 0 <= cursor.value
    requires PossibleRun(Initial(cursor), task, steps) && Enabled(Run(Initial(cursor), task, steps), task, Step.Query)
    ensures var w := Run(Initial(cursor), task, steps);
            var start := StartOf(w.client.cursor, w.conn.latest);
            Apply(w, task, Step.Query) ==
              w.(conn := Streaming(w.conn.latest, start, start, w.conn.channel,
                                   Range(start + 1, LastNumber(w.core.db, task) + 1), []))
  {
    hide Inv, Whole, Apply, Enabled, Range;
    InitialInv(cursor, task);
    RunKeeps(Initial(cursor), task, steps, true);
    QueriedExactly(Run(Initial(cursor), task, steps), task);
  }

  // ---------------------------------------------------------------- what the environment may do

  /** What ends or reconnects at any moment: the bridge's session, the request, and the whole instance, each
      after the client has received any part of what was written. */
  lemma AnythingMayBreak(w: World, task: string)
    ensures Enabled(w, task, Leave) <==> w.up
    ensures Enabled(w, task, Join) <==> !w.up
    ensures forall k: nat :: Enabled(w, task, Restart(k)) <==> k <= |Written(w.conn)|
    ensures forall k: nat :: Enabled(w, task, Drop(k)) <==> HasChannel(w.conn) && k <= |Written(w.conn)|
  {
  }

  /** What a broken connection leaves: the client has received just that part on top of what it had, and
      will resume from the last event of it; nothing of the request remains. An instance that restarts has
      also lost its bridge session and forgotten its marks. A refused request stays refused. */
  lemma BreaksExactly(w: World, task: string, step: Step)
    requires Enabled(w, task, step) && (step.Drop? || step.Restart?)
    ensures var (next, part) := (Apply(w, task, step), Written(w.conn)[..step.k]);
            && next.client.received == w.client.received + part
            && next.client.cursor == (if step.k == 0 then w.client.cursor else Some(part[step.k - 1]))
            && (next.conn.Closed? <==> w.conn.Closed?) && (!w.conn.Closed? ==> next.conn == Absent)
            && next.core == w.core && next.reached == w.reached
            && next.up == (w.up && step.Drop?) && next.last == (if step.Drop? then w.last else map[])
  {
    assert step.k == 0 ==> w.client.received + Written(w.conn)[..step.k] == w.client.received;
  }

  /** Each step touches only its own. */
  lemma StepFrame(w: World, task: string, step: Step)
    requires Enabled(w, task, step)
    ensures var next := Apply(w, task, step);
            && (step.Core? ==> next == w.(core := next.core)) && (!step.Core? ==> next.core == w.core)
            && (!step.Join? && !step.Leave? && !step.Restart? ==> next.up == w.up)
            && (!step.Join? && !step.Receive? ==> next.reached == w.reached)
            && (!step.Receive? && !step.Restart? ==> next.last == w.last)
            && (!step.Drop? && !step.Restart? ==> next.client == w.client)
            && (step.Join? || step.Leave? ==> next.conn == w.conn)
            && (step.Join? ==> next.up && next.reached == |w.core.log|) && (step.Leave? ==> !next.up)
  {
    hide Cursors.Bounds, Cursors.Query, Relay.Apply, Relay.Enabled;
  }

  // ---------------------------------------------------------------- catching up

  predicate Quiet(step: Step) {
    !(step.Core? && step.step.Flush?)
  }

  /** Without another flush the system can come from one world to the other. */
  ghost predicate Follows(w: World, task: string, end: World) {
    exists steps: seq<Step> ::
      PossibleRun(w, task, steps) && Run(w, task, steps) == end && forall step: Step | step in steps :: Quiet(step)
  }

  lemma FollowsItself(w: World, task: string)
    ensures Follows(w, task, w)
  {
    var none: seq<Step> := [];
    assert PossibleRun(w, task, none) && Run(w, task, none) == w;
  }

  lemma FollowsThen(w: World, task: string, middle: World, step: Step)
    requires Follows(w, task, middle) && Enabled(middle, task, step) && Quiet(step)
    ensures Follows(w, task, Apply(middle, task, step))
  {
    hide PossibleRun, Run, Enabled, Apply, Quiet;
    var steps: seq<Step> :|
      PossibleRun(w, task, steps) && Run(w, task, steps) == middle && forall s: Step | s in steps :: Quiet(s);
    OneStep(middle, task, step);
    Outages.RunThen(w, task, steps, [step]);
    assert forall s: Step | s in steps + [step] :: Quiet(s);
  }

  lemma OneStep(w: World, task: string, step: Step)
    requires Enabled(w, task, step)
    ensures PossibleRun(w, task, [step]) && Run(w, task, [step]) == Apply(w, task, step)
  {
    hide Enabled, Apply;
    var (next, none) := (Apply(w, task, step), [step][1..]);
    assert none == [] && PossibleRun(next, task, none) && Run(next, task, none) == next;
  }

  /** What holds of the world on the way. */
  ghost predicate Sound(first: World, task: string, w: World) {
    Follows(first, task, w) && Inv(w, task) && Whole(w, task)
  }

  lemma Advance(first: World, task: string, w: World, step: Step) returns (next: World)
    requires Sound(first, task, w) && Enabled(w, task, step) && Quiet(step)
    requires step.Join? ==> !w.conn.Streaming?
    ensures next == Apply(w, task, step) && Sound(first, task, next)
  {
    hide Follows, Enabled, Apply, Whole;
    next := Apply(w, task, step);
    FollowsThen(first, task, w, step);
    JoinIsSeamless(w, task, step);
    StepKeeps(w, task, step);
  }

  lemma JoinIsSeamless(w: World, task: string, step: Step)
    requires Inv(w, task) && (step.Join? ==> !w.conn.Streaming?)
    ensures StaysUnbroken(w, task, step, true)
  {
  }

  /** The relays drain the outbox while everything else waits. */
  lemma {:induction false} CoreAdvances(first: World, task: string, w: World, steps: seq<Relay.Step>, end: Relay.State)
    requires Sound(first, task, w) && Leader.Reaches(w.core, steps, end)
    requires forall step: Relay.Step | step in steps :: !step.Flush?
    ensures Sound(first, task, w.(core := end))
    decreases |steps|
  {
    hide Sound, Relay.Enabled, Relay.Apply;
    if steps != [] {
      assert steps[0] in steps;
      var next := Advance(first, task, w, Core(steps[0]));
      CoreAdvances(first, task, next, steps[1..], end);
    }
  }

  lemma OutboxAdvances(first: World, task: string, w: World) returns (end: World)
    requires Sound(first, task, w)
    ensures Sound(first, task, end) && end == w.(core := end.core)
    ensures end.core.db == w.core.db.(outbox := end.core.db.outbox)
    ensures forall e | e in end.core.db.events :: Published(end.core.db.outbox, e)
  {
    hide Inv, Whole, Follows, Relay.Inv, Leader.Reaches;
    CoreIsSound(w, task);
    var core := Leases.DrainFrom(w.core);
    var steps: seq<Relay.Step> :|
      Leader.Reaches(w.core, steps, core) && forall step: Relay.Step | step in steps :: !step.Flush?;
    CoreAdvances(first, task, w, steps, core);
    end := w.(core := core);
    CoreIsSound(end, task);
    Leases.PublishedIsBroadcast(core);
  }

  lemma CoreIsSound(w: World, task: string)
    requires Inv(w, task)
    ensures Relay.Inv(w.core) && w.reached <= |w.core.log|
  {
  }

  /** A stream on its way to the end of everything: the rest stays as it is. */
  ghost predicate Onward(before: World, after: World) {
    && before.conn.Streaming? && after.conn.Streaming? && after.up == before.up && after.core == before.core
    && after.conn.start == before.conn.start && after.client == before.client
  }

  lemma {:induction false} ReceiveRest(first: World, task: string, w: World) returns (end: World)
    requires Sound(first, task, w) && w.up && w.conn.Streaming? && w.reached <= |w.core.log|
    ensures Sound(first, task, end) && Onward(w, end) && end.reached == |end.core.log|
    decreases |w.core.log| - w.reached
  {
    hide Sound, Bridge.After, Bridge.Passes;
    if w.reached == |w.core.log| {
      end := w;
    } else {
      var next := Advance(first, task, w, Receive);
      end := ReceiveRest(first, task, next);
    }
  }

  lemma {:induction false} WriteRest(first: World, task: string, w: World) returns (end: World)
    requires Sound(first, task, w) && w.conn.Streaming?
    ensures Sound(first, task, end) && Onward(w, end) && end.reached == w.reached
    ensures end.conn.replay == [] && end.conn.channel == []
    decreases |w.conn.replay|, |w.conn.channel|
  {
    hide Sound;
    if w.conn.replay != [] {
      var next := Advance(first, task, w, WriteReplay);
      end := WriteRest(first, task, next);
    } else if w.conn.channel != [] {
      var next := Advance(first, task, w, WriteLive);
      end := WriteRest(first, task, next);
    } else {
      end := w;
    }
  }

  /** A request from nothing to a stream, at one moment. */
  lemma Connects(first: World, task: string, w: World) returns (end: World)
    requires Sound(first, task, w) && w.conn.Absent? && w.up
    requires w.client.cursor.Some? ==> !GapExpired(w.core.db, task, w.client.cursor.value, w.core.clock)
    ensures Sound(first, task, end) && end.conn.Streaming? && end == w.(conn := end.conn)
    ensures end.conn.start == StartOf(w.client.cursor, LastNumber(w.core.db, task))
  {
    hide Follows, Inv, Whole, GapExpired, Cursors.Bounds, Cursors.Query;
    var subscribed := Advance(first, task, w, Subscribe);
    RefusedExactly(subscribed, task);
    var bounded := Advance(first, task, subscribed, Step.Bounds);
    end := Advance(first, task, bounded, Step.Query);
  }

  /** A client is never left behind for good. From every world that any run can reach, whatever outages,
      restarts and lost connections it went through, and unless its request was refused or the gap above
      its cursor has expired, the system can without another flush come to a point where everything is
      drained and the client, connected from its cursor, has been sent every event above it. */
  lemma ClientCanCatchUp(cursor: Option<int>, task: string, steps: seq<Step>) returns (end: World)
    requires cursor.Some? ==> 0 <= cursor.value
    requires PossibleRun(Initial(cursor), task, steps) && !Run(Initial(cursor), task, steps).conn.Closed?
    requires var w := Run(Initial(cursor), task, steps);
             w.client.cursor.Some? ==> !GapExpired(w.core.db, task, w.client.cursor.value, w.core.clock)
    ensures Follows(Run(Initial(cursor), task, steps), task, end)
    ensures var w := Run(Initial(cursor), task, steps);
            && Drained(end, task) && Complete(end, task) && end.client == w.client
            && end.conn.start == StartOf(w.client.cursor, LastNumber(w.core.db, task))
  {
    hide Inv, Whole, PossibleRun, Run, GapExpired, Follows, Drained, Complete;
    InitialInv(cursor, task);
    RunKeeps(Initial(cursor), task, steps, true);
    end := CatchesUp(Run(Initial(cursor), task, steps), task);
  }

  lemma CatchesUp(w: World, task: string) returns (end: World)
    requires Inv(w, task) && !w.conn.Closed?
    requires w.client.cursor.Some? ==> !GapExpired(w.core.db, task, w.client.cursor.value, w.core.clock)
    ensures Follows(w, task, end) && Drained(end, task) && Complete(end, task) && end.client == w.client
    ensures end.conn.start == StartOf(w.client.cursor, LastNumber(w.core.db, task))
  {
    hide Inv, Whole, GapExpired, Follows, Complete;
    var absent := Disconnects(w, task);
    var up := absent;
    if !absent.up { up := Advance(w, task, absent, Join); }
    var streaming := Connects(w, task, up);
    var drained := OutboxAdvances(w, task, streaming);
    CoreIsSound(drained, task);
    var received := ReceiveRest(w, task, drained);
    end := WriteRest(w, task, received);
    DrainedIsComplete(end, task);
  }

  /** Whatever request there is may break off before its client has received anything of it. */
  lemma Disconnects(w: World, task: string) returns (next: World)
    requires Inv(w, task) && !w.conn.Closed?
    ensures Sound(w, task, next) && next == w.(conn := Absent)
  {
    hide Inv, Enabled, Apply, Follows;
    FollowsItself(w, task);
    if HasChannel(w.conn) {
      DropsNothing(w, task);
      FollowsThen(w, task, w, Drop(0));
      EndKeeps(w, task, Drop(0));
      next := Apply(w, task, Drop(0));
    } else {
      next := w;
    }
  }

  lemma DropsNothing(w: World, task: string)
    requires HasChannel(w.conn)
    ensures Enabled(w, task, Drop(0)) && Apply(w, task, Drop(0)) == w.(conn := Absent)
  {
    assert Written(w.conn)[..0] == [];
  }
}
