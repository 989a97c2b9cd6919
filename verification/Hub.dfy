/** The SSE hub: a nested map of subscriber channels that Subscribe, Close and Publish change in place. */
module Hubs {
  datatype Event = Event(task: string, number: int)

  /** One call of Publish and whether it succeeded; it fails when its context ends while a channel is full. */
  datatype Attempt = Attempt(event: Event, ok: bool)

  /** `sent` can be what a subscriber to `task` got from these attempts: every event of the task whose
      Publish succeeded, once and in order; one whose Publish failed may have been sent or not. */
  ghost predicate Got(sent: seq<Event>, task: string, attempts: seq<Attempt>)
    decreases |attempts|
  {
    if attempts == [] then sent == []
    else
      var before, a := attempts[..|attempts| - 1], attempts[|attempts| - 1];
      || ((a.event.task != task || !a.ok) && Got(sent, task, before))
      || (a.event.task == task && sent != [] && sent[|sent| - 1] == a.event && Got(sent[..|sent| - 1], task, before))
  }

  /** The task's successfully published events. */
  function Successes(task: string, attempts: seq<Attempt>): seq<Event>
    decreases |attempts|
  {
    if attempts == [] then []
    else
      var a := attempts[|attempts| - 1];
      Successes(task, attempts[..|attempts| - 1]) + if a.event.task == task && a.ok then [a.event] else []
  }

  ghost predicate Subsequence(a: seq<Event>, b: seq<Event>)
    decreases |b|
  {
    a == [] || (b != [] && (Subsequence(a, b[..|b| - 1])
                            || (a[|a| - 1] == b[|b| - 1] && Subsequence(a[..|a| - 1], b[..|b| - 1]))))
  }

  /** Nothing a successful Publish sent is missing or out of order. */
  lemma {:induction false} NoSuccessIsMissing(sent: seq<Event>, task: string, attempts: seq<Attempt>)
    requires Got(sent, task, attempts)
    ensures Subsequence(Successes(task, attempts), sent)
    decreases |attempts|
  {
    if attempts != [] {
      var before, a := attempts[..|attempts| - 1], attempts[|attempts| - 1];
      var ours := Successes(task, before);
      if (a.event.task != task || !a.ok) && Got(sent, task, before) {
        NoSuccessIsMissing(sent, task, before);
        assert ours + [] == ours;
      } else {
        NoSuccessIsMissing(sent[..|sent| - 1], task, before);
        if a.ok { assert (ours + [a.event])[..|ours|] == ours; } else { assert ours + [] == ours; }
      }
    }
  }

  /** Without a failed Publish, a subscriber got exactly its task's published events. */
  lemma {:induction false} GotExactlyTheSuccesses(sent: seq<Event>, task: string, attempts: seq<Attempt>)
    requires Got(sent, task, attempts)
    requires forall a | a in attempts && a.event.task == task :: a.ok
    ensures sent == Successes(task, attempts)
    decreases |attempts|
  {
    if attempts != [] {
      var before, a := attempts[..|attempts| - 1], attempts[|attempts| - 1];
      assert a in attempts;
      if a.event.task == task {
        GotExactlyTheSuccesses(sent[..|sent| - 1], task, before);
        assert sent == sent[..|sent| - 1] + [a.event];
      } else {
        GotExactlyTheSuccesses(sent, task, before);
      }
    }
  }

  lemma GotSnoc(sent: seq<Event>, task: string, attempts: seq<Attempt>, a: Attempt, added: seq<Event>)
    requires Got(sent, task, attempts)
    requires added == [] || (added == [a.event] && a.event.task == task)
    requires a.event.task == task && a.ok ==> added != []
    ensures Got(sent + added, task, attempts + [a])
  {
    assert (attempts + [a])[..|attempts|] == attempts;
    if added == [] {
      assert sent + added == sent;
    } else {
      assert (sent + added)[..|sent|] == sent;
    }
  }

  function Sent(reached: bool, event: Event): seq<Event> {
    if reached then [event] else []
  }

  lemma GotOneMore(sent: seq<Event>, task: string, attempts: seq<Attempt>, joined: nat, a: Attempt, reached: bool)
    requires joined <= |attempts| && Got(sent, task, attempts[joined..])
    requires (reached ==> a.event.task == task) && (a.event.task == task && a.ok ==> reached)
    ensures Got(sent + Sent(reached, a.event), task, (attempts + [a])[joined..])
  {
    hide Got;
    assert (attempts + [a])[joined..] == attempts[joined..] + [a];
    GotSnoc(sent, task, attempts[joined..], a, Sent(reached, a.event));
  }

  lemma NothingYet(task: string, attempts: seq<Attempt>, joined: nat)
    requires joined == |attempts|
    ensures Got([], task, attempts[joined..])
  {
    assert attempts[joined..] == [];
  }

  /** A Go channel as its sender sees it: everything sent so far, and whether it was closed. */
  class Channel {
    const task: string
    const id: nat
    ghost const joined: nat
    var sent: seq<Event>
    var closed: bool

    constructor (task: string, id: nat, ghost joined: nat)
      ensures this.task == task && this.id == id && this.joined == joined && sent == [] && !closed
    {
      this.task, this.id, this.joined := task, id, joined;
      sent, closed := [], false;
    }
  }

  // ---------------------------------------------------------------- the nested map

  type Registry<T> = map<string, map<nat, T>>

  predicate Has<T>(subs: Registry<T>, task: string, id: nat) {
    task in subs && id in subs[task]
  }

  function At<T>(subs: Registry<T>, task: string, id: nat): T
    requires Has(subs, task, id)
  {
    subs[task][id]
  }

  ghost predicate NoEmptyInner<T>(subs: Registry<T>) {
    forall task | task in subs :: exists id :: Has(subs, task, id)
  }

  function Inner<T>(subs: Registry<T>, task: string): map<nat, T> {
    if task in subs then subs[task] else map[]
  }

  function Added<T>(subs: Registry<T>, task: string, id: nat, x: T): Registry<T> {
    subs[task := Inner(subs, task)[id := x]]
  }

  /** delete(channels, id), and the inner map goes with its last entry. */
  function Removed<T>(subs: Registry<T>, task: string, id: nat): Registry<T> {
    var inner := Inner(subs, task) - {id};
    if |inner| == 0 then subs - {task} else subs[task := inner]
  }

  lemma AddedAt<T>(subs: Registry<T>, task: string, id: nat, x: T)
    ensures var after := Added(subs, task, id, x);
            && (forall t, i: nat :: Has(after, t, i) <==> Has(subs, t, i) || (t, i) == (task, id))
            && (forall t, i: nat | Has(after, t, i) ::
                At(after, t, i) == if (t, i) == (task, id) then x else At(subs, t, i))
            && (NoEmptyInner(subs) ==> NoEmptyInner(after))
  {
    var after := Added(subs, task, id, x);
    assert Has(after, task, id);
    if NoEmptyInner(subs) {
      forall t | t in after
        ensures exists i :: Has(after, t, i)
      {
        if t != task {
          var i :| Has(subs, t, i);
          assert Has(after, t, i);
        }
      }
    }
  }

  lemma RemovedAt<T>(subs: Registry<T>, task: string, id: nat)
    ensures var after := Removed(subs, task, id);
            && (forall t, i: nat :: Has(after, t, i) <==> Has(subs, t, i) && (t, i) != (task, id))
            && (forall t, i: nat | Has(after, t, i) :: At(after, t, i) == At(subs, t, i))
            && (NoEmptyInner(subs) ==> NoEmptyInner(after))
  {
    var after, inner := Removed(subs, task, id), Inner(subs, task) - {id};
    if NoEmptyInner(subs) {
      forall t | t in after
        ensures exists i :: Has(after, t, i)
      {
        if t == task {
          var i :| i in inner;
          assert Has(after, task, i);
        } else {
          var i :| Has(subs, t, i);
          assert Has(after, t, i);
        }
      }
    }
  }

  lemma RemovingNothing<T>(subs: Registry<T>, task: string, id: nat)
    requires !Has(subs, task, id) && NoEmptyInner(subs)
    ensures Removed(subs, task, id) == subs
  {
    var inner := Inner(subs, task);
    assert inner - {id} == inner;
    if task in subs {
      var i :| Has(subs, task, i);
      assert i in inner;
    }
  }

  // ---------------------------------------------------------------- the hub

  ghost predicate Registered(subs: Registry<Channel>, c: Channel) {
    Has(subs, c.task, c.id) && At(subs, c.task, c.id) == c
  }

  /** No inner map is empty, every entry stands under its own task and id, and ids are never reused. */
  ghost predicate Keyed(subs: Registry<Channel>, channels: set<Channel>, nextID: nat) {
    && NoEmptyInner(subs)
    && (forall task, id: nat | Has(subs, task, id) ::
          At(subs, task, id) in channels && At(subs, task, id).task == task && At(subs, task, id).id == id)
    && (forall c | c in channels :: 1 <= c.id <= nextID)
    && (forall c, d | c in channels && d in channels && c.id == d.id :: c == d)
  }

  lemma AddedIsKeyed(subs: Registry<Channel>, channels: set<Channel>, nextID: nat, c: Channel)
    requires Keyed(subs, channels, nextID) && c.id == nextID + 1
    ensures Keyed(Added(subs, c.task, c.id, c), channels + {c}, nextID + 1)
    ensures Registered(Added(subs, c.task, c.id, c), c)
    ensures forall d | d in channels :: Registered(Added(subs, c.task, c.id, c), d) <==> Registered(subs, d)
  {
    hide Has, At, NoEmptyInner, Added;
    AddedAt(subs, c.task, c.id, c);
  }

  lemma RemovedIsKeyed(subs: Registry<Channel>, channels: set<Channel>, nextID: nat, c: Channel)
    requires Keyed(subs, channels, nextID) && c in channels
    ensures Keyed(Removed(subs, c.task, c.id), channels, nextID)
    ensures !Registered(Removed(subs, c.task, c.id), c)
    ensures forall d | d in channels && d != c :: Registered(Removed(subs, c.task, c.id), d) <==> Registered(subs, d)
    ensures !Registered(subs, c) ==> Removed(subs, c.task, c.id) == subs
  {
    hide Has, At, NoEmptyInner, Removed;
    RemovedAt(subs, c.task, c.id);
    if !Registered(subs, c) { RemovingNothing(subs, c.task, c.id); }
  }

  /** A task is in the outer map exactly when one of its channels is registered. */
  lemma SomeoneListens(subs: Registry<Channel>, channels: set<Channel>, nextID: nat, task: string)
    requires Keyed(subs, channels, nextID)
    ensures task in subs <==> exists c :: c in channels && c.task == task && Registered(subs, c)
  {
    if task in subs {
      var id :| Has(subs, task, id);
      assert Registered(subs, At(subs, task, id));
    }
  }

  lemma InnerIsRegistered(subs: Registry<Channel>, channels: set<Channel>, nextID: nat, task: string)
    requires Keyed(subs, channels, nextID)
    ensures forall id | id in Inner(subs, task) ::
              var c := Inner(subs, task)[id]; c in channels && Registered(subs, c) && c.task == task && c.id == id
    ensures forall c | c in channels && Registered(subs, c) && c.task == task ::
        c.id in Inner(subs, task) && Inner(subs, task)[c.id] == c
  {
    forall id | id in Inner(subs, task)
      ensures var c := Inner(subs, task)[id]; c in channels && Registered(subs, c) && c.task == task && c.id == id
    {
      assert Has(subs, task, id) && Registered(subs, At(subs, task, id));
    }
  }

  /** How a call on the hub ends. Blocks: it waits for a mutex that is never released. */
  datatype Ending = Returns | Cancelled | Panics | Blocks

  class Hub {
    /** A close that panicked holds the mutex for good. */
    var stuck: bool
    var nextID: nat
    var subs: Registry<Channel>
    /** Every channel handed out, and every Publish so far. */
    ghost var channels: set<Channel>
    ghost var attempts: seq<Attempt>

    /** Exactly the open channels are registered, and each of them got what was published to its task
        since it was opened. */
    ghost predicate Valid()
      reads this, channels
    {
      && Keyed(subs, channels, nextID)
      && (forall c | c in channels :: !c.closed <==> Registered(subs, c))
      && (forall c | c in channels && !c.closed ::
            c.joined <= |attempts| && Got(c.sent, c.task, attempts[c.joined..]))
    }

    constructor ()
      ensures Valid() && !stuck && channels == {} && attempts == [] && subs == map[] && nextID == 0
    {
      stuck := false;
      nextID, subs, channels, attempts := 0, map[], {}, [];
    }

    /** Opens a subscription; null when the call blocks. */
    method Subscribe(task: string) returns (ch: Channel?)
      requires Valid()
      modifies this
      ensures Valid() && attempts == old(attempts) && stuck == old(stuck)
      ensures ch == null <==> stuck
      ensures ch == null ==> subs == old(subs) && nextID == old(nextID) && channels == old(channels)
      ensures ch != null ==>
                && fresh(ch) && channels == old(channels) + {ch}
                && ch.task == task && !ch.closed && ch.sent == [] && ch.joined == |attempts|
                && subs == Added(old(subs), task, ch.id, ch) && nextID == old(nextID) + 1 == ch.id
    {
      hide Keyed, Registered, Got;
      if stuck {
        return null;
      }
      nextID := nextID + 1;
      ch := new Channel(task, nextID, |attempts|);
      var inner: map<nat, Channel> := if task in subs then subs[task] else map[];
      subs := subs[task := inner[nextID := ch]];
      AddedIsKeyed(old(subs), channels, old(nextID), ch);
      channels := channels + {ch};
      NothingYet(task, attempts, ch.joined);
    }

    /** The subscription's close function. Closing a channel a second time panics in Go; that happens
        exactly when it is already closed and its task still has an open subscription, and it leaves the
        mutex locked, so that every later call blocks. */
    method Close(ch: Channel) returns (ending: Ending)
      requires Valid() && ch in channels
      modifies this`subs, this`stuck, ch`closed
      ensures Valid() && ending != Cancelled
      ensures ending == Blocks <==> old(stuck)
      ensures ending == Panics <==>
                !old(stuck) && old(ch.closed) && exists c | c in channels :: c.task == ch.task && !old(c.closed)
      ensures stuck <==> old(stuck) || ending == Panics
      ensures old(stuck) || old(ch.closed) ==> subs == old(subs) && ch.closed == old(ch.closed)
      ensures !old(stuck) ==> ch.closed && subs == Removed(old(subs), ch.task, ch.id)
    {
      hide Keyed, Registered, Got, Removed;
      if stuck {
        return Blocks;
      }
      ending := Returns;
      RemovedIsKeyed(subs, channels, nextID, ch);
      SomeoneListens(subs, channels, nextID, ch.task);
      if ch.task in subs {
        subs := Removed(subs, ch.task, ch.id);
        if ch.closed {
          ending, stuck := Panics, true;
        }
        ch.closed := true;
      } else {
        assert !Registered(subs, ch);
      }
    }

    /** Sends to the task's channels in any order. The context ends after `patience` sends; when that is
        before the last, just so many of the channels have got the event and Publish reports the failure. */
    method Publish(event: Event, patience: nat) returns (ending: Ending, ghost reached: set<Channel>)
      requires Valid()
      modifies this`attempts, channels
      ensures Valid() && ending != Panics && (ending == Blocks <==> stuck)
      ensures !stuck ==> (ending == Returns <==> |Inner(subs, event.task)| <= patience)
      ensures |reached| == if stuck then 0 else if ending == Returns then |Inner(subs, event.task)| else patience
      ensures forall c | c in reached :: c in channels && !c.closed && c.task == event.task
      ensures attempts == old(attempts) + (if stuck then [] else [Attempt(event, ending == Returns)])
      ensures forall c | c in channels :: c.closed == old(c.closed)
      ensures forall c | c in channels :: c.sent == old(c.sent) + Sent(c in reached, event)
      ensures ending == Returns ==> forall c | c in channels && !c.closed && c.task == event.task :: c in reached
    {
      hide Keyed, Registered, Got, Inner;
      reached := {};
      if stuck {
        return Blocks, reached;
      }
      var targets := Inner(subs, event.task);
      InnerIsRegistered(subs, channels, nextID, event.task);
      var ok;
      ok, reached := SendAll(event, targets, patience, channels);
      forall c | c in channels && !c.closed
        ensures c.joined <= |attempts| && Got(c.sent, c.task, (attempts + [Attempt(event, ok)])[c.joined..])
      {
        assert !old(c.closed) && old(Got(c.sent, c.task, attempts[c.joined..]));
        GotOneMore(old(c.sent), c.task, attempts, c.joined, Attempt(event, ok), c in reached);
      }
      attempts := attempts + [Attempt(event, ok)];
      ending := if ok then Returns else Cancelled;
    }
  }

  /** Sends the event to channels of one task, until the context ends. */
  method SendAll(event: Event, targets: map<nat, Channel>, patience: nat, ghost channels: set<Channel>)
    returns (ok: bool, ghost reached: set<Channel>)
    requires forall id | id in targets :: targets[id] in channels && targets[id].id == id
    modifies set c | c in channels :: c`sent
    ensures ok <==> |targets| <= patience
    ensures |reached| == if ok then |targets| else patience
    ensures forall c | c in reached :: c.id in targets && targets[c.id] == c
    ensures ok ==> forall id | id in targets :: targets[id] in reached
    ensures forall c | c in channels :: c.sent == old(c.sent) + Sent(c in reached, event)
  {
    var todo, sends := targets.Keys, 0;
    reached := {};
    while todo != {}
      invariant todo <= targets.Keys && sends == |reached| <= patience && |todo| + sends == |targets|
      invariant forall id | id in targets && id !in todo :: targets[id] in reached
      invariant forall c | c in reached :: c.id in targets && c.id !in todo && targets[c.id] == c
      invariant forall c | c in channels :: c.sent == old(c.sent) + Sent(c in reached, event)
      decreases todo
    {
      var id :| id in todo;
      if sends == patience {
        return false, reached;
      }
      var ch := targets[id];
      ch.sent := ch.sent + [event];
      todo := todo - {id};
      reached := reached + {ch};
      sends := sends + 1;
    }
    ok := true;
  }
}
