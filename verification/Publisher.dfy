/** The confirming publisher: one worker that owns an AMQP session, publishes with retries, and counts
    only a positive confirm without a mandatory return as success. */
module Publishers {
  import opened Backoffs
  import opened Domain

  datatype Confirmation = Confirmation(tag: nat, ack: bool)

  /** What the broker has answered to a publish by the time its worker looks: whether it returned the
      message as unroutable, its confirm if there is one yet, and whether the connection is lost. */
  datatype Answer = Answer(returned: bool, confirm: Option<bool>, lost: bool)

  /** The ready channel that the select picks. */
  datatype Ready = Return | Confirm | Expired | Done

  /** Everything one attempt meets, in the order in which it could: dialling, declaring the topology, an
      expired context, the write, the answer and the pick, and a connection lost only after the confirm was
      read; and whether the wait after a failure runs to its end. */
  datatype Try = Try(
    dialed: bool, declared: bool, expired: bool, left: bool, answer: Answer, pick: Ready, lostLater: bool, waited: bool)

  datatype Outcome = Confirmed | Unroutable | Nacked | Closed | TimedOut | Aborted | Broken

  /** A channel in confirm mode. The broker's answers arrive between the calls of its user: for each
      publish at most one return, and then one confirm. */
  class Session {
    /** Message ids published; the delivery tag of published[i] is i + 1. */
    var published: seq<string>
    /** Tags whose confirm has not arrived yet. */
    var outstanding: set<nat>
    /** What has arrived and not been read. */
    var confirms: seq<Confirmation>
    var bounced: seq<nat>
    /** Everything that has ever arrived. */
    ghost var acked: set<nat>
    var returned: set<nat>
    var lost: bool
    var closes: nat

    constructor ()
      ensures Clean() && !lost && closes == 0 && published == []
    {
      published, outstanding, confirms, bounced, returned := [], {}, [], [], {};
      lost, closes, acked := false, 0, {};
    }

    /** No publish awaits its answer, no answer awaits its reader, and answers were to publishes. */
    ghost predicate Clean()
      reads this
    {
      && outstanding == {} && confirms == [] && bounced == []
      && forall tag | tag in returned || tag in acked :: 1 <= tag <= |published|
    }

    /** PublishWithContext, mandatory. A failing call may still have sent the frame. */
    method PublishWithContext(id: string, left: bool) returns (ok: bool)
      modifies this`published, this`outstanding
      ensures ok == left
      ensures published == old(published) + [id] && outstanding == old(outstanding) + {|published|}
    {
      published := published + [id];
      outstanding := outstanding + {|published|};
      ok := left;
    }

    /** The frames that answer the last publish arrive: a return comes before the confirm and is not
        repeated, the confirm ends the matter. */
    method Arrive(a: Answer)
      modifies this`outstanding, this`confirms, this`bounced, this`acked, this`returned, this`lost
      ensures lost == (old(lost) || a.lost)
      ensures |published| !in old(outstanding) ==>
                && outstanding == old(outstanding) && confirms == old(confirms) && bounced == old(bounced)
                && acked == old(acked) && returned == old(returned)
      ensures |published| in old(outstanding) ==>
                && bounced == old(bounced) + (if a.returned && |published| !in old(returned) then [|published|] else [])
                && returned == old(returned) + (if a.returned then {|published|} else {})
                && confirms == old(confirms)
                    + (if a.confirm.Some? then [Confirmation(|published|, a.confirm.value)] else [])
                && outstanding == old(outstanding) - (if a.confirm.Some? then {|published|} else {})
                && acked == old(acked) + (if a.confirm == Some(true) then {|published|} else {})
    {
      var tag := |published|;
      if tag in outstanding {
        if a.returned && tag !in returned {
          bounced, returned := bounced + [tag], returned + {tag};
        }
        if a.confirm.Some? {
          confirms := confirms + [Confirmation(tag, a.confirm.value)];
          outstanding := outstanding - {tag};
          if a.confirm.value {
            acked := acked + {tag};
          }
        }
      }
      lost := lost || a.lost;
    }

    method Close()
      modifies this`closes
      ensures closes == old(closes) + 1
    {
      closes := closes + 1;
    }
  }

  datatype PublisherConfig = PublisherConfig(maxAttempts: nat, initialBackoff: nat, maxBackoff: nat) {
    predicate Valid() {
      maxAttempts > 0 && 0 < initialBackoff <= maxBackoff
    }
  }

  // ---------------------------------------------------------------- what an attempt achieves

  /** The broker took publish number `tag` of the session, which was of message `id`: it confirmed it
      positively and did not return it. */
  ghost predicate TookAt(s: Session, tag: nat, id: string)
    reads s`published, s`acked, s`returned
  {
    1 <= tag <= |s.published| && s.published[tag - 1] == id && tag in s.acked && tag !in s.returned
  }

  /** The broker takes the message of this attempt: it is queued, whatever the publisher gets to know. */
  predicate Takes(t: Try) {
    !t.expired && t.left && t.answer.confirm == Some(true) && !t.answer.returned
  }

  /** The publisher gets to know it: the connection holds until it has looked for a return. */
  predicate Confirms(t: Try) {
    Takes(t) && t.pick == Confirm && !t.answer.lost && !t.lostLater
  }

  /** An attempt that succeeds, by a worker that holds a session or has to open one. */
  predicate Succeeds(held: bool, t: Try) {
    (held || (t.dialed && t.declared)) && Confirms(t)
  }

  /** The attempt gives its message to a channel. */
  predicate Sends(held: bool, t: Try) {
    (held || (t.dialed && t.declared)) && !t.expired
  }

  /** Attempt k is reached: all before it failed and were waited out. */
  predicate Reached(held: bool, tries: nat -> Try, k: nat) {
    forall j: nat | j < k :: !Succeeds(held && j == 0, tries(j)) && tries(j).waited
  }

  /** A job is done when its message can be made and one of its attempts is reached and succeeds. */
  predicate Delivers(cfg: PublisherConfig, held: bool, generated: Option<string>, tries: nat -> Try) {
    generated.Some? && exists k: nat ::
        k < cfg.maxAttempts && Reached(held, tries, k) && Succeeds(held && k == 0, tries(k))
  }

  /** Whether the worker holds a session before its job number `n`. */
  predicate Holds(cfg: PublisherConfig, held: bool, jobs: seq<Option<string>>, tries: nat -> nat -> Try, n: nat)
    requires n <= |jobs|
    decreases n, 0
  {
    if n == 0 then held
    else if jobs[n - 1].None? then Holds(cfg, held, jobs, tries, n - 1)
    else JobDone(cfg, held, jobs, tries, n - 1)
  }

  /** Job number `n` of a worker that began with or without a session is done. */
  predicate JobDone(cfg: PublisherConfig, held: bool, jobs: seq<Option<string>>, tries: nat -> nat -> Try, n: nat)
    requires n < |jobs|
    decreases n, 1
  {
    Delivers(cfg, Holds(cfg, held, jobs, tries, n), jobs[n], tries(n))
  }

  lemma FirstJob(cfg: PublisherConfig, held: bool, jobs: seq<Option<string>>, tries: nat -> nat -> Try)
    ensures Holds(cfg, held, jobs, tries, 0) == held
  {
  }

  lemma NextJob(cfg: PublisherConfig, held: bool, jobs: seq<Option<string>>, tries: nat -> nat -> Try, n: nat)
    requires n < |jobs|
    ensures JobDone(cfg, held, jobs, tries, n) == Delivers(cfg, Holds(cfg, held, jobs, tries, n), jobs[n], tries(n))
    ensures JobDone(cfg, held, jobs, tries, n) ==> jobs[n].Some?
    ensures Holds(cfg, held, jobs, tries, n + 1)
         == if jobs[n].None? then Holds(cfg, held, jobs, tries, n) else JobDone(cfg, held, jobs, tries, n)
  {
  }

  /** How many of the first n attempts give the message to a channel. */
  function SentBy(held: bool, tries: nat -> Try, n: nat): nat {
    if n == 0 then 0 else SentBy(held, tries, n - 1) + if Sends(held && n == 1, tries(n - 1)) then 1 else 0
  }

  lemma NothingTried(held: bool, generated: Option<string>, tries: nat -> Try)
    ensures Reached(held, tries, 0) && Copies(generated, SentBy(held, tries, 0)) == []
    ensures generated.None? ==> forall cfg :: !Delivers(cfg, held, generated, tries)
  {
  }

  lemma OneMoreTried(held: bool, generated: Option<string>, tries: nat -> Try, k: nat)
    requires generated.Some? && Reached(held, tries, k)
    ensures Reached(held, tries, k + 1) <==> !Succeeds(held && k == 0, tries(k)) && tries(k).waited
    ensures Copies(generated, SentBy(held, tries, k))
              + (if Sends(held && k == 0, tries(k)) then [generated.value] else [])
         == Copies(generated, SentBy(held, tries, k + 1))
  {
    hide Succeeds, Sends;
  }

  /** The attempt at which retrying stops decides. */
  lemma LastAttemptDecides(cfg: PublisherConfig, held: bool, generated: Option<string>, tries: nat -> Try, k: nat)
    requires generated.Some? && k < cfg.maxAttempts && Reached(held, tries, k)
    requires Succeeds(held && k == 0, tries(k)) || k + 1 == cfg.maxAttempts || !tries(k).waited
    ensures Delivers(cfg, held, generated, tries) <==> Succeeds(held && k == 0, tries(k))
  {
    hide Succeeds;
    if n: nat :| n < cfg.maxAttempts && Reached(held, tries, n) && Succeeds(held && n == 0, tries(n)) {
      assert n < k ==> !Succeeds(held && n == 0, tries(n));
      assert k < n ==> !Succeeds(held && k == 0, tries(k)) && tries(k).waited;
    }
  }

  /** One publish on a session with nothing outstanding. Whichever ready channel the select picks, it
      succeeds if and only if the broker confirmed this very message positively, did not return it, and
      the connection was still there; and then the session is clean again. A message may be taken by the
      broker without the publisher learning of it. */
  method PublishOnce(session: Session, id: string, t: Try) returns (outcome: Outcome)
    requires session.Clean() && !session.lost
    modifies session
    ensures session.closes == old(session.closes)
    ensures session.published == old(session.published) + if t.expired then [] else [id]
    ensures outcome.Confirmed? <==> Confirms(t)
    ensures outcome.Confirmed? ==> !t.expired && t.left
    ensures outcome.Unroutable? <==>
              && !t.expired && t.left && t.answer.returned
              && (t.pick == Return || (t.pick == Confirm && t.answer.confirm.Some?))
    ensures outcome.Nacked? <==>
              && !t.expired && t.left && !t.answer.returned && t.pick == Confirm && t.answer.confirm == Some(false)
              && !t.answer.lost && !t.lostLater
    ensures outcome.Broken? <==> !t.expired && !t.left
    ensures !t.expired && t.left ==> (TookAt(session, |session.published|, id) <==> Takes(t))
    ensures outcome.Confirmed? ==> session.Clean() && !session.lost && TookAt(session, |session.published|, id)
    ensures forall tag: nat, x | old(TookAt(session, tag, x)) :: TookAt(session, tag, x)
  {
    if t.expired {
      return Aborted;
    }
    var ok := session.PublishWithContext(id, t.left);
    if !ok {
      return Broken;
    }
    session.Arrive(t.answer);
    match t.pick
    case Return =>
      if |session.bounced| == 0 {
        return if session.lost then Closed else TimedOut;
      }
      session.bounced := session.bounced[1..];
      outcome := Unroutable;
    case Confirm =>
      if |session.confirms| == 0 {
        return if session.lost then Closed else TimedOut;
      }
      var confirmation := session.confirms[0];
      session.confirms := session.confirms[1..];
      session.Arrive(Answer(false, None, t.lostLater));
      if |session.bounced| > 0 {
        session.bounced := session.bounced[1..];
        return Unroutable;
      }
      if session.lost {
        return Closed;
      }
      outcome := if confirmation.ack then Confirmed else Nacked;
    case Expired =>
      outcome := TimedOut;
    case Done =>
      outcome := Aborted;
  }

  /** The wait after the given attempt. */
  method Backoff(cfg: PublisherConfig, attempt: nat) returns (duration: nat)
    requires cfg.Valid() && attempt >= 1
    ensures duration == Capped(cfg.initialBackoff, cfg.maxBackoff, attempt - 1)
  {
    duration := cfg.initialBackoff;
    CappedStart(cfg.initialBackoff, cfg.maxBackoff);
    for count := 1 to attempt
      invariant duration == Capped(cfg.initialBackoff, cfg.maxBackoff, count - 1)
    {
      CappedDoubles(cfg.initialBackoff, cfg.maxBackoff, count - 1);
      duration := duration * 2;
      if duration >= cfg.maxBackoff {
        CappedStays(cfg.initialBackoff, cfg.maxBackoff, count, attempt - 1);
        return cfg.maxBackoff;
      }
    }
  }

  /** Which publish of which session. */
  datatype Receipt = Receipt(session: Session, tag: nat)

  class Worker {
    const cfg: PublisherConfig
    var session: Session?
    /** Every session this worker ever opened, and every message id it gave to a channel. */
    ghost var sessions: set<Session>
    ghost var log: seq<string>
    /** The ids of the messages whose publishing succeeded, each with where it was confirmed. */
    ghost var delivered: map<string, Receipt>

    /** The worker holds at most one open session, nothing is outstanding on it between messages, and
        every other session it opened has been closed once. Every delivered message was taken. */
    ghost predicate Valid()
      reads this, sessions
    {
      && cfg.Valid()
      && (session != null ==> session in sessions && session.Clean() && !session.lost)
      && (forall s | s in sessions :: s.closes == if s == session then 0 else 1)
      && AllTook()
    }

    /** Every delivered message has been taken by the broker, on some session of this worker. */
    ghost predicate AllTook()
      reads this`sessions, this`delivered, sessions`published, sessions`acked, sessions`returned
    {
      forall id | id in delivered ::
        delivered[id].session in sessions && TookAt(delivered[id].session, delivered[id].tag, id)
    }

    constructor (cfg: PublisherConfig)
      requires cfg.Valid()
      ensures Valid() && this.cfg == cfg && log == [] && session == null && sessions == {} && delivered == map[]
    {
      this.cfg, session, sessions, log, delivered := cfg, null, {}, [], map[];
    }

    /** Dial, declare the topology, enter confirm mode; a session that fails on the way is closed. */
    method OpenSession(t: Try)
      requires Valid() && session == null
      modifies this`session, this`sessions
      ensures Valid() && log == old(log) && fresh(sessions - old(sessions)) && old(sessions) <= sessions
      ensures session != null <==> t.dialed && t.declared
      ensures session != null ==> fresh(session)
      ensures |sessions| == |old(sessions)| + if t.dialed then 1 else 0
    {
      if !t.dialed {
        return;
      }
      var client := new Session();
      sessions := sessions + {client};
      if !t.declared {
        client.Close();
        return;
      }
      session := client;
    }

    method CloseSession()
      requires cfg.Valid() && (session != null ==> session in sessions)
      requires AllTook() && forall s | s in sessions :: s.closes == if s == session then 0 else 1
      modifies this`session, if session == null then {} else {session}`closes
      ensures Valid() && session == null
    {
      if session != null {
        session.Close();
      }
      session := null;
    }

    /** Publish once on the open session and keep the receipt of a success. */
    method Use(id: string, t: Try) returns (ok: bool)
      requires Valid() && session != null
      modifies this`log, this`delivered, session
      ensures ok == Confirms(t)
      ensures log == old(log) + if t.expired then [] else [id]
      ensures delivered.Keys == old(delivered.Keys) + if ok then {id} else {}
      ensures AllTook() && forall s | s in sessions :: s.closes == if s == session then 0 else 1
      ensures ok ==> Valid()
    {
      hide Takes, Confirms, TookAt;
      var outcome := PublishOnce(session, id, t);
      log := log + if t.expired then [] else [id];
      ok := outcome == Confirmed;
      if ok {
        delivered := delivered[id := Receipt(session, |session.published|)];
      }
    }

    /** One attempt: open a session if there is none, publish once, and drop the session on any failure. */
    method Attempt(id: string, t: Try) returns (ok: bool)
      requires Valid()
      modifies this, sessions
      ensures Valid() && fresh(sessions - old(sessions)) && old(sessions) <= sessions
      ensures ok == Succeeds(old(session) != null, t) && (ok <==> session != null)
      ensures log == old(log) + if Sends(old(session) != null, t) then [id] else []
      ensures delivered.Keys == old(delivered.Keys) + if ok then {id} else {}
    {
      hide Confirms, AllTook;
      if session == null {
        OpenSession(t);
      }
      if session != null {
        ok := Use(id, t);
        if ok {
          return;
        }
      }
      CloseSession();
      ok := false;
    }

    /** Publish one message, at most MaxAttempts times under one id; `generated` is None when no message
        could be made of the batch. */
    method PublishWithRetry(generated: Option<string>, tries: nat -> Try)
      returns (ok: bool, ghost attempts: nat, ghost waits: seq<nat>)
      requires Valid()
      modifies this, sessions
      ensures Valid() && fresh(sessions - old(sessions)) && old(sessions) <= sessions
      ensures ok == Delivers(cfg, old(session) != null, generated, tries)
      ensures generated.None? ==> attempts == 0 && session == old(session)
      ensures attempts <= cfg.maxAttempts
      ensures generated.Some? ==>
                attempts > 0 && (ok <==> session != null) && Reached(old(session) != null, tries, attempts - 1)
      ensures generated.Some? ==> ok || attempts == cfg.maxAttempts || !tries(attempts - 1).waited
      ensures log == old(log) + Copies(generated, SentBy(old(session) != null, tries, attempts))
      ensures |waits| == if attempts == 0 then 0 else attempts - 1
      ensures forall k | 0 <= k < |waits| :: waits[k] == Capped(cfg.initialBackoff, cfg.maxBackoff, k)
      ensures delivered.Keys == old(delivered.Keys) + if ok then {generated.value} else {}
    {
      hide AllTook, Succeeds, Sends, Reached, Delivers, SentBy, Copies, Capped;
      waits, attempts := [], 0;
      NothingTried(session != null, generated, tries);
      if generated == None {
        return false, attempts, waits;
      }
      var id := generated.value;
      ok := false;
      ghost var held := session != null;
      for attempt := 1 to cfg.maxAttempts + 1
        invariant Valid() && fresh(sessions - old(sessions)) && old(sessions) <= sessions
        invariant attempts == attempt - 1 && Reached(held, tries, attempts)
        invariant log == old(log) + Copies(generated, SentBy(held, tries, attempts))
        invariant |waits| == attempts && attempts < cfg.maxAttempts
        invariant (session != null) == (held && attempts == 0)
        invariant forall k | 0 <= k < |waits| :: waits[k] == Capped(cfg.initialBackoff, cfg.maxBackoff, k)
        invariant delivered.Keys == old(delivered.Keys)
      {
        ok := Attempt(id, tries(attempt - 1));
        attempts := attempt;
        OneMoreTried(held, generated, tries, attempt - 1);
        if ok || attempt == cfg.maxAttempts {
          LastAttemptDecides(cfg, held, generated, tries, attempt - 1);
          return;
        }
        var duration := Backoff(cfg, attempt);
        if !tries(attempt - 1).waited {
          LastAttemptDecides(cfg, held, generated, tries, attempt - 1);
          return;
        }
        waits := waits + [duration];
      }
    }

    /** The worker loop over its jobs until the publisher closes. Each job's result says exactly whether it
        was delivered, a delivered one has been taken by the broker, and every session the worker ever
        opened ends up closed exactly once. */
    method RunWorker(jobs: seq<Option<string>>, tries: nat -> nat -> Try) returns (results: seq<bool>)
      requires Valid()
      modifies this, sessions
      ensures Valid() && session == null && |results| == |jobs|
      ensures forall s | s in sessions :: s.closes == 1
      ensures forall i | 0 <= i < |jobs| :: results[i] == JobDone(cfg, old(session) != null, jobs, tries, i)
      ensures forall i | 0 <= i < |jobs| && results[i] :: jobs[i].Some? && jobs[i].value in delivered
    {
      hide AllTook, Delivers, Reached, Succeeds, SentBy, Copies, Capped, Holds, JobDone;
      results := [];
      FirstJob(cfg, session != null, jobs, tries);
      ghost var held := session != null;
      for index := 0 to |jobs|
        invariant Valid() && fresh(sessions - old(sessions)) && old(sessions) <= sessions && |results| == index
        invariant (session != null) == Holds(cfg, held, jobs, tries, index)
        invariant forall i | 0 <= i < index :: results[i] == JobDone(cfg, held, jobs, tries, i)
        invariant forall i | 0 <= i < index && results[i] :: jobs[i].Some? && jobs[i].value in delivered
      {
        ghost var attempts, waits;
        var ok;
        ok, attempts, waits := PublishWithRetry(jobs[index], tries(index));
        NextJob(cfg, held, jobs, tries, index);
        results := results + [ok];
      }
      CloseSession();
    }
  }

  function Copies(id: Option<string>, n: nat): (r: seq<string>)
    ensures |r| == if id.Some? then n else 0
    ensures forall x | x in r :: id == Some(x)
  {
    if id.None? then [] else seq(n, i requires 0 <= i < n => id.value)
  }
}
