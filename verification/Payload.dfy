/** What a consumer of the event payloads can recover from them. */
module Payloads {
  import opened Domain
  import opened Order
  import opened Store

  /** Keys that the payload's own members do not shadow. */
  predicate Ordinary(name: string) {
    name != "step" && name != "ts"
  }

  function OrdinaryOf(part: map<PointKey, real>): map<PointKey, real> {
    map k | k in part && Ordinary(k.name) :: part[k]
  }

  /** Reading one element of "points": every other member is a metric at (step, ts). */
  function DecodePoint(task: string, point: PayloadPoint): map<PointKey, real> {
    if "step" in point && "ts" in point then
      map name | name in point && Ordinary(name)
        :: PointKey(task, name, point["step"].Floor, point["ts"].Floor) := point[name]
    else map[]
  }

  function Decode(task: string, payload: Payload): map<PointKey, real> {
    if payload == [] then map[] else Decode(task, payload[1..]) + DecodePoint(task, payload[0])
  }

  lemma {:induction false} GroupAt(part: map<PointKey, real>, task: string, groups: seq<(int, int)>, i: nat)
    requires i < |groups|
    ensures EncodeGroups(part, task, groups)[i] == PointObject(part, task, groups[i].0, groups[i].1)
  {
    hide PointObject;
    if i > 0 { GroupAt(part, task, groups[1..], i - 1); }
  }

  function StepAndTs(point: PayloadPoint): (int, int) {
    (if "step" in point then point["step"].Floor else -1, if "ts" in point then point["ts"].Floor else -1)
  }

  lemma ObjectStepAndTs(part: map<PointKey, real>, task: string, step: int, ts: int)
    ensures StepAndTs(PointObject(part, task, step, ts)) == (step, ts)
    ensures "step" in PointObject(part, task, step, ts) && "ts" in PointObject(part, task, step, ts)
  {
    var point := PointObject(part, task, step, ts);
    assert point["step"].Floor == step && point["ts"].Floor == ts;
  }

  lemma ObjectMember(part: map<PointKey, real>, task: string, step: int, ts: int, name: string)
    requires Ordinary(name) && forall k | k in part :: k.task == task
    ensures name in PointObject(part, task, step, ts) <==> PointKey(task, name, step, ts) in part
    ensures name in PointObject(part, task, step, ts)
            ==> PointObject(part, task, step, ts)[name] == part[PointKey(task, name, step, ts)]
  {
    if PointKey(task, name, step, ts) in part {
      assert PointKey(task, name, step, ts).name in NamesIn(part, step, ts);
    }
  }

  lemma DecodeObject(part: map<PointKey, real>, task: string, step: int, ts: int)
    requires forall k | k in part :: k.task == task
    ensures DecodePoint(task, PointObject(part, task, step, ts))
         == map k | k in part && k.step == step && k.ts == ts && Ordinary(k.name) :: part[k]
  {
    hide PointObject;
    ObjectStepAndTs(part, task, step, ts);
    forall name | Ordinary(name)
      ensures name in PointObject(part, task, step, ts) <==> PointKey(task, name, step, ts) in part
      ensures name in PointObject(part, task, step, ts)
              ==> PointObject(part, task, step, ts)[name] == part[PointKey(task, name, step, ts)]
    {
      ObjectMember(part, task, step, ts, name);
    }
    assert forall k | k in part :: k == PointKey(task, k.name, k.step, k.ts);
  }

  lemma {:induction false} DecodeGroups(part: map<PointKey, real>, task: string, groups: seq<(int, int)>)
    requires forall k | k in part :: k.task == task
    ensures Decode(task, EncodeGroups(part, task, groups))
         == map k | k in part && (k.step, k.ts) in groups && Ordinary(k.name) :: part[k]
  {
    hide DecodePoint, PointObject;
    if groups != [] {
      var head := groups[0];
      DecodeObject(part, task, head.0, head.1);
      DecodeGroups(part, task, groups[1..]);
      assert EncodeGroups(part, task, groups)[1..] == EncodeGroups(part, task, groups[1..]);
      assert forall g :: g in groups <==> g == head || g in groups[1..];
    }
  }

  /** A payload decodes to exactly the encoded points whose key is neither "step" nor "ts":
      those two are overwritten by the members that carry the group's step and timestamp. */
  lemma PayloadRoundTrip(part: map<PointKey, real>, task: string)
    requires forall k | k in part :: k.task == task
    ensures Decode(task, TaskPayload(part, task)) == OrdinaryOf(part)
  {
    hide Decode, EncodeGroups, SortPairs;
    var groups := SortPairs(Groups(part));
    DecodeGroups(part, task, groups);
    assert forall k | k in part :: (k.step, k.ts) in Groups(part) && (k.step, k.ts) in groups;
  }

  /** Each (step, ts) group appears once in a payload, and the groups are in (step, ts) order. */
  lemma PayloadOrder(part: map<PointKey, real>, task: string)
    ensures var p := TaskPayload(part, task);
            && (forall i, j | 0 <= i < j < |p| ::
                  PairLe(StepAndTs(p[i]), StepAndTs(p[j])) && StepAndTs(p[i]) != StepAndTs(p[j]))
            && (forall k | k in part :: exists i :: 0 <= i < |p| && StepAndTs(p[i]) == (k.step, k.ts))
  {
    hide EncodeGroups, SortPairs, PointObject;
    var p, groups := TaskPayload(part, task), SortPairs(Groups(part));
    forall i | 0 <= i < |p|
      ensures StepAndTs(p[i]) == groups[i]
    {
      GroupAt(part, task, groups, i);
      ObjectStepAndTs(part, task, groups[i].0, groups[i].1);
    }
    forall k | k in part
      ensures exists i :: 0 <= i < |p| && StepAndTs(p[i]) == (k.step, k.ts)
    {
      assert (k.step, k.ts) in groups;
      var i :| 0 <= i < |groups| && groups[i] == (k.step, k.ts);
      assert StepAndTs(p[i]) == groups[i];
    }
  }

  /** Everything a reader of the task's first n events learns. */
  function DecodeLog(db: Tables, task: string, n: nat): map<PointKey, real> {
    if n == 0 then map[]
    else if EventId(task, n) in db.events
    then DecodeLog(db, task, n - 1) + Decode(task, db.events[EventId(task, n)].payload)
    else DecodeLog(db, task, n - 1)
  }

  lemma ReadEvent(db: Tables, owner: map<PointKey, EventId>, e: EventId)
    requires Owned(db.points, db.events, owner) && Reported(db.points, db.events, owner) && e in db.events
    ensures Decode(e.task, db.events[e].payload)
         == map k | k in db.points && k in owner && owner[k] == e && Ordinary(k.name) :: db.points[k]
  {
    hide TaskPayload, Decode;
    PayloadRoundTrip(PartOf(db.points, owner, e), e.task);
  }

  lemma {:induction false} LogPrefix(db: Tables, owner: map<PointKey, EventId>, task: string, n: nat)
    requires Sound(db, owner) && n <= LastNumber(db, task)
    ensures DecodeLog(db, task, n)
         == map k | k in db.points && k in owner && owner[k].task == task && 1 <= owner[k].number <= n
             && Ordinary(k.name)
              :: db.points[k]
  {
    hide TaskPayload, Decode, PartOf, Seeded, Mirrored, Reported, Owned;
    if n > 0 {
      LogPrefix(db, owner, task, n - 1);
      assert EventId(task, n) in db.events;
      ReadEvent(db, owner, EventId(task, n));
    }
  }

  /** Reading all of a task's events recovers exactly its stored points, key by key and value by
      value, except those whose key is "step" or "ts". */
  lemma LogIsLossless(db: Tables, owner: map<PointKey, EventId>, task: string)
    requires Sound(db, owner)
    ensures DecodeLog(db, task, LastNumber(db, task))
         == map k | k in db.points && k.task == task && Ordinary(k.name) :: db.points[k]
  {
    hide DecodeLog, Reported, Mirrored, Seeded;
    LogPrefix(db, owner, task, LastNumber(db, task));
    assert forall k | k in owner :: owner[k].task == k.task && 1 <= owner[k].number <= LastNumber(db, k.task);
  }

  /** Two different events never report the same point. */
  lemma EventsDisjoint(db: Tables, owner: map<PointKey, EventId>, e: EventId, f: EventId)
    requires Sound(db, owner) && e in db.events && f in db.events && e != f
    ensures Decode(e.task, db.events[e].payload).Keys !! Decode(f.task, db.events[f].payload).Keys
  {
    hide TaskPayload;
    ReadEvent(db, owner, e);
    ReadEvent(db, owner, f);
  }

  /** The shadowing is real: a metric named "step" is accepted and stored, and its event loses it. */
  lemma StepMetricIsShadowed(task: string, step: int, ts: int, value: real)
    ensures var part := map[PointKey(task, "step", step, ts) := value];
            && |TaskPayload(part, task)| == 1
            && TaskPayload(part, task)[0] == map["step" := step as real, "ts" := ts as real]
            && Decode(task, TaskPayload(part, task)) == map[]
  {
    var k := PointKey(task, "step", step, ts);
    var part := map[k := value];
    assert k in part;
    assert Groups(part) == {(step, ts)};
    assert |SortPairs(Groups(part))| == 1;
    assert SortPairs(Groups(part))[0] in Groups(part);
    PayloadRoundTrip(part, task);
  }
}
