/** The outbox table: task-head claims with lease tokens, and the guarded publish transitions. */
module Outbox {
  import opened Domain
  import opened Order
  import opened Store

  type Table = map<EventId, OutboxRow>

  predicate Published(table: Table, e: EventId) {
    e in table && table[e].publishedAt.Some?
  }

  /** Some earlier event of the same task is still unpublished. */
  predicate Blocked(table: Table, e: EventId) {
    exists f :: f in table && f.task == e.task && f.number < e.number && !Published(table, f)
  }

  /** What the claim statement may select at time `now`. */
  predicate Eligible(table: Table, e: EventId, now: int) {
    && e in table && !Published(table, e)
    && table[e].nextAttemptAt <= now
    && (table[e].claimedUntil.None? || table[e].claimedUntil.value <= now)
    && !Blocked(table, e)
  }

  /** LIMIT and SKIP LOCKED let a claim take any part of the eligible rows. */
  function Claim(table: Table, chosen: set<EventId>, token: nat, until: int): Table {
    map e | e in table ::
      if e in chosen then table[e].(claimToken := Some(token), claimedUntil := Some(until)) else table[e]
  }

  /** The guard of all three transitions: WHERE claim_token = $2 AND published_at IS NULL. */
  predicate Guard(table: Table, e: EventId, token: nat) {
    e in table && table[e].claimToken == Some(token) && table[e].publishedAt.None?
  }

  function MarkPublished(table: Table, e: EventId, token: nat, now: int): Table {
    if Guard(table, e, token)
    then table[e := table[e].(publishedAt := Some(now), claimedUntil := None, claimToken := None)]
    else table
  }

  function MarkFailed(table: Table, e: EventId, token: nat, now: int, backoff: int): Table {
    if Guard(table, e, token)
    then table[e := table[e].(attempts := table[e].attempts + 1, nextAttemptAt := now + backoff,
                              claimedUntil := None, claimToken := None)]
    else table
  }

  function ReleaseClaim(table: Table, e: EventId, token: nat): Table {
    if Guard(table, e, token)
    then table[e := table[e].(claimedUntil := None, claimToken := None)]
    else table
  }

  /** Retention removes published rows only. */
  function Purge(table: Table, gone: set<EventId>): Table {
    map e | e in table && !(e in gone && Published(table, e)) :: table[e]
  }

  // ---------------------------------------------------------------- prefix safety

  /** Within a task, nothing is published before everything earlier is. */
  ghost predicate PrefixPublished(table: Table) {
    forall e | e in table && Published(table, e) :: !Blocked(table, e)
  }

  /** A claim token stands only on the first unpublished row of a task. */
  ghost predicate ClaimsAtHead(table: Table) {
    forall e | e in table ::
      && (table[e].claimToken.Some? <==> table[e].claimedUntil.Some?)
      && (table[e].claimToken.Some? ==> !Published(table, e) && !Blocked(table, e))
  }

  ghost predicate Safe(table: Table) {
    PrefixPublished(table) && ClaimsAtHead(table)
  }

  /** Publication never reverts, and no row loses its place except by purging. */
  ghost predicate Advances(before: Table, after: Table) {
    before.Keys <= after.Keys && forall e | Published(before, e) :: Published(after, e)
  }

  /** In an advancing table with the same rows, an unblocked row stays unblocked. */
  lemma StaysUnblocked(before: Table, after: Table, e: EventId)
    requires Advances(before, after) && !Blocked(before, e)
    requires forall f | f in after && f !in before && f.task == e.task :: e.number <= f.number
    ensures !Blocked(after, e)
  {
    forall f | f in after && f.task == e.task && f.number < e.number
      ensures Published(after, f)
    {
      assert f in before && Published(before, f);
    }
  }

  /** At most one row of a task carries a claim token. */
  lemma OneClaimPerTask(table: Table, e: EventId, f: EventId)
    requires Safe(table) && e in table && f in table && e.task == f.task
    requires table[e].claimToken.Some? && table[f].claimToken.Some?
    ensures e == f
  {
    assert !Blocked(table, e) && !Published(table, e);
    assert !Blocked(table, f) && !Published(table, f);
  }

  /** The published rows of a task form a prefix of its event order. */
  lemma PublishedIsPrefix(table: Table, e: EventId, f: EventId)
    requires Safe(table) && e in table && Published(table, f) && e.task == f.task && e.number <= f.number
    ensures Published(table, e)
  {
    assert !Blocked(table, f);
    if e.number == f.number { assert e == f; }
  }

  lemma ClaimKeepsSafe(table: Table, chosen: set<EventId>, token: nat, now: int, until: int)
    requires Safe(table) && forall e | e in chosen :: Eligible(table, e, now)
    ensures Safe(Claim(table, chosen, token, until)) && Advances(table, Claim(table, chosen, token, until))
    ensures forall e :: Blocked(Claim(table, chosen, token, until), e) <==> Blocked(table, e)
  {
    SameProgress(table, Claim(table, chosen, token, until));
  }

  /** Rows with the same published status block the same events. */
  lemma SameProgress(before: Table, after: Table)
    requires before.Keys == after.Keys && forall e | e in before :: Published(before, e) == Published(after, e)
    ensures forall e :: Blocked(after, e) <==> Blocked(before, e)
  {
    forall e
      ensures Blocked(after, e) <==> Blocked(before, e)
    {
      if f :| f in after && f.task == e.task && f.number < e.number && !Published(after, f) {
        assert f in before && !Published(before, f);
      }
      if f :| f in before && f.task == e.task && f.number < e.number && !Published(before, f) {
        assert f in after && !Published(after, f);
      }
    }
  }

  lemma MarkPublishedKeepsSafe(table: Table, e: EventId, token: nat, now: int)
    requires Safe(table)
    ensures Safe(MarkPublished(table, e, token, now)) && Advances(table, MarkPublished(table, e, token, now))
  {
    var after := MarkPublished(table, e, token, now);
    forall f | f in table && !Blocked(table, f)
      ensures !Blocked(after, f)
    {
      StaysUnblocked(table, after, f);
    }
  }

  lemma MarkFailedKeepsSafe(table: Table, e: EventId, token: nat, now: int, backoff: int)
    requires Safe(table)
    ensures Safe(MarkFailed(table, e, token, now, backoff))
        && Advances(table, MarkFailed(table, e, token, now, backoff))
  {
    SameProgress(table, MarkFailed(table, e, token, now, backoff));
  }

  lemma ReleaseKeepsSafe(table: Table, e: EventId, token: nat)
    requires Safe(table)
    ensures Safe(ReleaseClaim(table, e, token)) && Advances(table, ReleaseClaim(table, e, token))
  {
    SameProgress(table, ReleaseClaim(table, e, token));
  }

  /** Removing published rows unblocks nothing that was blocked and blocks nothing new. */
  lemma PurgeKeepsSafe(table: Table, gone: set<EventId>)
    requires Safe(table)
    ensures Safe(Purge(table, gone))
    ensures forall e :: Blocked(Purge(table, gone), e) <==> Blocked(table, e)
    ensures forall e, now | e in Purge(table, gone) :: Eligible(Purge(table, gone), e, now) <==> Eligible(table, e, now)
  {
    var after := Purge(table, gone);
    forall e
      ensures Blocked(after, e) <==> Blocked(table, e)
    {
      if f :| f in table && f.task == e.task && f.number < e.number && !Published(table, f) {
        assert f in after && !Published(after, f);
      }
      if f :| f in after && f.task == e.task && f.number < e.number && !Published(after, f) {
        assert f in table && !Published(table, f);
      }
    }
  }

  /** New rows enter unclaimed and unpublished, behind every row of their task. */
  lemma InsertKeepsSafe(table: Table, added: Table)
    requires Safe(table) && table.Keys !! added.Keys
    requires forall e | e in added ::
               added[e].claimToken == None && added[e].claimedUntil == None && added[e].publishedAt == None
    requires forall e, f | e in table && f in added && e.task == f.task :: e.number < f.number
    ensures Safe(table + added) && Advances(table, table + added)
  {
    forall e | e in table && !Blocked(table, e)
      ensures !Blocked(table + added, e)
    {
      StaysUnblocked(table, table + added, e);
    }
  }

  /** No task gets stuck: while it has an unpublished row, its first one is claimable as soon as its
      retry time has come and no lease stands on it. */
  lemma HeadIsClaimable(table: Table, e: EventId) returns (head: EventId)
    requires e in table && !Published(table, e)
    ensures head in table && head.task == e.task && head.number <= e.number && !Published(table, head)
    ensures forall now | table[head].nextAttemptAt <= now
                      && (table[head].claimedUntil.Some? ==> table[head].claimedUntil.value <= now) ::
                          Eligible(table, head, now)
  {
    var numbers := set f | f in table && f.task == e.task && !Published(table, f) :: f.number;
    assert e.number in numbers;
    head := EventId(e.task, Min(numbers));
    assert forall f | f in table && f.task == e.task && !Published(table, f) :: f.number in numbers;
  }

  // ---------------------------------------------------------------- what each statement does to eligibility

  /** The claim statement takes its rows off the market until the lease ends, and no longer; it changes no
      other row's eligibility. */
  lemma ClaimLeases(table: Table, chosen: set<EventId>, token: nat, until: int, e: EventId, t: int)
    ensures Eligible(Claim(table, chosen, token, until), e, t) <==>
              if e !in chosen then Eligible(table, e, t)
              else e in table && !Published(table, e) && !Blocked(table, e) && table[e].nextAttemptAt <= t && until <= t
  {
    SameProgress(table, Claim(table, chosen, token, until));
  }

  /** A failed publish gives its row up at once, to be tried again when the backoff has passed. */
  lemma FailureDelays(table: Table, f: EventId, token: nat, now: int, backoff: int, e: EventId, t: int)
    requires Guard(table, f, token)
    ensures Eligible(MarkFailed(table, f, token, now, backoff), e, t) <==>
              if e != f then Eligible(table, e, t) else !Blocked(table, e) && now + backoff <= t
  {
    SameProgress(table, MarkFailed(table, f, token, now, backoff));
  }

  /** A release gives its row up at once. */
  lemma ReleaseFrees(table: Table, f: EventId, token: nat, e: EventId, t: int)
    requires Guard(table, f, token)
    ensures Eligible(ReleaseClaim(table, f, token), e, t) <==>
              if e != f then Eligible(table, e, t) else !Blocked(table, e) && table[e].nextAttemptAt <= t
  {
    SameProgress(table, ReleaseClaim(table, f, token));
  }

  /** A published row is done with, and stands no longer in the way of later ones of its task. */
  lemma PublishUnblocks(table: Table, f: EventId, token: nat, now: int, e: EventId, t: int)
    requires Guard(table, f, token)
    ensures Eligible(MarkPublished(table, f, token, now), e, t) <==>
              && e != f && e in table && !Published(table, e) && table[e].nextAttemptAt <= t
              && (table[e].claimedUntil.None? || table[e].claimedUntil.value <= t)
              && forall g | g in table && g.task == e.task && g.number < e.number :: g == f || Published(table, g)
  {
  }
}
