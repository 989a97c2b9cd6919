/** Capped exponential backoff, as the worker, the relay and the publisher keep it. */
module Backoffs {
  function Pow2(k: nat): nat { if k == 0 then 1 else 2 * Pow2(k - 1) }

  /** min(initial * 2^k, max): the wait after k straight failures. */
  function Capped(initial: nat, max: nat, k: nat): nat {
    if initial * Pow2(k) < max then initial * Pow2(k) else max
  }

  /** minDuration(current * 2, max) */
  function Next(current: nat, max: nat): nat {
    if current * 2 < max then current * 2 else max
  }

  lemma CappedDoubles(initial: nat, max: nat, k: nat)
    ensures Capped(initial, max, k + 1) == Next(Capped(initial, max, k), max)
  {
    var p := Pow2(k);
    assert Pow2(k + 1) == 2 * p;
    assert initial * (2 * p) == 2 * (initial * p);
  }

  lemma CappedStart(initial: nat, max: nat)
    requires initial <= max
    ensures Capped(initial, max, 0) == initial
  {
    assert Pow2(0) == 1;
  }

  /** Once at the cap, it stays there. */
  lemma {:induction false} CappedStays(initial: nat, max: nat, k: nat, n: nat)
    requires k <= n && Capped(initial, max, k) == max
    ensures Capped(initial, max, n) == max
    decreases n - k
  {
    if k < n {
      CappedDoubles(initial, max, k);
      CappedStays(initial, max, k + 1, n);
    }
  }
}
