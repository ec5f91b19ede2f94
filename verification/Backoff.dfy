/** Retry delays in seconds (internal/reconcile/backoff.go). */
module Backoff {
  const BASE_DELAY: nat := 5
  const MAX_DELAY: nat := 300
  const STALLED_RECHECK: nat := 1800

  function Pow2(n: nat): nat {
    if n == 0 then 1 else 2 * Pow2(n - 1)
  }

  function ComputeBackoff(failures: int): nat {
    if failures <= 1 then BASE_DELAY
    else
      var delay := BASE_DELAY * Pow2(failures - 1);
      if delay > MAX_DELAY then MAX_DELAY else delay
  }

  lemma {:induction false} Pow2Grows(m: nat, n: nat)
    requires m <= n
    ensures Pow2(m) <= Pow2(n)
    decreases n
  {
    if m < n {
      Pow2Grows(m, n - 1);
    }
  }

  /** The delay after the n-th failure in a row is min(5s * 2^(n-1), 5min): it never
      shrinks, stays within the two bounds and reaches the cap at the seventh failure. */
  lemma BackoffLaw(m: nat, n: nat)
    requires 1 <= m <= n
    ensures var d := BASE_DELAY * Pow2(n - 1); ComputeBackoff(n) == if d < MAX_DELAY then d else MAX_DELAY
    ensures BASE_DELAY <= ComputeBackoff(m) <= ComputeBackoff(n) <= MAX_DELAY
    ensures ComputeBackoff(n) == MAX_DELAY <==> n >= 7
  {
    Pow2Grows(m - 1, n - 1);
    Pow2Grows(0, m - 1);
    assert Pow2(5) == 32 && Pow2(6) == 64;
    if n >= 7 {
      Pow2Grows(6, n - 1);
    } else {
      Pow2Grows(n - 1, 5);
    }
  }
}
