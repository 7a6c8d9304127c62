/** Reconnection backoff of the IDLE pool (internal/sync/pool.go), in seconds. */
module Backoff {
  import opened Common

  const INITIAL_BACKOFF := 1
  const MAX_BACKOFF := 300

  /** handleConnectionError's new backoff. */
  function NextBackoff(backoff: int): int {
    var doubled := backoff * 2;
    if doubled > MAX_BACKOFF then MAX_BACKOFF else doubled
  }

  function Pow2(n: nat): nat {
    if n == 0 then 1 else 2 * Pow2(n - 1)
  }

  /** The backoff after `failures` straight failures, in closed form. */
  function BackoffAfter(failures: nat): int {
    Min(Pow2(failures), MAX_BACKOFF)
  }

  lemma NextIsClosedForm(failures: nat)
    ensures NextBackoff(BackoffAfter(failures)) == BackoffAfter(failures + 1)
    ensures BackoffAfter(0) == INITIAL_BACKOFF
  {
  }

  /** All the waits of `failures` straight failures: the worker waits for the backoff it has just raised. */
  function TotalWait(failures: nat): int {
    if failures == 0 then 0 else TotalWait(failures - 1) + BackoffAfter(failures)
  }

  lemma {:induction false} Pow2Grows(n: nat)
    requires n >= 9
    ensures Pow2(n) >= 512
  {
    if n == 9 {
      assert Pow2(4) == 16;
      assert Pow2(8) == 256;
    } else {
      Pow2Grows(n - 1);
    }
  }

  /** The time to the next try after straight failures: 2^(n+1) - 2 up to the eighth, then 300 more each. */
  lemma {:induction false} TotalWaitClosedForm(failures: nat)
    ensures TotalWait(failures) == if failures <= 8 then Pow2(failures + 1) - 2 else 510 + 300 * (failures - 8)
  {
    if failures > 0 {
      TotalWaitClosedForm(failures - 1);
      if failures >= 9 {
        Pow2Grows(failures);
        assert Pow2(4) == 16;
        assert Pow2(8) == 256;
      } else {
        Pow2IsSmall(failures);
      }
    }
  }

  lemma {:induction false} Pow2IsSmall(n: nat)
    requires n <= 8
    ensures Pow2(n) <= 256
    decreases 8 - n
  {
    if n == 8 {
      assert Pow2(4) == 16;
    } else {
      Pow2IsSmall(n + 1);
    }
  }
}
