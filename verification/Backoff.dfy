/** The delay before a reconnection attempt. */
module Backoff {
  import opened Arithmetic
  import opened Digest

  const TWO62: int := 0x4000_0000_0000_0000

  function Doubled(initial: int, times: nat): int {
    if times == 0 then initial else 2 * Doubled(initial, times - 1)
  }

  lemma {:induction false} DoubledGrows(initial: int, j: nat, k: nat)
    requires initial > 0 && j <= k
    ensures 0 < Doubled(initial, j) <= Doubled(initial, k)
    decreases k
  {
    if j < k {
      DoubledGrows(initial, j, k - 1);
    } else if j > 0 {
      DoubledGrows(initial, j - 1, j - 1);
    }
  }

  /** Every value the loop computes fits 64 bits: it only doubles a delay below the cap. */
  ghost predicate FitsThroughout(initial: int, cap: int, attempt: nat) {
    forall k :: 0 <= k < attempt && Doubled(initial, k) < cap ==> 2 * Doubled(initial, k) <= INT64_MAX
  }

  /**
   Capped doubling in 64 bits. The variable wraps as the machine's would, so the result is only the
   one meant when nothing overflowed: the smaller of the cap and the doubled delay.
   */
  method ReconnectBackoff(attempt: nat, initial: Int64, cap: Int64) returns (delay: Int64)
    ensures initial <= 0 ==> delay == 0
    ensures initial > 0 && FitsThroughout(initial, cap, attempt) ==>
      delay <= cap && delay <= Doubled(initial, attempt) && (delay == cap || delay == Doubled(initial, attempt))
  {
    if initial <= 0 {
      return 0;
    }
    delay := initial;
    for step := 0 to attempt
      invariant FitsThroughout(initial, cap, attempt) ==> delay == Doubled(initial, step)
    {
      DoubledGrows(initial, step, step);
      if delay >= cap {
        DoubledGrows(initial, step, attempt);
        break;
      }
      assert Doubled(initial, step + 1) == 2 * Doubled(initial, step);
      delay := ToInt64(2 * delay);
    }
    if delay > cap {
      return cap;
    }
  }

  /**
   Exactly the caps up to 2^62 are free of overflow for every initial delay and attempt; with a larger
   cap the first doubling from 2^62 is already too large.
   */
  lemma OverflowFreeCaps(cap: Int64)
    ensures cap <= TWO62 <==> forall initial: int, attempt: nat :: 0 < initial <= INT64_MAX ==> FitsThroughout(initial, cap, attempt)
  {
    if cap <= TWO62 {
      forall initial: int, attempt: nat | 0 < initial <= INT64_MAX ensures FitsThroughout(initial, cap, attempt) {}
    } else {
      assert Doubled(TWO62, 0) == TWO62;
      assert !FitsThroughout(TWO62, cap, 1);
    }
  }

  /** The k-th doubling is the initial delay times two to the k. */
  lemma {:induction false} DoubledIsPower(initial: int, k: nat)
    ensures Doubled(initial, k) == initial * Pow2(k)
  {
    if k > 0 {
      DoubledIsPower(initial, k - 1);
      Associate(initial, 2, Pow2(k - 1));
      Associate(2, initial, Pow2(k - 1));
    }
  }
}
