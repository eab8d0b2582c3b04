/** The delay before a retry: exponential, saturating, capped and jittered. */
module Backoff {
  import opened Common

  const MAX_BACKOFF: nat := 30 * SECOND

  /** The longest `Duration`: a `u64` of seconds and 999_999_999 nanoseconds. */
  const DURATION_MAX: nat := (U64_MAX + 1) * SECOND - 1

  function Pow2(e: nat): (p: nat)
    ensures p >= 1
  {
    if e == 0 then 1 else 2 * Pow2(e - 1)
  }

  /** `2u32.saturating_pow(e)`. */
  function SaturatingPow2(e: nat): nat {
    Min(Pow2(e), U32_MAX)
  }

  /** `Duration::checked_mul`. */
  function CheckedMul(d: nat, k: nat): Option<nat> {
    if d * k <= DURATION_MAX then Some(d * k) else None
  }

  /** The `capped` delay in front of send number `attempt`, counted from 0. */
  function Capped(initial: nat, attempt: nat): nat
    requires attempt > 0
  {
    var base := match CheckedMul(initial, SaturatingPow2(attempt - 1))
      case Some(d) => d
      case None => MAX_BACKOFF;
    Min(base, MAX_BACKOFF)
  }

  /** `capped_ms`, the exclusive end of the jitter range, in milliseconds. */
  function JitterEnd(initial: nat, attempt: nat): nat
    requires attempt > 0
  {
    Max(Min(Capped(initial, attempt) / MILLI, U64_MAX), 1)
  }

  /** The delay the code means, over unbounded integers. */
  function Ideal(initial: nat, attempt: nat): nat
    requires attempt > 0
  {
    Min(initial * Pow2(attempt - 1), MAX_BACKOFF)
  }

  lemma {:induction false} Pow2Monotone(a: nat, b: nat)
    requires a <= b
    ensures Pow2(a) <= Pow2(b)
    decreases b
  {
    if a < b {
      Pow2Monotone(a, b - 1);
    }
  }

  lemma Pow2At32()
    ensures Pow2(31) == 0x8000_0000 && Pow2(32) == 0x1_0000_0000
  {
    assert Pow2(8) == 256;
    assert Pow2(16) == 65536;
    assert Pow2(24) == 0x100_0000;
  }

  lemma MulMonotone(d: nat, a: nat, b: nat)
    requires a <= b
    ensures d * a <= d * b
  {
  }

  lemma CappedIsMin(initial: nat, attempt: nat)
    requires attempt > 0
    ensures Capped(initial, attempt) == Min(initial * SaturatingPow2(attempt - 1), MAX_BACKOFF)
  {
  }

  /** Without saturation, or when saturation already exceeds the cap, the code computes the ideal. */
  lemma LargeOrSmallIsIdeal(initial: nat, attempt: nat)
    requires attempt > 0 && (attempt <= 32 || initial == 0 || initial >= 7)
    ensures Capped(initial, attempt) == Ideal(initial, attempt)
  {
    var e := attempt - 1;
    CappedIsMin(initial, attempt);
    Pow2At32();
    if e <= 31 {
      Pow2Monotone(e, 31);
    } else if initial >= 7 {
      Pow2Monotone(32, e);
      MulMonotone(initial, U32_MAX, Pow2(e));
      assert initial * U32_MAX >= 7 * U32_MAX >= MAX_BACKOFF;
    }
  }

  /** The code computes the ideal delay for every attempt exactly for these initial delays. */
  lemma IdealExactly(initial: nat)
    ensures (forall attempt :: attempt > 0 ==> Capped(initial, attempt) == Ideal(initial, attempt))
            <==> initial == 0 || initial >= 7
  {
    if initial == 0 || initial >= 7 {
      forall attempt | attempt > 0
        ensures Capped(initial, attempt) == Ideal(initial, attempt)
      {
        LargeOrSmallIsIdeal(initial, attempt);
      }
    } else {
      Pow2At32();
      CappedIsMin(initial, 33);
      assert initial * U32_MAX < initial * Pow2(32) < MAX_BACKOFF;
      assert Capped(initial, 33) != Ideal(initial, 33);
    }
  }

  lemma CappedNondecreasing(initial: nat, a: nat, b: nat)
    requires 0 < a <= b
    ensures Capped(initial, a) <= Capped(initial, b)
  {
    CappedIsMin(initial, a);
    CappedIsMin(initial, b);
    Pow2Monotone(a - 1, b - 1);
    MulMonotone(initial, SaturatingPow2(a - 1), SaturatingPow2(b - 1));
  }

  /**
   * For every initial delay and every attempt, in nanoseconds: the delays of the jitter range
   * are the whole milliseconds below the smaller of 30 s and the doubled delay, or just 0. The
   * factor stops growing at the end of a `u32`.
   */
  lemma JitterEndExactly(initial: nat, attempt: nat, ms: nat)
    requires attempt > 0
    ensures ms < JitterEnd(initial, attempt) <==>
              ms == 0
              || (ms + 1) * 1_000_000 <= Min(initial * Min(Pow2(attempt - 1), 4_294_967_295), 30_000_000_000)
  {
    CappedIsMin(initial, attempt);
    var capped := Capped(initial, attempt);
    assert capped <= 30_000_000_000;
    assert ms + 1 <= capped / MILLI <==> (ms + 1) * MILLI <= capped;
  }

  /** For an initial delay of 0 or at least 7 ns the factor is the power of two for every attempt. */
  lemma JitterIsExponential(initial: nat, attempt: nat, ms: nat)
    requires attempt > 0 && (initial == 0 || initial >= 7)
    ensures ms < JitterEnd(initial, attempt) <==>
              ms == 0 || (ms + 1) * 1_000_000 <= Min(initial * Pow2(attempt - 1), 30_000_000_000)
  {
    LargeOrSmallIsIdeal(initial, attempt);
    CappedIsMin(initial, attempt);
    JitterEndExactly(initial, attempt, ms);
  }

  /** The jitter range holds a delay, and every delay in it is shorter than 30 s. */
  lemma JitterRange(initial: nat, attempt: nat)
    requires attempt > 0
    ensures JitterEnd(initial, attempt) >= 1
    ensures forall ms: nat :: ms < JitterEnd(initial, attempt) ==>
              ms * MILLI < MAX_BACKOFF && (ms * MILLI < Capped(initial, attempt) || ms == 0)
  {
    var capped := Capped(initial, attempt);
    forall ms: nat | ms < JitterEnd(initial, attempt)
      ensures ms * MILLI < MAX_BACKOFF && (ms * MILLI < capped || ms == 0)
    {
      if ms > 0 {
        assert ms < capped / MILLI;
        assert ms * MILLI < capped / MILLI * MILLI <= capped;
      }
    }
  }
}
