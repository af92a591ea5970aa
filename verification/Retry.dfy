/** When a retry is due. Times are u64 milliseconds, attempts are u32; both saturate. */
module Retry {
  import opened Prelude

  const BASE_DELAY_MS: nat := 10_000
  const CONTINUATION_RETRY_DELAY_MS: nat := 1_000

  function Pow2(n: nat): nat {
    if n == 0 then 1 else 2 * Pow2(n - 1)
  }

  /** `u64::saturating_mul`. */
  function SaturatingMul(a: nat, b: nat): nat {
    if a * b <= U64_MAX then a * b else U64_MAX
  }

  function Clamp(n: nat, low: nat, high: nat): nat {
    if n < low then low else if n > high then high else n
  }

  function FailureRetryDelayMs(attempt: nat, maxRetryBackoffMs: nat): nat {
    var clamped := Clamp(attempt, 1, 63);
    var factor := Pow2(clamped - 1);
    Min(SaturatingMul(BASE_DELAY_MS, factor), maxRetryBackoffMs)
  }

  function ContinuationRetryDueAtMs(nowMs: nat): nat {
    SaturatingAdd(nowMs, CONTINUATION_RETRY_DELAY_MS, U64_MAX)
  }

  function FailureRetryDueAtMs(attempt: nat, maxRetryBackoffMs: nat, nowMs: nat): nat {
    SaturatingAdd(nowMs, FailureRetryDelayMs(attempt, maxRetryBackoffMs), U64_MAX)
  }

  lemma {:induction false} Pow2Monotone(m: nat, n: nat)
    requires m <= n
    ensures Pow2(m) <= Pow2(n)
    decreases n - m
  {
    if m < n {
      Pow2Monotone(m, n - 1);
    }
  }

  lemma {:induction false} Pow2Add(m: nat, n: nat)
    ensures Pow2(m + n) == Pow2(m) * Pow2(n)
  {
    if m > 0 {
      Pow2Add(m - 1, n);
    }
  }

  /** The largest factor the code can shift out is representable, and ten seconds times it is not. */
  lemma LargestFactor()
    ensures Pow2(62) == 0x4000_0000_0000_0000
    ensures Pow2(62) <= U64_MAX < BASE_DELAY_MS * Pow2(62)
  {
    assert Pow2(3) == 8;
    Pow2Add(3, 3);
    Pow2Add(6, 6);
    Pow2Add(12, 12);
    Pow2Add(24, 24);
    Pow2Add(48, 12);
    assert Pow2(62) == 2 * (2 * Pow2(60));
  }

  /** Clamping and saturation never show: the delay is the exact doubling, cut at the cap. */
  lemma FailureDelayClosedForm(attempt: nat, cap: nat)
    requires attempt <= U32_MAX && cap <= U64_MAX
    ensures FailureRetryDelayMs(attempt, cap) == Min(BASE_DELAY_MS * Pow2(Max(attempt, 1) - 1), cap)
  {
    if attempt > 63 {
      LargestFactor();
      Pow2Monotone(62, attempt - 1);
    }
  }

  /** More failures never shorten the delay, and no delay exceeds the cap. */
  lemma FailureDelayMonotone(a: nat, b: nat, cap: nat)
    requires a <= b <= U32_MAX && cap <= U64_MAX
    ensures FailureRetryDelayMs(a, cap) <= FailureRetryDelayMs(b, cap) <= cap
  {
    FailureDelayClosedForm(a, cap);
    FailureDelayClosedForm(b, cap);
    Pow2Monotone(Max(a, 1) - 1, Max(b, 1) - 1);
  }
}
