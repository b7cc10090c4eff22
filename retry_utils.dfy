/**
 * Exponential retry delay with bounded jitter
 * (backend/services/retry_utils.py). The random jitter, drawn by
 * `random.randint(0, max(1, base // 2))`, is a parameter here.
 */
module RetryUtils {
  const DefaultBase: nat := 60
  const DefaultMax: nat := 3600

  function Min(a: int, b: int): int { if a <= b then a else b }
  function Max(a: int, b: int): int { if a >= b then a else b }

  function Pow2(n: nat): (r: nat)
    ensures r >= 1
  {
    if n == 0 then 1 else 2 * Pow2(n - 1)
  }

  /** The largest jitter `randint` can draw: max(1, base // 2). */
  function JitterBound(base: nat): nat {
    Max(1, base / 2)
  }

  /** The deterministic part min(max, base * 2^(attempts - 1)). */
  function Exponential(attempts: nat, base: nat, maxSeconds: nat): nat
    requires attempts >= 1
  {
    Min(maxSeconds, base * Pow2(attempts - 1))
  }

  /**
   * compute_backoff_seconds: the base delay for attempts <= 0 (no jitter is
   * drawn), otherwise the capped exponential delay plus the drawn jitter.
   */
  function ComputeBackoffSeconds(attempts: int, jitter: nat, base: nat, maxSeconds: nat): (r: nat)
    requires jitter <= JitterBound(base)
    ensures attempts <= 0 ==> r == base
    ensures attempts >= 1 ==>
      Exponential(attempts, base, maxSeconds) <= r <= Exponential(attempts, base, maxSeconds) + JitterBound(base)
  {
    if attempts <= 0 then base else Exponential(attempts, base, maxSeconds) + jitter
  }

  /** The delay never exceeds max + max(1, base // 2) once attempts >= 1. */
  lemma BackoffCeiling(attempts: int, jitter: nat, base: nat, maxSeconds: nat)
    requires jitter <= JitterBound(base)
    requires attempts >= 1 || base <= maxSeconds
    ensures ComputeBackoffSeconds(attempts, jitter, base, maxSeconds) <= maxSeconds + JitterBound(base)
  {
  }

  /** With the defaults (60 s base, 3600 s cap) no delay exceeds 3630 s. */
  lemma DefaultBackoffAtMost3630(attempts: int, jitter: nat)
    requires jitter <= JitterBound(DefaultBase)
    ensures ComputeBackoffSeconds(attempts, jitter, DefaultBase, DefaultMax) <= 3630
  {
    BackoffCeiling(attempts, jitter, DefaultBase, DefaultMax);
  }

  lemma {:induction false} Pow2Monotone(m: nat, n: nat)
    requires m <= n
    ensures Pow2(m) <= Pow2(n)
    decreases n - m
  {
    if m < n {
      Pow2Monotone(m, n - 1);
    }
  }

  lemma MulMonotone(base: nat, x: nat, y: nat)
    requires x <= y
    ensures base * x <= base * y
  {
  }

  /** The deterministic delay never decreases as attempts grow. */
  lemma {:induction false} ExponentialMonotone(a: nat, b: nat, base: nat, maxSeconds: nat)
    requires 1 <= a <= b
    ensures Exponential(a, base, maxSeconds) <= Exponential(b, base, maxSeconds)
  {
    Pow2Monotone(a - 1, b - 1);
    MulMonotone(base, Pow2(a - 1), Pow2(b - 1));
  }

  /** Once base * 2^(a-1) reaches the cap, every later attempt waits exactly the cap. */
  lemma {:induction false} ExponentialSaturates(a: nat, b: nat, base: nat, maxSeconds: nat)
    requires 1 <= a <= b
    requires base * Pow2(a - 1) >= maxSeconds
    ensures Exponential(b, base, maxSeconds) == maxSeconds
  {
    Pow2Monotone(a - 1, b - 1);
    MulMonotone(base, Pow2(a - 1), Pow2(b - 1));
  }

  /** For attempts >= 1 and base <= max the delay is at least the base delay. */
  lemma {:induction false} BackoffAtLeastBase(attempts: int, jitter: nat, base: nat, maxSeconds: nat)
    requires jitter <= JitterBound(base)
    requires attempts >= 1 && base <= maxSeconds
    ensures ComputeBackoffSeconds(attempts, jitter, base, maxSeconds) >= base
  {
    MulMonotone(base, 1, Pow2(attempts - 1));
  }

  /** The default schedule: 60, 120, 240, 480, 960, 1920 s, then the 3600 s cap. */
  lemma DefaultSchedule(a: nat)
    requires a >= 7
    ensures Exponential(1, DefaultBase, DefaultMax) == 60
    ensures Exponential(2, DefaultBase, DefaultMax) == 120
    ensures Exponential(6, DefaultBase, DefaultMax) == 1920
    ensures Exponential(a, DefaultBase, DefaultMax) == 3600
  {
    assert Pow2(6) == 64;
    ExponentialSaturates(7, a, DefaultBase, DefaultMax);
  }
}
