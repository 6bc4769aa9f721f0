/** The backoff before a retry, and the loop that repeats failing backend calls. */
module RetryBackoff {
  import opened Common

  datatype BackoffStrategy = Fixed | Exponential

  datatype RetryPolicy = RetryPolicy(
    retries: nat,
    backoffDuration: Duration,
    maxBackoffDuration: Option<Duration>,
    backoffStrategy: BackoffStrategy)

  const MAX_RETRY_BACKOFF: Duration := 365 * 24 * 3600 * NANOS_PER_SEC

  /** `Duration::saturating_mul`. */
  function SaturatingMul(d: Duration, m: nat): Duration { Min(d * m, DURATION_MAX) }

  /** `u32::try_from(exp)` followed by `2u32.checked_pow`, or the largest u32. */
  function BackoffMultiplier(attempt: nat): nat {
    var exp := if attempt == 0 then 0 else attempt - 1;
    if exp <= U32_MAX && Pow2(Min(exp, 32)) <= U32_MAX then Pow2(exp) else U32_MAX
  }

  /** How long the retry that follows an attempt is put off. */
  function Backoff(policy: RetryPolicy, attempt: nat): Duration {
    var backoff :=
      match policy.backoffStrategy
      case Fixed => policy.backoffDuration
      case Exponential => SaturatingMul(policy.backoffDuration, BackoffMultiplier(attempt));
    var capped := if policy.maxBackoffDuration.Some? then Min(backoff, policy.maxBackoffDuration.value) else backoff;
    Min(capped, MAX_RETRY_BACKOFF)
  }

  /** The cap that applies to a policy: its own maximum and one year. */
  function Cap(policy: RetryPolicy): Duration {
    if policy.maxBackoffDuration.Some? then Min(policy.maxBackoffDuration.value, MAX_RETRY_BACKOFF)
    else MAX_RETRY_BACKOFF
  }

  /** The number of doublings before the given attempt's retry. */
  function Doublings(attempt: nat): nat { if attempt == 0 then 0 else attempt - 1 }

  /** The backoff with unbounded arithmetic: the base doubled for every attempt, then capped. */
  function IdealBackoff(policy: RetryPolicy, attempt: nat): Duration {
    match policy.backoffStrategy
    case Fixed => Min(policy.backoffDuration, Cap(policy))
    case Exponential => Min(policy.backoffDuration * Pow2(Doublings(attempt)), Cap(policy))
  }

  lemma MultiplierIsSaturatedPower(attempt: nat)
    ensures BackoffMultiplier(attempt) == Min(Pow2(Doublings(attempt)), U32_MAX)
  {
    var exp := Doublings(attempt);
    Pow2Of32();
    if exp <= 31 {
      Pow2Monotone(exp, 31);
    } else {
      Pow2Monotone(32, exp);
    }
  }

  lemma MulMonotone(d: nat, a: nat, b: nat)
    requires a <= b
    ensures d * a <= d * b
  {
  }

  /** Saturation of the multiplication is never visible below the cap. */
  lemma BackoffSaturates(policy: RetryPolicy, attempt: nat)
    requires policy.backoffStrategy.Exponential?
    ensures Backoff(policy, attempt)
         == Min(policy.backoffDuration * Min(Pow2(Doublings(attempt)), U32_MAX), Cap(policy))
  {
    MultiplierIsSaturatedPower(attempt);
  }

  /** The backoff never decreases with the attempt number. */
  lemma BackoffNeverDecreases(policy: RetryPolicy, a: nat, b: nat)
    requires a <= b
    ensures Backoff(policy, a) <= Backoff(policy, b) <= Cap(policy)
  {
    if policy.backoffStrategy.Exponential? {
      MultiplierIsSaturatedPower(a);
      MultiplierIsSaturatedPower(b);
      Pow2Monotone(Doublings(a), Doublings(b));
      MulMonotone(policy.backoffDuration, BackoffMultiplier(a), BackoffMultiplier(b));
    }
  }

  /**
    The saturated multiplier is exact if and only if it has not saturated yet (at most 32 attempts),
    there is nothing to multiply, or the saturated product already reaches the cap.
   */
  lemma BackoffIsIdealIff(policy: RetryPolicy, attempt: nat)
    requires policy.backoffStrategy.Exponential?
    ensures Backoff(policy, attempt) == IdealBackoff(policy, attempt)
       <==> || attempt <= 32
            || policy.backoffDuration == 0
            || policy.backoffDuration * U32_MAX >= Cap(policy)
  {
    var d := policy.backoffDuration;
    var exp := Doublings(attempt);
    BackoffSaturates(policy, attempt);
    Pow2Of32();
    if attempt <= 32 {
      Pow2Monotone(exp, 31);
    } else {
      Pow2Monotone(32, exp);
      MulMonotone(d, U32_MAX, Pow2(exp));
      if d > 0 {
        MulMonotone(d, U32_MAX + 1, Pow2(exp));
        assert d * (U32_MAX + 1) == d * U32_MAX + d;
      }
    }
  }

  /** The cap of a policy: its own maximum or 365 days, whichever is shorter. */
  predicate Caps(policy: RetryPolicy, cap: Duration) {
    && cap <= 31_536_000_000_000_000 && (policy.maxBackoffDuration.Some? ==> cap <= policy.maxBackoffDuration.value)
    && (cap == 31_536_000_000_000_000 || Some(cap) == policy.maxBackoffDuration)
  }

  /** The backoff starts with the duration of the policy, and stays there if it is fixed. */
  lemma BackoffStarts(policy: RetryPolicy, attempt: nat, cap: Duration)
    requires Caps(policy, cap) && (attempt <= 1 || policy.backoffStrategy.Fixed?)
    ensures Backoff(policy, attempt) == if policy.backoffDuration <= cap then policy.backoffDuration else cap
  {
    if policy.backoffStrategy.Exponential? {
      IdealUpTo32(policy, attempt, policy.backoffDuration);
    }
  }

  /** It doubles from each attempt to the next if it is exponential, up to the cap. */
  lemma BackoffDoubles(policy: RetryPolicy, attempt: nat, cap: Duration)
    requires Caps(policy, cap) && policy.backoffStrategy.Exponential? && 1 <= attempt <= 31
    ensures Backoff(policy, attempt + 1)
         == if 2 * Backoff(policy, attempt) <= cap then 2 * Backoff(policy, attempt) else cap
  {
    DoublePower(policy.backoffDuration, attempt - 1);
    DoublesFrom(policy, attempt, cap, policy.backoffDuration * Pow2(attempt - 1), policy.backoffDuration * Pow2(attempt));
  }

  lemma DoublesFrom(policy: RetryPolicy, attempt: nat, cap: Duration, x: nat, y: nat)
    requires Caps(policy, cap) && policy.backoffStrategy.Exponential? && 1 <= attempt <= 31 && y == 2 * x
    requires x == policy.backoffDuration * Pow2(Doublings(attempt))
    requires y == policy.backoffDuration * Pow2(Doublings(attempt + 1))
    ensures Backoff(policy, attempt + 1)
         == if 2 * Backoff(policy, attempt) <= cap then 2 * Backoff(policy, attempt) else cap
  {
    IdealUpTo32(policy, attempt, x);
    IdealUpTo32(policy, attempt + 1, y);
  }

  lemma IdealUpTo32(policy: RetryPolicy, attempt: nat, x: nat)
    requires policy.backoffStrategy.Exponential? && attempt <= 32
    requires x == policy.backoffDuration * Pow2(Doublings(attempt))
    ensures Backoff(policy, attempt) == Min(x, Cap(policy))
  {
    BackoffIsIdealIff(policy, attempt);
  }

  lemma DoublePower(d: nat, n: nat)
    ensures d * Pow2(n + 1) == 2 * (d * Pow2(n))
  {
    assert Pow2(n + 1) == 2 * Pow2(n);
    assert d * (2 * Pow2(n)) == 2 * (d * Pow2(n));
  }

  const FIRST_RETRY_DELAY: Duration := 100_000_000
  const BACKEND_ERROR_DELAY: Duration := 5 * NANOS_PER_SEC
  const MAX_SHUTDOWN_ATTEMPTS: nat := 3

  /** The delay after the failed attempt with the given index, counted from zero. */
  function RetryDelay(k: nat): Duration { Min(FIRST_RETRY_DELAY * Pow2(k), BACKEND_ERROR_DELAY) }

  /** The first delay is a tenth of a second, and each one is twice the one before, up to five seconds. */
  lemma RetryDelayDoubles(k: nat)
    ensures RetryDelay(0) == 100_000_000
    ensures RetryDelay(k + 1) == if 2 * RetryDelay(k) <= 5_000_000_000 then 2 * RetryDelay(k) else 5_000_000_000
  {
    assert Pow2(k + 1) == 2 * Pow2(k);
  }

  /**
    Runs a backend operation until it succeeds. `succeeds(n)` is the outcome of the n-th attempt and
    `waiting(n)` whether the server is shutting down after it, both decided by the environment.
   */
  method RetryBackend(maxAttempts: nat, succeeds: nat -> bool, waiting: nat -> bool)
    returns (ok: bool, attempts: nat, delays: seq<Duration>)
    requires maxAttempts <= U32_MAX
    ensures attempts >= 1 && |delays| == attempts - 1
    ensures forall n :: 1 <= n < attempts ==> !succeeds(n)
    ensures ok == succeeds(attempts)
    // Outside of shutdown the operation is only given up after the maximum number of attempts.
    ensures !ok ==> attempts >= maxAttempts || (waiting(attempts) && attempts >= 3)
    // And it is given up as soon as that is so.
    ensures forall n :: 1 <= n < attempts ==> n < maxAttempts && (waiting(n) ==> n < 3)
    ensures attempts <= Max(maxAttempts, 1)
    ensures forall k :: 0 <= k < |delays| ==> delays[k] == RetryDelay(k)
  {
    attempts := 1;
    delays := [];
    var delay := FIRST_RETRY_DELAY;
    while true
      invariant 1 <= attempts <= Max(maxAttempts, 1)
      invariant |delays| == attempts - 1
      invariant forall n :: 1 <= n < attempts ==> !succeeds(n)
      invariant forall n :: 1 <= n < attempts ==> n < maxAttempts && (waiting(n) ==> n < 3)
      invariant delay == RetryDelay(attempts - 1)
      invariant forall k :: 0 <= k < |delays| ==> delays[k] == RetryDelay(k)
      decreases maxAttempts - attempts
    {
      if succeeds(attempts) {
        return true, attempts, delays;
      }
      var limit := if waiting(attempts) then Min(maxAttempts, MAX_SHUTDOWN_ATTEMPTS) else maxAttempts;
      if attempts >= limit {
        return false, attempts, delays;
      }
      delays := delays + [delay];
      RetryDelayDoubles(attempts - 1);
      delay := Min(delay * 2, BACKEND_ERROR_DELAY);
      attempts := attempts + 1;
    }
  }
}
