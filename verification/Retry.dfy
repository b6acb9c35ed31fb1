/**
 * Bounded retry around an atomic attempt, with exponential backoff. Durations are nanoseconds.
 */
module Retry {
  import opened Base

  /** An error, with the SQLSTATE code when it came from the database server. */
  datatype Failure = Failure(code: Option<string>)

  datatype Outcome = Success | Failed(error: Failure)

  datatype RetryConfig = RetryConfig(
    maxRetries: int,
    baseDelay: int,
    maxDelay: int,
    jitterFactor: real,
    retryableErrors: seq<string>)

  const DEFAULT := RetryConfig(5, 10_000_000, 1_000_000_000, 0.1, ["40001", "40P01"])

  datatype RetryResult =
    | Done
    | Interrupted
    | Rejected(error: Failure)
    | Exhausted(last: Option<Failure>)

  predicate Retryable(e: Failure, codes: seq<string>) {
    e.code.Some? && e.code.value in codes
  }

  method IsRetryableError(e: Failure, codes: seq<string>) returns (r: bool)
    ensures r <==> Retryable(e, codes)
  {
    if e.code.None? {
      return false;
    }
    for i := 0 to |codes|
      invariant e.code.value !in codes[..i]
    {
      if e.code.value == codes[i] {
        return true;
      }
    }
    return false;
  }

  // ----- backoff

  function Pow2(n: nat): (r: nat)
    ensures r >= 1
  {
    if n == 0 then 1 else 2 * Pow2(n - 1)
  }

  function Truncate(x: real): int { if x >= 0.0 then x.Floor else -((-x).Floor) }

  /** The delay before jitter. */
  function Capped(config: RetryConfig, attempt: nat): int
    requires attempt >= 1
  {
    var delay := config.baseDelay * Pow2(attempt - 1);
    if delay > config.maxDelay then config.maxDelay else delay
  }

  function Jittered(delay: int, jitterFactor: real, random: real): int {
    if jitterFactor > 0.0 then delay + Truncate(delay as real * jitterFactor * random) else delay
  }

  function BackoffDelay(config: RetryConfig, attempt: nat, random: real): int
    requires attempt >= 1
  {
    Jittered(Capped(config, attempt), config.jitterFactor, random)
  }

  /** All the waiting before attempts 1..n. */
  function TotalWait(config: RetryConfig, n: nat, random: nat -> real): int {
    if n == 0 then 0 else TotalWait(config, n - 1, random) + BackoffDelay(config, n, random(n))
  }

  function TotalCapped(config: RetryConfig, n: nat): int {
    if n == 0 then 0 else TotalCapped(config, n - 1) + Capped(config, n)
  }

  ghost predicate Sensible(config: RetryConfig) {
    config.baseDelay >= 0 && config.maxDelay >= 0 && config.jitterFactor >= 0.0
  }

  lemma DelaysNeverDecrease(config: RetryConfig, attempt: nat)
    requires Sensible(config) && attempt >= 1
    ensures 0 <= Capped(config, attempt) <= Capped(config, attempt + 1)
  {
    var d := config.baseDelay * Pow2(attempt - 1);
    assert config.baseDelay * Pow2(attempt) == 2 * d;
    assert d >= 0;
  }

  function Least(a: int, b: int): int { if a <= b then a else b }

  /** The first delay is the base delay and each further one doubles, until the cap is reached and kept. */
  lemma DelayDoubles(config: RetryConfig, attempt: nat)
    requires Sensible(config) && attempt >= 1
    ensures Capped(config, 1) == Least(config.baseDelay, config.maxDelay)
    ensures Capped(config, attempt + 1) == Least(2 * Capped(config, attempt), config.maxDelay)
  {
    var d := config.baseDelay * Pow2(attempt - 1);
    assert config.baseDelay * Pow2(attempt) == 2 * d;
    assert d >= 0;
  }

  lemma {:induction false} CappedIsBounded(config: RetryConfig, n: nat)
    requires Sensible(config)
    ensures 0 <= TotalCapped(config, n) <= config.baseDelay * (Pow2(n) - 1)
    ensures TotalCapped(config, n) <= n * config.maxDelay
  {
    if n == 0 {
    } else {
      CappedIsBounded(config, n - 1);
      DelaysNeverDecrease(config, n);
      OneMoreTerm(config.baseDelay, Pow2(n - 1), n, config.maxDelay);
    }
  }

  lemma OneMoreTerm(b: int, p: int, n: int, m: int)
    ensures b * (2 * p - 1) == b * (p - 1) + b * p
    ensures n * m == (n - 1) * m + m
  {
  }

  lemma Shrinks(x: real, y: real)
    requires x >= 0.0 && 0.0 <= y <= 1.0
    ensures 0.0 <= x * y <= x
  {
    assert x * (1.0 - y) >= 0.0;
  }

  /** What a delay can grow to: (1 + jitter) * delay. */
  function Stretch(jitterFactor: real): int -> real { (delay: int) => (1.0 + jitterFactor) * delay as real }

  lemma JitterIsBounded(delay: int, f: real, random: real)
    requires delay >= 0 && f >= 0.0 && 0.0 <= random < 1.0
    ensures delay <= Jittered(delay, f, random)
    ensures f == 0.0 ==> Jittered(delay, f, random) == delay
    ensures f > 0.0 ==> Jittered(delay, f, random) == delay + (delay as real * f * random).Floor
    ensures Jittered(delay, f, random) as real <= Stretch(f)(delay)
  {
    var most := delay as real * f;
    Expand(delay as real, f);
    Shrinks(most, random);
    TruncatedSum(delay, most * random, most);
  }

  lemma TruncatedSum(delay: int, raw: real, most: real)
    requires 0.0 <= raw <= most
    ensures delay <= delay + Truncate(raw)
    ensures (delay + Truncate(raw)) as real <= delay as real + most
  {
    assert (delay + Truncate(raw)) as real == delay as real + Truncate(raw) as real;
  }

  lemma Expand(x: real, f: real)
    ensures (1.0 + f) * x == x + x * f
    ensures x >= 0.0 && f >= 0.0 ==> x * f >= 0.0
  {
  }

  lemma StretchAdds(f: real, a: int, b: int)
    ensures Stretch(f)(a + b) == Stretch(f)(a) + Stretch(f)(b)
  {
    assert (a + b) as real == a as real + b as real;
    Distribute(1.0 + f, a as real, b as real);
  }

  lemma Distribute(f: real, a: real, b: real)
    ensures f * (a + b) == f * a + f * b
  {
  }

  lemma StretchIsMonotone(f: real, a: int, b: int)
    requires f >= 0.0 && a <= b
    ensures Stretch(f)(a) <= Stretch(f)(b)
  {
    StretchAdds(f, a, b - a);
    Expand((b - a) as real, f);
  }

  /** Summing per-delay bounds; g stands for the stretching. */
  lemma {:induction false} WaitFollowsCapped(config: RetryConfig, n: nat, random: nat -> real, g: int -> real)
    requires g(0) == 0.0
    requires forall i | 1 <= i <= n :: g(TotalCapped(config, i)) == g(TotalCapped(config, i - 1)) + g(Capped(config, i))
    requires forall i | 1 <= i <= n :: BackoffDelay(config, i, random(i)) as real <= g(Capped(config, i))
    ensures TotalWait(config, n, random) as real <= g(TotalCapped(config, n))
  {
    if n == 0 {
    } else {
      WaitFollowsCapped(config, n - 1, random, g);
    }
  }

  /** base * (2^n - 1) or n * max, whichever is smaller. */
  function WaitBound(config: RetryConfig, n: nat): int {
    Least(config.baseDelay * (Pow2(n) - 1), n * config.maxDelay)
  }

  /** The waiting over n retries is at most (1 + jitter) * min(base * (2^n - 1), n * max). */
  lemma WaitIsBounded(config: RetryConfig, n: nat, random: nat -> real)
    requires Sensible(config) && forall i :: 0.0 <= random(i) < 1.0
    ensures TotalWait(config, n, random) as real <= Stretch(config.jitterFactor)(WaitBound(config, n))
  {
    var f := config.jitterFactor;
    StretchAdds(f, 0, 0);
    forall i: nat | 1 <= i <= n
      ensures Stretch(f)(TotalCapped(config, i)) == Stretch(f)(TotalCapped(config, i - 1)) + Stretch(f)(Capped(config, i))
      ensures BackoffDelay(config, i, random(i)) as real <= Stretch(f)(Capped(config, i))
    {
      StretchAdds(f, TotalCapped(config, i - 1), Capped(config, i));
      DelaysNeverDecrease(config, i);
      JitterIsBounded(Capped(config, i), f, random(i));
    }
    WaitFollowsCapped(config, n, random, Stretch(f));
    CappedIsBounded(config, n);
    StretchIsMonotone(f, TotalCapped(config, n), WaitBound(config, n));
  }

  /** The waiting is no less than the delays before jitter, and exactly them without jitter. */
  lemma {:induction false} WaitCoversDelays(config: RetryConfig, n: nat, random: nat -> real)
    requires Sensible(config) && forall i :: 0.0 <= random(i) < 1.0
    ensures TotalWait(config, n, random) >= TotalCapped(config, n)
    ensures config.jitterFactor == 0.0 ==> TotalWait(config, n, random) == TotalCapped(config, n)
    ensures n >= 1 ==> TotalCapped(config, n) == TotalCapped(config, n - 1) + Capped(config, n)
  {
    if n == 0 {
    } else {
      WaitCoversDelays(config, n - 1, random);
      DelaysNeverDecrease(config, n);
      JitterIsBounded(Capped(config, n), config.jitterFactor, random(n));
    }
  }

  /** With the default configuration a call never waits longer than 341 ms. */
  lemma DefaultWaitsAtMost341ms(n: nat, random: nat -> real)
    requires n <= DEFAULT.maxRetries && forall i :: 0.0 <= random(i) < 1.0
    ensures TotalWait(DEFAULT, n, random) <= 341_000_000
  {
    WaitIsBounded(DEFAULT, n, random);
    assert Pow2(1) == 2 && Pow2(2) == 4 && Pow2(3) == 8 && Pow2(4) == 16 && Pow2(5) == 32;
    assert Pow2(n) <= 32;
    StretchIsMonotone(DEFAULT.jitterFactor, WaitBound(DEFAULT, n), 310_000_000);
  }

  // ----- the loop

  /**
   * Runs the operation until it succeeds, fails with an error that is not retryable, the retries are
   * used up, or the context ends during a wait. outcomes(i) is what attempt i returns,
   * interrupted(i) whether the context ends while attempt i is being waited for.
   */
  method ExecuteWithRetry(config: RetryConfig, outcomes: nat -> Outcome, interrupted: nat -> bool, random: nat -> real)
      returns (result: RetryResult, attempts: nat, waited: int)
    ensures attempts <= if config.maxRetries >= 0 then config.maxRetries + 1 else 0
    ensures forall i | 0 <= i < attempts - 1 :: outcomes(i).Failed? && Retryable(outcomes(i).error, config.retryableErrors)
    ensures forall i | 1 <= i < attempts :: !interrupted(i)
    ensures result.Done? <==> attempts > 0 && outcomes(attempts - 1).Success?
    ensures result.Rejected? <==>
      attempts > 0 && outcomes(attempts - 1).Failed? && !Retryable(outcomes(attempts - 1).error, config.retryableErrors)
    ensures result.Rejected? ==> result.error == outcomes(attempts - 1).error
    ensures result.Interrupted? ==> 1 <= attempts <= config.maxRetries && interrupted(attempts)
    ensures result.Exhausted? ==> attempts == if config.maxRetries >= 0 then config.maxRetries + 1 else 0
    ensures result.Exhausted? ==> result.last == if attempts > 0 then Some(outcomes(attempts - 1).error) else None
    ensures waited == TotalWait(config, if attempts > 0 then attempts - 1 else 0, random)
  {
    var lastErr := None;
    waited := 0;
    attempts := 0;
    while attempts <= config.maxRetries
      invariant attempts <= if config.maxRetries >= 0 then config.maxRetries + 1 else 0
      invariant forall i | 0 <= i < attempts :: outcomes(i).Failed? && Retryable(outcomes(i).error, config.retryableErrors)
      invariant forall i | 1 <= i < attempts :: !interrupted(i)
      invariant lastErr == if attempts > 0 then Some(outcomes(attempts - 1).error) else None
      invariant waited == TotalWait(config, if attempts > 0 then attempts - 1 else 0, random)
    {
      if attempts > 0 {
        var delay := BackoffDelay(config, attempts, random(attempts));
        if interrupted(attempts) {
          return Interrupted, attempts, waited;
        }
        waited := waited + delay;
      }
      var outcome := outcomes(attempts);
      attempts := attempts + 1;
      if outcome.Success? {
        return Done, attempts, waited;
      }
      lastErr := Some(outcome.error);
      var again := IsRetryableError(outcome.error, config.retryableErrors);
      if !again {
        return Rejected(outcome.error), attempts, waited;
      }
    }
    return Exhausted(lastErr), attempts, waited;
  }
}
