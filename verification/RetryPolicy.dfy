/** Delays between attempts: capped exponential backoff with jitter, a server's Retry-After, and the remaining budget. */
module RetryPolicy {
  import opened Basics

  datatype RetryPolicyConfig = RetryPolicyConfig(baseDelayMs: int, maxDelayMs: int, maxAttempts: int, jitterRatio: real)

  function Pow2(n: nat): nat {
    if n == 0 then 1 else 2 * Pow2(n - 1)
  }

  /** The delay before jitter. */
  function Capped(attemptNumber: int, config: RetryPolicyConfig): int
    requires attemptNumber > 0
  {
    Min(config.maxDelayMs, config.baseDelayMs * Pow2(attemptNumber - 1))
  }

  function Swing(random: real): real {
    random * 2.0 - 1.0
  }

  function JitterFactor(ratio: real, swing: real): real {
    1.0 + swing * ratio
  }

  function Scaled(delay: int, factor: real): int {
    Max(0, (delay as real * factor).Floor)
  }

  /** `random` is the draw from the random source, in [0, 1). */
  function CalculateRetryDelayMs(attemptNumber: int, config: RetryPolicyConfig, random: real): int {
    if attemptNumber <= 0 then 0
    else if config.jitterRatio <= 0.0 then Max(0, Capped(attemptNumber, config))
    else Scaled(Capped(attemptNumber, config), JitterFactor(config.jitterRatio, Swing(random)))
  }

  datatype Decision = NoRetry | RetryAt(delayMs: int, nextAttemptAt: Time)

  function EvaluateRetry(attemptCount: int, now: Time, retryable: bool, config: RetryPolicyConfig, random: real): Decision {
    if !retryable || attemptCount >= config.maxAttempts then NoRetry
    else
      var delayMs := CalculateRetryDelayMs(attemptCount + 1, config, random);
      RetryAt(delayMs, now + delayMs)
  }

  /** A Retry-After field after trimming: nothing, a number of seconds, a date in epoch milliseconds, or neither. */
  datatype RetryAfter = Absent | Seconds(seconds: real) | Date(at: Time) | Unreadable

  function ParseRetryAfterMs(header: RetryAfter, now: Time): Option<int> {
    match header
    case Absent => None
    case Seconds(s) => if s < 0.0 then None else Some((s * 1000.0).Floor)
    case Date(at) => if at - now < 0 then Some(0) else Some(at - now)
    case Unreadable => None
  }

  function ResolveRetryDelayMs(attemptNumber: int, retryAfterMs: Option<int>, config: RetryPolicyConfig, random: real,
                               remainingBudgetMs: int): int
  {
    var base := if retryAfterMs.Some? then retryAfterMs.value else CalculateRetryDelayMs(attemptNumber, config, random);
    Max(0, Min(base, Min(config.maxDelayMs, remainingBudgetMs)))
  }

  // ---------------------------------------------------------------- what the delays satisfy

  lemma {:induction false} Pow2Grows(a: nat, b: nat)
    requires a <= b
    ensures Pow2(a) <= Pow2(b)
  {
    if a < b {
      Pow2Grows(a, b - 1);
    }
  }

  lemma ProductGrows(base: int, a: int, b: int)
    requires base >= 0 && a <= b
    ensures base * a <= base * b
  {
  }

  lemma TwiceAFactor(a: int, b: int)
    ensures a * (2 * b) == 2 * (a * b)
  {
  }

  lemma {:induction false} Pow2Adds(a: nat, b: nat)
    ensures Pow2(a + b) == Pow2(a) * Pow2(b)
  {
    if b > 0 {
      Pow2Adds(a, b - 1);
      TwiceAFactor(Pow2(a), Pow2(b - 1));
    }
  }

  lemma Regrouped(base: int, a: int, b: int)
    ensures base * (a * b) == b * (base * a)
  {
  }

  /** Backoff never shrinks from an attempt to a later one, and doubles with each attempt between them until the cap is reached. */
  lemma BackoffGrows(attempt: int, later: int, config: RetryPolicyConfig)
    requires 0 < attempt <= later && config.baseDelayMs >= 0
    ensures Capped(attempt, config) <= Capped(later, config) <= config.maxDelayMs
    ensures Capped(later, config) == Min(config.maxDelayMs, Pow2(later - attempt) * (config.baseDelayMs * Pow2(attempt - 1)))
    ensures attempt == 1 ==>
      Capped(attempt, config) == if config.baseDelayMs <= config.maxDelayMs then config.baseDelayMs else config.maxDelayMs
    ensures config.maxDelayMs >= 0 && later == attempt + 1 ==>
      var twice := 2 * Capped(attempt, config);
      Capped(later, config) == if twice <= config.maxDelayMs then twice else config.maxDelayMs
  {
    TwiceAFactor(config.baseDelayMs, Pow2(attempt - 1));
    Pow2Grows(attempt - 1, later - 1);
    ProductGrows(config.baseDelayMs, Pow2(attempt - 1), Pow2(later - 1));
    Pow2Adds(attempt - 1, later - attempt);
    assert attempt - 1 + (later - attempt) == later - 1;
    Regrouped(config.baseDelayMs, Pow2(attempt - 1), Pow2(later - attempt));
  }

  lemma NonNegative(a: real, b: real)
    requires a >= 0.0 && b >= 0.0
    ensures a * b >= 0.0
  {
  }

  lemma ScaleBetween(c: real, low: real, x: real, high: real)
    requires c >= 0.0 && low <= x <= high
    ensures c * low <= c * x <= c * high
  {
    NonNegative(c, x - low);
    NonNegative(c, high - x);
  }

  lemma JitterWithin(ratio: real, swing: real)
    requires ratio >= 0.0 && -1.0 <= swing <= 1.0
    ensures 1.0 - ratio <= JitterFactor(ratio, swing) <= 1.0 + ratio
  {
    NonNegative(1.0 - swing, ratio);
    NonNegative(swing + 1.0, ratio);
  }

  lemma Floored(cap: int, low: real, factor: real, high: real)
    requires cap >= 0 && 0.0 <= low <= factor <= high
    ensures cap as real * low - 1.0 < Scaled(cap, factor) as real <= cap as real * high
  {
    ScaleBetween(cap as real, 0.0, factor, high);
    ScaleBetween(cap as real, low, factor, high);
    var x := cap as real * factor;
    assert x.Floor as real <= x < x.Floor as real + 1.0;
  }

  /** Jitter keeps the delay within the ratio of the capped delay, rounded down. */
  lemma JitterBounds(attempt: int, config: RetryPolicyConfig, random: real)
    requires attempt > 0 && config.baseDelayMs >= 0 && config.maxDelayMs >= 0
    requires 0.0 <= config.jitterRatio <= 1.0 && 0.0 <= random < 1.0
    ensures Capped(attempt, config) as real * (1.0 - config.jitterRatio) - 1.0 <
            CalculateRetryDelayMs(attempt, config, random) as real <=
            Capped(attempt, config) as real * (1.0 + config.jitterRatio)
  {
    ProductGrows(config.baseDelayMs, 0, Pow2(attempt - 1));
    var cap, ratio := Capped(attempt, config), config.jitterRatio;
    if ratio <= 0.0 {
      assert cap as real * 1.0 == cap as real;
    } else {
      JitterWithin(ratio, Swing(random));
      Floored(cap, 1.0 - ratio, JitterFactor(ratio, Swing(random)), 1.0 + ratio);
    }
  }

  lemma SameProduct(c: real, a: real, b: real)
    requires a == b
    ensures c * a == c * b
  {
  }

  /** The draw swings the capped delay evenly about itself, by the ratio in either direction; without a ratio nothing swings. */
  lemma JitterSwings(attempt: int, config: RetryPolicyConfig, random: real)
    requires attempt > 0 && config.baseDelayMs >= 0 && config.maxDelayMs >= 0
    ensures config.jitterRatio <= 0.0 ==> CalculateRetryDelayMs(attempt, config, random) == Capped(attempt, config)
    ensures 0.0 < config.jitterRatio <= 1.0 && 0.0 <= random < 1.0 ==>
      CalculateRetryDelayMs(attempt, config, random)
      == (Capped(attempt, config) as real * (1.0 + (2.0 * random - 1.0) * config.jitterRatio)).Floor
  {
    ProductGrows(config.baseDelayMs, 0, Pow2(attempt - 1));
    var cap, ratio := Capped(attempt, config), config.jitterRatio;
    if 0.0 < ratio <= 1.0 && 0.0 <= random < 1.0 {
      SameProduct(ratio, Swing(random), 2.0 * random - 1.0);
      var factor := JitterFactor(ratio, Swing(random));
      JitterWithin(ratio, Swing(random));
      NonNegative(cap as real, factor);
      SameProduct(cap as real, factor, 1.0 + (2.0 * random - 1.0) * ratio);
    }
  }

  /** The wait fits in the budget and under the cap; a server's Retry-After is honoured exactly when it does so too, and
      without one the policy's own delay is. */
  lemma DelayFits(attempt: int, retryAfterMs: Option<int>, config: RetryPolicyConfig, random: real, remainingBudgetMs: int)
    requires remainingBudgetMs > 0 && config.maxDelayMs > 0
    ensures var d := ResolveRetryDelayMs(attempt, retryAfterMs, config, random, remainingBudgetMs);
            var wanted := if retryAfterMs == None then CalculateRetryDelayMs(attempt, config, random) else retryAfterMs.value;
            && 0 <= d <= config.maxDelayMs && d <= remainingBudgetMs
            && (wanted >= 0 ==> (d >= wanted <==> wanted <= config.maxDelayMs && wanted <= remainingBudgetMs))
            && (d < wanted ==> d == config.maxDelayMs || d == remainingBudgetMs) && (d > wanted ==> d == 0)
  {
  }
}
