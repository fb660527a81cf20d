/** Exponential backoff with jitter, over the reals. */
module Retry {
  import opened Numbers

  datatype RetryConfig = RetryConfig(maxAttempts: int, initialDelay: real, maxDelay: real, backoffFactor: real)

  /** Delays and factor are not negative. */
  predicate SensibleConfig(c: RetryConfig) {
    c.initialDelay >= 0.0 && c.backoffFactor >= 0.0
  }

  function Power(b: real, n: nat): real {
    if n == 0 then 1.0 else b * Power(b, n - 1)
  }

  function BaseDelay(attempt: nat, c: RetryConfig): real {
    c.initialDelay * Power(c.backoffFactor, attempt)
  }

  /** `random` is a draw from [0, 1). */
  function RetryDelay(attempt: nat, c: RetryConfig, random: real): real {
    var baseDelay := BaseDelay(attempt, c);
    var jitter := random * 0.1 * baseDelay;
    MinReal(baseDelay + jitter, c.maxDelay)
  }

  function RetryDelayDeterministic(attempt: nat, c: RetryConfig): real {
    MinReal(BaseDelay(attempt, c), c.maxDelay)
  }

  lemma {:induction false} PowerNotNegative(b: real, n: nat)
    requires b >= 0.0
    ensures Power(b, n) >= 0.0
  {
    if n > 0 {
      PowerNotNegative(b, n - 1);
    }
  }

  /** Jitter only ever adds, by at most a tenth, and never past the cap. */
  lemma RetryDelayBounds(attempt: nat, c: RetryConfig, random: real)
    requires SensibleConfig(c) && 0.0 <= random < 1.0
    ensures RetryDelayDeterministic(attempt, c) <= RetryDelay(attempt, c, random) <= c.maxDelay
    ensures RetryDelay(attempt, c, random) <= BaseDelay(attempt, c) * 1.1
  {
    PowerNotNegative(c.backoffFactor, attempt);
    var b := BaseDelay(attempt, c);
    ProductNotNegative(c.initialDelay, Power(c.backoffFactor, attempt));
    ProductNotNegative(random, 0.1 * b);
    ProductNotNegative(1.0 - random, 0.1 * b);
    assert random * 0.1 * b == random * (0.1 * b);
    assert (1.0 - random) * (0.1 * b) == 0.1 * b - random * (0.1 * b);
  }

  lemma ProductNotNegative(a: real, b: real)
    requires a >= 0.0 && b >= 0.0
    ensures a * b >= 0.0
  {
  }
}
