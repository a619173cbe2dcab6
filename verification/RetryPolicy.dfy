/** Retry decisions, backoff and waiting (internal/reliability/retry.go). */
module RetryPolicy {
  import opened Wrappers
  import opened Failure

  /** Durations are in nanoseconds; the two ratios are real numbers. */
  datatype Config = Config(
    maxAttempts: nat,
    initialBackoff: int,
    maxBackoff: int,
    multiplier: real,
    jitterRatio: real)
  {
    predicate Valid() {
      && 1 <= maxAttempts <= 10
      && 10_000_000 <= initialBackoff <= maxBackoff <= 30_000_000_000
      && 1.0 <= multiplier <= 10.0
      && 0.0 <= jitterRatio <= 1.0
    }
  }

  predicate ShouldRetry(config: Config, failure: Option<Failure>, attempt: nat) {
    failure.Some? && attempt < config.maxAttempts &&
    Retries(failure)
  }

  function Times(delay: real, factor: real): real {
    delay * factor
  }

  /** The uncapped delay before retry number `attempt`: the initial one multiplied attempt - 1 times. */
  function Exponential(config: Config, attempt: nat): real {
    if attempt <= 1 then config.initialBackoff as real else Times(Exponential(config, attempt - 1), config.multiplier)
  }

  function AtMost(delay: real, bound: real): real {
    if delay > bound then bound else delay
  }

  function Jitter(config: Config, random: real): real {
    1.0 + Times(2.0 * random - 1.0, config.jitterRatio)
  }

  /** The delay as it is meant: capped, jittered, capped again, and cut to whole nanoseconds. */
  function BackoffOf(config: Config, failure: Option<Failure>, attempt: nat, random: real): int {
    if failure.None? || SignalsFor(failure).switchKey then 0
    else if failure.value.category == KeyExhausted then failure.value.retryAfter
    else
      var bound := config.maxBackoff as real;
      AtMost(Times(AtMost(Exponential(config, attempt), bound), Jitter(config, random)), bound).Floor
  }

  lemma NonNegative(delay: real, factor: real)
    requires 0.0 <= delay && 0.0 <= factor
    ensures 0.0 <= Times(delay, factor)
  {
  }

  lemma Multiplied(delay: real, factor: real)
    requires 0.0 < delay && 1.0 <= factor
    ensures delay <= Times(delay, factor)
  {
    NonNegative(delay, factor - 1.0);
    assert Times(delay, factor - 1.0) == delay * factor - delay;
  }

  lemma {:induction false} ExponentialGrows(config: Config, early: nat, late: nat)
    requires config.Valid() && early <= late
    ensures 0.0 < Exponential(config, early) <= Exponential(config, late)
    decreases late
  {
    hide Times;
    if late > 1 {
      ExponentialGrows(config, if early < late then early else late - 1, late - 1);
      Multiplied(Exponential(config, late - 1), config.multiplier);
    }
  }

  function Power(base: real, n: nat): real {
    if n == 0 then 1.0 else base * Power(base, n - 1)
  }

  /** The closed form: the initial delay times the multiplier to the power of the retries before. */
  lemma {:induction false} ExponentialIs(config: Config, attempt: nat)
    requires attempt >= 1
    ensures Exponential(config, attempt) == config.initialBackoff as real * Power(config.multiplier, attempt - 1)
    decreases attempt
  {
    var initial, m := config.initialBackoff as real, config.multiplier;
    if attempt > 1 {
      ExponentialIs(config, attempt - 1);
      var p := Power(m, attempt - 2);
      assert Power(m, attempt - 1) == m * p;
      Reorder(initial, p, m);
    } else {
      assert Power(m, 0) == 1.0;
    }
  }

  lemma Reorder(a: real, b: real, c: real)
    ensures a * b * c == a * (c * b)
  {
  }

  /** The jitter runs evenly from one minus the ratio, at 0, up to one plus the ratio, at 1. */
  lemma JitterIs(config: Config, random: real)
    ensures Jitter(config, random) == (1.0 - config.jitterRatio) + 2.0 * random * config.jitterRatio
    ensures Jitter(config, 0.0) == 1.0 - config.jitterRatio && Jitter(config, 1.0) == 1.0 + config.jitterRatio
  {
    var r := config.jitterRatio;
    assert (2.0 * random - 1.0) * r == 2.0 * random * r - r;
    assert (2.0 * 0.0 - 1.0) * r == -r && (2.0 * 1.0 - 1.0) * r == r;
  }

  lemma Scaled(swing: real, ratio: real)
    requires -1.0 <= swing <= 1.0 && 0.0 <= ratio <= 1.0
    ensures -1.0 <= Times(swing, ratio) <= 1.0
  {
    NonNegative(1.0 + swing, ratio);
    NonNegative(1.0 - swing, ratio);
    assert Times(1.0 + swing, ratio) == ratio + swing * ratio;
    assert Times(1.0 - swing, ratio) == ratio - swing * ratio;
  }

  lemma JitterInRange(config: Config, random: real)
    requires config.Valid() && 0.0 <= random < 1.0
    ensures 0.0 <= Jitter(config, random) <= 2.0
  {
    hide Times;
    Scaled(2.0 * random - 1.0, config.jitterRatio);
  }

  /** The loop stops multiplying at the cap; its delay is the capped power all the same. */
  method Backoff(config: Config, failure: Option<Failure>, attempt: nat, random: real) returns (delay: int)
    requires config.Valid() && 0.0 <= random < 1.0
    ensures delay == BackoffOf(config, failure, attempt, random)
  {
    hide Jitter, SignalsFor, Times;
    if failure.None? || SignalsFor(failure).switchKey {
      return 0;
    }
    if failure.value.category == KeyExhausted {
      return failure.value.retryAfter;
    }
    var bound := config.maxBackoff as real;
    var current := config.initialBackoff as real;
    var step := 1;
    while step < attempt
      invariant 1 <= step
      invariant attempt <= 1 || step <= attempt
      invariant current == Exponential(config, step) <= bound
      invariant attempt <= 1 ==> step == 1
    {
      current := Times(current, config.multiplier);
      step := step + 1;
      assert current == Exponential(config, step);
      if current >= bound {
        ExponentialGrows(config, step, attempt);
        current := bound;
        break;
      }
    }
    assert current == AtMost(Exponential(config, attempt), bound);
    current := Times(current, Jitter(config, random));
    if current > bound {
      return config.maxBackoff;
    }
    delay := current.Floor;
  }

  /** A delay is the remaining key cooldown when all keys are cooling, and otherwise between zero and the maximum. */
  lemma BackoffIsBounded(config: Config, failure: Option<Failure>, attempt: nat, random: real)
    requires config.Valid() && 0.0 <= random < 1.0
    ensures var delay := BackoffOf(config, failure, attempt, random);
            if failure.Some? && failure.value.category == KeyExhausted then delay == failure.value.retryAfter
            else 0 <= delay <= config.maxBackoff
  {
    ExponentialGrows(config, attempt, attempt);
    JitterInRange(config, random);
    hide Jitter, Exponential, SignalsFor, Times;
    var bound := config.maxBackoff as real;
    NonNegative(AtMost(Exponential(config, attempt), bound), Jitter(config, random));
  }

  /** The smaller of two numbers. */
  function Min(a: real, b: real): real {
    if a <= b then a else b
  }

  /** The delay before jitter: the power, capped. */
  function Base(config: Config, attempt: nat): real
    requires attempt >= 1
  {
    Min(config.initialBackoff as real * Power(config.multiplier, attempt - 1), config.maxBackoff as real)
  }

  /** The jitter for a random number: evenly between one minus and one plus the ratio. */
  function Spread(config: Config, random: real): real {
    (1.0 - config.jitterRatio) + 2.0 * random * config.jitterRatio
  }

  /** The delay in closed form: none after a key was at fault, else the capped, jittered and capped power. */
  lemma BackoffExactly(config: Config, failure: Option<Failure>, attempt: nat, random: real)
    requires attempt >= 1 && failure.Some? && failure.value.category != KeyExhausted
    ensures BackoffOf(config, failure, attempt, random) ==
            if failure.value.category in {KeyUnauthorized, KeyForbidden, UpstreamRateLimit} then 0
            else Min(Base(config, attempt) * Spread(config, random), config.maxBackoff as real).Floor
  {
    hide Exponential, Jitter, Power, Times, Base, Spread;
    BaseIs(config, attempt);
    SpreadIs(config, random);
    TimesIs(Base(config, attempt), Spread(config, random));
  }

  lemma BaseIs(config: Config, attempt: nat)
    requires attempt >= 1
    ensures AtMost(Exponential(config, attempt), config.maxBackoff as real) == Base(config, attempt)
  {
    ExponentialIs(config, attempt);
    hide Exponential, Power;
  }

  lemma SpreadIs(config: Config, random: real)
    ensures Jitter(config, random) == Spread(config, random)
  {
    JitterIs(config, random);
    hide Jitter;
  }

  lemma TimesIs(delay: real, factor: real)
    ensures Times(delay, factor) == delay * factor
  {
  }

  /** Without jitter, later retries never wait less. */
  lemma BackoffGrows(config: Config, failure: Option<Failure>, early: nat, late: nat, random: real)
    requires config.Valid() && config.jitterRatio == 0.0 && early <= late
    requires failure.Some? && failure.value.category != KeyExhausted
    ensures BackoffOf(config, failure, early, random) <= BackoffOf(config, failure, late, random)
  {
    ExponentialGrows(config, early, late);
    assert Jitter(config, random) == 1.0 by {
      assert (2.0 * random - 1.0) * 0.0 == 0.0;
    }
    hide Jitter, Exponential, SignalsFor;
  }
}
