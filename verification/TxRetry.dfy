/** Retrying a transaction: a bounded loop with exponential, capped and jittered delays. */
module TxRetry {
  import opened Wrappers

  // ----- Settings -----

  datatype Options = Options(maxAttempts: Option<int>, baseDelayMs: Option<int>, maxDelayMs: Option<int>,
    jitterRatio: Option<real>)

  datatype Settings = Settings(baseDelayMs: nat, maxDelayMs: nat, jitterRatio: real)

  function Max(a: int, b: int): int { if a < b then b else a }
  function Min(a: int, b: int): int { if a < b then a else b }

  function Clamp(value: real, minimum: real, maximum: real): real {
    var atLeast := if minimum < value then value else minimum;
    if atLeast < maximum then atLeast else maximum
  }

  function GetBackoffSettings(o: Options): Settings {
    var baseDelay := Max(0, o.baseDelayMs.GetOr(25));
    Settings(baseDelay, Max(baseDelay, o.maxDelayMs.GetOr(250)), Clamp(o.jitterRatio.GetOr(0.2), 0.0, 1.0))
  }

  predicate Sound(s: Settings) {
    s.baseDelayMs <= s.maxDelayMs && 0.0 <= s.jitterRatio <= 1.0
  }

  /** Whatever the options, the settings are sound; sound options are taken as they are. */
  lemma SettingsAreSound(o: Options)
    ensures var s := GetBackoffSettings(o);
      && Sound(s)
      && (o.baseDelayMs.None? ==> s.baseDelayMs == 25)
      && (o.baseDelayMs.Some? ==> s.baseDelayMs == if o.baseDelayMs.value < 0 then 0 else o.baseDelayMs.value)
      && (o.maxDelayMs.Some? && o.maxDelayMs.value >= s.baseDelayMs ==> s.maxDelayMs == o.maxDelayMs.value)
      && (o.maxDelayMs.None? && s.baseDelayMs <= 250 ==> s.maxDelayMs == 250)
      && (o.jitterRatio.Some? && 0.0 <= o.jitterRatio.value <= 1.0 ==> s.jitterRatio == o.jitterRatio.value)
      && (o.jitterRatio.None? ==> s.jitterRatio == 0.2)
  {
  }

  // ----- Delays -----

  function Pow2(n: nat): (p: nat)
    ensures p >= 1
  {
    if n == 0 then 1 else 2 * Pow2(n - 1)
  }

  /** Math.round. */
  function Round(x: real): int {
    (x + 0.5).Floor
  }

  type Random = r: real | 0.0 <= r < 1.0 witness 0.0

  function ExponentialDelay(attempt: nat, s: Settings): nat
    requires attempt >= 1
  {
    Min(s.maxDelayMs, s.baseDelayMs * Pow2(attempt - 1))
  }

  function Floor(d: real, jitterRatio: real): real {
    d * (1.0 - jitterRatio)
  }

  function Jittered(d: real, jitterRatio: real, random: Random): real {
    Interpolate(Floor(d, jitterRatio), d - Floor(d, jitterRatio), random)
  }

  function Interpolate(low: real, gap: real, random: Random): real {
    low + random * gap
  }

  function BackoffDelay(attempt: nat, s: Settings, random: Random): nat
    requires attempt >= 1
  {
    if s.baseDelayMs <= 0 then 0
    else
      var exponential := ExponentialDelay(attempt, s);
      if s.jitterRatio <= 0.0 then exponential
      else Max(0, Round(Jittered(exponential as real, s.jitterRatio, random)))
  }

  lemma RoundMonotone(x: real, y: real)
    requires x <= y
    ensures Round(x) <= Round(y)
  {
  }

  lemma Distributes(x: real, r: real)
    ensures (1.0 - r) * x == x - r * x
  {
  }

  lemma NotNegative(x: real, y: real)
    requires x >= 0.0 && y >= 0.0
    ensures x * y >= 0.0
  {
  }

  lemma Scaled(x: real, r: real)
    requires x >= 0.0 && 0.0 <= r <= 1.0
    ensures 0.0 <= r * x <= x
  {
    NotNegative(r, x);
    NotNegative(1.0 - r, x);
    Distributes(x, r);
  }

  lemma FloorIsBelow(d: real, jitterRatio: real)
    requires d >= 0.0 && 0.0 <= jitterRatio <= 1.0
    ensures 0.0 <= Floor(d, jitterRatio) <= d
  {
    var r := 1.0 - jitterRatio;
    Scaled(d, r);
    assert Floor(d, jitterRatio) == r * d;
  }

  lemma JitteredWithin(d: real, jitterRatio: real, random: Random)
    requires d >= 0.0 && 0.0 <= jitterRatio <= 1.0
    ensures Floor(d, jitterRatio) <= Jittered(d, jitterRatio, random) <= d
  {
    hide Floor, Interpolate;
    FloorIsBelow(d, jitterRatio);
    Interpolates(Floor(d, jitterRatio), d - Floor(d, jitterRatio), random);
  }

  lemma Interpolates(low: real, gap: real, random: Random)
    requires gap >= 0.0
    ensures low <= Interpolate(low, gap, random) <= low + gap
  {
    Scaled(gap, random);
  }

  lemma Pow2Grows(n: nat)
    ensures Pow2(n) >= 1 && Pow2(n + 1) == 2 * Pow2(n)
  {
  }

  /** Without jitter, delays never decrease and never exceed the cap. */
  lemma DelaysNeverDecrease(attempt: nat, s: Settings)
    requires attempt >= 1
    ensures ExponentialDelay(attempt, s) <= ExponentialDelay(attempt + 1, s) <= s.maxDelayMs
  {
    Pow2Grows(attempt - 1);
    hide Pow2;
    var p, q := s.baseDelayMs * Pow2(attempt - 1), s.baseDelayMs * Pow2(attempt);
    assert p <= q by { Times(s.baseDelayMs, Pow2(attempt - 1), Pow2(attempt)); }
    assert ExponentialDelay(attempt, s) == Min(s.maxDelayMs, p);
    assert ExponentialDelay(attempt + 1, s) == Min(s.maxDelayMs, q);
  }

  /** The first delay is the base, and each doubles the one before it until the cap. */
  lemma DelaysDouble(attempt: nat, s: Settings)
    requires attempt >= 1 && Sound(s)
    ensures ExponentialDelay(1, s) == s.baseDelayMs
    ensures ExponentialDelay(attempt + 1, s) ==
      if 2 * ExponentialDelay(attempt, s) < s.maxDelayMs then 2 * ExponentialDelay(attempt, s) else s.maxDelayMs
  {
    Pow2Grows(attempt - 1);
    assert Pow2(0) == 1;
    hide Pow2;
    var p := s.baseDelayMs * Pow2(attempt - 1);
    assert s.baseDelayMs * Pow2(attempt) == 2 * p by { TwiceAsLong(s.baseDelayMs, Pow2(attempt - 1)); }
    assert ExponentialDelay(attempt, s) == Min(s.maxDelayMs, p);
    assert ExponentialDelay(attempt + 1, s) == Min(s.maxDelayMs, 2 * p);
  }

  lemma TwiceAsLong(b: nat, p: nat)
    ensures b * (2 * p) == 2 * (b * p)
  {
  }

  /** A jittered delay lies between the rounded floor and the unjittered delay. */
  lemma JitterStaysWithin(attempt: nat, s: Settings, random: Random)
    requires attempt >= 1 && Sound(s)
    ensures var d := ExponentialDelay(attempt, s);
      Round(Floor(d as real, s.jitterRatio)) <= BackoffDelay(attempt, s, random) <= d
  {
    hide ExponentialDelay, Floor, Jittered, Round;
    var d := ExponentialDelay(attempt, s);
    FloorIsBelow(d as real, s.jitterRatio);
    JitteredWithin(d as real, s.jitterRatio, random);
    RoundMonotone(0.0, Floor(d as real, s.jitterRatio));
    RoundMonotone(Floor(d as real, s.jitterRatio), Jittered(d as real, s.jitterRatio, random));
    RoundMonotone(Jittered(d as real, s.jitterRatio, random), d as real);
    RoundMonotone(Floor(d as real, s.jitterRatio), d as real);
    RoundWhole(d);
    RoundWhole(0);
    if s.baseDelayMs == 0 { NoBaseNoDelay(attempt, s); }
  }

  function Even(d: real, jitterRatio: real, random: Random): real {
    d - (1.0 - random) * (d * jitterRatio)
  }

  /** A delay is the exponential one with the jitter taken off it evenly, from all of it at random
      number 0 to nothing near 1, rounded. */
  lemma DelayIsEven(attempt: nat, s: Settings, random: Random)
    requires attempt >= 1 && Sound(s)
    ensures BackoffDelay(attempt, s, random) == Round(Even(ExponentialDelay(attempt, s) as real, s.jitterRatio, random))
  {
    hide ExponentialDelay, Round, Floor, Jittered, Even;
    var whole := ExponentialDelay(attempt, s);
    var d: real := whole as real;
    RoundWhole(0);
    RoundWhole(whole);
    if s.baseDelayMs == 0 {
      NoBaseNoDelay(attempt, s);
      NothingOff(s.jitterRatio, d, random);
    } else if s.jitterRatio <= 0.0 {
      NothingOff(d, s.jitterRatio, random);
    } else {
      JitterIsEven(d, s.jitterRatio, random);
      JitteredWithin(d, s.jitterRatio, random);
      FloorIsBelow(d, s.jitterRatio);
      RoundMonotone(0.0, Jittered(d, s.jitterRatio, random));
    }
  }

  lemma NothingOff(x: real, zero: real, random: Random)
    requires zero == 0.0
    ensures Even(x, zero, random) == x && Even(zero, x, random) == 0.0
  {
    assert x * zero == 0.0 && zero * x == 0.0;
  }

  lemma JitterIsEven(d: real, jitterRatio: real, random: Random)
    ensures Jittered(d, jitterRatio, random) == Even(d, jitterRatio, random)
  {
    var off := d * jitterRatio;
    assert Floor(d, jitterRatio) == d - off by { assert d * (1.0 - jitterRatio) == d - d * jitterRatio; }
    assert (1.0 - random) * off == off - random * off;
  }

  lemma RoundWhole(d: nat)
    ensures Round(d as real) == d
  {
  }

  lemma NoBaseNoDelay(attempt: nat, s: Settings)
    requires attempt >= 1 && s.baseDelayMs == 0
    ensures ExponentialDelay(attempt, s) == 0
  {
    hide Pow2;
    assert s.baseDelayMs * Pow2(attempt - 1) == 0;
  }

  // ----- The loop -----

  /** What one run of the transaction body does. */
  datatype Attempt<T, E> = Success(value: T) | Failure(error: E)

  datatype Thrown<E> = Rethrown(error: E) | UnexpectedlyExhausted

  /** The body runs `runs` times: all but the last fail with a retryable error; the last
      one succeeds, or fails for good. */
  ghost predicate Ends<T, E>(n: int, attempts: nat -> Attempt<T, E>, shouldRetry: E -> bool, runs: nat,
      result: Result<T, Thrown<E>>) {
    && 1 <= runs <= n
    && (forall i: nat :: 1 <= i < runs ==> attempts(i).Failure? && shouldRetry(attempts(i).error))
    && match attempts(runs)
       case Success(value) => result == Ok(value)
       case Failure(error) => result == Err(Rethrown(error)) && (runs == n || !shouldRetry(error))
  }

  /** The positive delays slept after the first `failed` attempts. */
  function Sleeps(s: Settings, randoms: nat -> Random, failed: nat): seq<nat> {
    if failed == 0 then []
    else
      var delay := BackoffDelay(failed, s, randoms(failed));
      Sleeps(s, randoms, failed - 1) + if delay > 0 then [delay] else []
  }

  function Sum(delays: seq<nat>): nat {
    if delays == [] then 0 else Sum(delays[..|delays| - 1]) + delays[|delays| - 1]
  }

  method WithTransactionRetry<T(0), E>(o: Options, attempts: nat -> Attempt<T, E>, shouldRetry: E -> bool,
      randoms: nat -> Random)
    returns (result: Result<T, Thrown<E>>, runs: nat, slept: seq<nat>)
    ensures var n := o.maxAttempts.GetOr(3);
      if n < 1 then runs == 0 && result == Err(UnexpectedlyExhausted) && slept == []
      else Ends(n, attempts, shouldRetry, runs, result) && slept == Sleeps(GetBackoffSettings(o), randoms, runs - 1)
  {
    hide BackoffDelay, GetBackoffSettings;
    var maxAttempts := o.maxAttempts.GetOr(3);
    var settings := GetBackoffSettings(o);
    runs, slept := 0, [];
    var attempt := 1;
    while attempt <= maxAttempts
      invariant attempt == runs + 1 && (maxAttempts >= 1 ==> attempt <= maxAttempts) && (maxAttempts < 1 ==> runs == 0)
      invariant forall i: nat :: 1 <= i <= runs ==> attempts(i).Failure? && shouldRetry(attempts(i).error)
      invariant slept == Sleeps(settings, randoms, runs)
      decreases maxAttempts - attempt
    {
      runs := attempt;
      match attempts(attempt)
      case Success(value) => return Ok(value), runs, slept;
      case Failure(error) =>
        if !(attempt < maxAttempts && shouldRetry(error)) { return Err(Rethrown(error)), runs, slept; }
        var delayMs := BackoffDelay(attempt, settings, randoms(attempt));
        if delayMs > 0 { slept := slept + [delayMs]; }
        attempt := attempt + 1;
    }
    return Err(UnexpectedlyExhausted), runs, slept;
  }

  /** How a retried transaction ends is determined by its runs: the first success, or the
      first error that is final. The caller never sees the trailing error. */
  lemma OneEnding<T, E>(n: int, attempts: nat -> Attempt<T, E>, shouldRetry: E -> bool,
                  runs: nat, a: Result<T, Thrown<E>>, runs2: nat, b: Result<T, Thrown<E>>)
    requires Ends(n, attempts, shouldRetry, runs, a) && Ends(n, attempts, shouldRetry, runs2, b)
    ensures runs == runs2 && a == b && a != Err(UnexpectedlyExhausted)
  {
    NotLater(n, attempts, shouldRetry, runs, a, runs2, b);
    NotLater(n, attempts, shouldRetry, runs2, b, runs, a);
  }

  lemma NotLater<T, E>(n: int, attempts: nat -> Attempt<T, E>, shouldRetry: E -> bool,
                  runs: nat, a: Result<T, Thrown<E>>, runs2: nat, b: Result<T, Thrown<E>>)
    requires Ends(n, attempts, shouldRetry, runs, a) && Ends(n, attempts, shouldRetry, runs2, b)
    ensures runs2 <= runs
  {
  }

  lemma SumAppends(delays: seq<nat>, d: nat)
    ensures Sum(delays + [d]) == Sum(delays) + d
  {
    assert (delays + [d])[..|delays|] == delays;
  }

  /** Total sleep: at most the cap per retry, and at most the uncapped geometric sum. */
  lemma {:induction false} TotalSleepIsBounded(s: Settings, randoms: nat -> Random, failed: nat)
    requires Sound(s)
    ensures Sum(Sleeps(s, randoms, failed)) <= failed * s.maxDelayMs
    ensures Sum(Sleeps(s, randoms, failed)) <= s.baseDelayMs * (Pow2(failed) - 1)
    decreases failed
  {
    hide BackoffDelay, Sum;
    if failed == 0 {
      assert Sum([]) == 0 by { SumNone(); }
    } else {
      TotalSleepIsBounded(s, randoms, failed - 1);
      var delay := BackoffDelay(failed, s, randoms(failed));
      JitterStaysWithin(failed, s, randoms(failed));
      var before := Sleeps(s, randoms, failed - 1);
      SumAppends(before, delay);
      assert before + [] == before;
      assert Sum(Sleeps(s, randoms, failed)) == Sum(before) + delay;
      Doubled(s.baseDelayMs, Pow2(failed - 1));
      assert failed * s.maxDelayMs == (failed - 1) * s.maxDelayMs + s.maxDelayMs;
    }
  }

  lemma SumNone()
    ensures Sum([]) == 0
  {
  }

  lemma Doubled(b: nat, p: nat)
    ensures b * (2 * p - 1) == b * (p - 1) + b * p
  {
  }

  /** Whatever the outcome, a retried transaction sleeps no longer than its limit on
      attempts allows. */
  lemma RetriesSleepWithinBounds<T, E>(o: Options, attempts: nat -> Attempt<T, E>, shouldRetry: E -> bool,
                                      randoms: nat -> Random, runs: nat, result: Result<T, Thrown<E>>)
    requires Ends(o.maxAttempts.GetOr(3), attempts, shouldRetry, runs, result)
    ensures var s := GetBackoffSettings(o); var n := o.maxAttempts.GetOr(3);
      Sum(Sleeps(s, randoms, runs - 1)) <= Min((n - 1) * s.maxDelayMs, s.baseDelayMs * (Pow2(n - 1) - 1))
  {
    hide Sleeps, Sum, GetBackoffSettings, Pow2;
    var s, n := GetBackoffSettings(o), o.maxAttempts.GetOr(3);
    SettingsAreSound(o);
    TotalSleepIsBounded(s, randoms, runs - 1);
    Pow2Monotone(runs - 1, n - 1);
    Times(s.maxDelayMs, runs - 1, n - 1);
    Times(s.baseDelayMs, Pow2(runs - 1) - 1, Pow2(n - 1) - 1);
  }

  lemma Times(k: nat, a: int, b: int)
    requires a <= b
    ensures k * a <= k * b
  {
    assert k * b == k * a + k * (b - a);
  }

  lemma {:induction false} Pow2Monotone(a: nat, b: nat)
    requires a <= b
    ensures 1 <= Pow2(a) <= Pow2(b)
    decreases b
  {
    Pow2Grows(a);
    if a < b { Pow2Monotone(a, b - 1); }
  }
}
