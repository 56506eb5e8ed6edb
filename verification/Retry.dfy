/** withRetry: the number of calls, the number of sleeps, and how long each sleep is. */
module Retry {
  import opened JsonValues

  datatype CallOutcome<T> = Returned(value: T) | Threw(retryable: bool)

  function Min(a: real, b: real): real {
    if a <= b then a else b
  }

  /** initial * rate^n. */
  function Exponential(initial: real, rate: real, n: nat): real {
    if n == 0 then initial else Exponential(initial, rate, n - 1) * rate
  }

  /** The next delay: exponential backoff with jitter, cut off at the cap. */
  function Backoff(delay: real, factor: real, jitter: real, cap: real): real {
    Min(delay * factor * jitter, cap)
  }

  predicate ValidJitter(jitters: seq<real>) {
    forall j <- jitters :: 0.85 <= j < 1.15
  }

  /** The delay before the i-th retry. */
  function Delay(initial: real, cap: real, factor: real, jitters: seq<real>, i: nat): real
    requires i <= |jitters|
  {
    if i == 0 then initial else Backoff(Delay(initial, cap, factor, jitters, i - 1), factor, jitters[i - 1], cap)
  }

  /** withRetry. calls[i] is what the i-th call would do and jitters[i] the random factor after it; the
      result is the number of calls made, the sleeps between them, and what the caller gets: the outcome of the last
      call. An outcome ends the loop if it is a value, an error that is not retryable, or that of the last attempt. */
  method WithRetry<T>(calls: seq<CallOutcome<T>>, jitters: seq<real>, maxRetries: int, initial: real, cap: real, factor: real)
    returns (made: nat, sleeps: seq<real>, result: Option<CallOutcome<T>>)
    requires |calls| == |jitters| && |calls| > maxRetries
    ensures made <= if maxRetries >= 0 then maxRetries + 1 else 0
    ensures maxRetries >= 0 ==> made > 0 && result == Some(calls[made - 1])
    ensures maxRetries >= 0 ==> calls[made - 1].Returned? || !calls[made - 1].retryable || made == maxRetries + 1
    ensures maxRetries < 0 ==> result == None
    ensures forall i | 0 <= i < made - 1 :: calls[i].Threw? && calls[i].retryable
    ensures |sleeps| == if made == 0 then 0 else made - 1
    ensures forall i | 0 <= i < |sleeps| :: sleeps[i] == Delay(initial, cap, factor, jitters, i)
  {
    made, sleeps, result := 0, [], None;
    var delay := initial;
    var attempt := 0;
    while attempt <= maxRetries
      invariant 0 <= attempt <= |calls| && (if maxRetries >= 0 then attempt <= maxRetries else attempt == 0 && result == None)
      invariant made == attempt == |sleeps|
      invariant delay == Delay(initial, cap, factor, jitters, attempt)
      invariant forall i | 0 <= i < attempt :: calls[i].Threw? && calls[i].retryable
      invariant forall i | 0 <= i < attempt :: sleeps[i] == Delay(initial, cap, factor, jitters, i)
    {
      made := made + 1;
      result := Some(calls[attempt]);
      if calls[attempt].Returned? {
        return;
      }
      if attempt == maxRetries || !calls[attempt].retryable {
        return;
      }
      sleeps := sleeps + [delay];
      delay := Backoff(delay, factor, jitters[attempt], cap);
      attempt := attempt + 1;
    }
  }

  lemma ScaleLeft(c: real, a: real, b: real)
    requires a <= b && 0.0 <= c
    ensures c * a <= c * b
  {
  }

  lemma ScaleRight(a: real, b: real, c: real)
    requires a <= b && 0.0 <= c
    ensures a * c <= b * c
  {
  }

  lemma Associative(a: real, b: real, c: real)
    ensures a * b * c == a * (b * c)
  {
  }

  lemma JitteredRate(factor: real, jitter: real)
    requires 0.85 <= jitter < 1.15 && factor >= 0.0
    ensures factor * 0.85 <= factor * jitter <= factor * 1.15
  {
    ScaleLeft(factor, 0.85, jitter);
    ScaleLeft(factor, jitter, 1.15);
  }

  lemma StepLowerBound(low: real, delay: real, cap: real, slow: real, rate: real)
    requires 0.0 <= low && 0.0 <= cap && 0.0 <= slow <= rate && (1.0 <= slow || low <= cap)
    requires Min(low, cap) <= delay
    ensures Min(low * slow, cap) <= delay * rate
  {
    if low <= cap {
      Products(low, delay, slow, rate);
    } else {
      ScaleLeft(delay, 1.0, rate);
    }
  }

  lemma Products(a: real, b: real, c: real, d: real)
    requires 0.0 <= a <= b && 0.0 <= c <= d
    ensures a * c <= b * d
  {
    ScaleRight(a, b, c);
    ScaleLeft(b, c, d);
  }

  lemma {:induction false} ExponentialNonNegative(initial: real, rate: real, n: nat)
    requires initial >= 0.0 && rate >= 0.0
    ensures Exponential(initial, rate, n) >= 0.0
    decreases n
  {
    if n > 0 {
      ExponentialNonNegative(initial, rate, n - 1);
      ScaleRight(0.0, Exponential(initial, rate, n - 1), rate);
    }
  }

  lemma {:induction false} ExponentialShrinks(initial: real, rate: real, n: nat)
    requires initial >= 0.0 && 0.0 <= rate <= 1.0
    ensures Exponential(initial, rate, n) <= initial
    decreases n
  {
    if n > 0 {
      var previous := Exponential(initial, rate, n - 1);
      ExponentialShrinks(initial, rate, n - 1);
      ExponentialNonNegative(initial, rate, n - 1);
      ScaleLeft(previous, rate, 1.0);
    }
  }

  lemma BackoffIsOneFactor(delay: real, factor: real, jitter: real, cap: real, rate: real)
    requires rate == factor * jitter
    ensures Backoff(delay, factor, jitter, cap) == Min(delay * rate, cap)
  {
    Associative(delay, factor, jitter);
  }

  /** One step keeps a delay between its bounds. */
  lemma BackoffBounds(low: real, delay: real, high: real, cap: real, factor: real, jitter: real, slow: real, fast: real)
    requires 0.85 <= jitter < 1.15 && 0.0 <= factor && slow == factor * 0.85 && fast == factor * 1.15
    requires 0.0 <= low && 0.0 <= cap && (1.0 <= slow || low <= cap)
    requires Min(low, cap) <= delay <= Min(high, cap)
    ensures Min(low * slow, cap) <= Backoff(delay, factor, jitter, cap) <= Min(high * fast, cap)
  {
    JitteredRate(factor, jitter);
    BackoffBetweenRates(low, delay, high, cap, factor, jitter, slow, factor * jitter, fast);
  }

  lemma BackoffBetweenRates(low: real, delay: real, high: real, cap: real, factor: real, jitter: real, slow: real, rate: real, fast: real)
    requires rate == factor * jitter
    requires 0.0 <= low && 0.0 <= cap && 0.0 <= slow <= rate <= fast && (1.0 <= slow || low <= cap)
    requires Min(low, cap) <= delay <= Min(high, cap)
    ensures Min(low * slow, cap) <= Backoff(delay, factor, jitter, cap) <= Min(high * fast, cap)
  {
    BackoffIsOneFactor(delay, factor, jitter, cap, rate);
    StepLowerBound(low, delay, cap, slow, rate);
    Products(delay, high, rate, fast);
  }

  lemma DelayUnfolds(initial: real, cap: real, factor: real, jitters: seq<real>, i: nat, delay: real, jitter: real)
    requires 0 < i <= |jitters| && delay == Delay(initial, cap, factor, jitters, i - 1) && jitter == jitters[i - 1]
    ensures Delay(initial, cap, factor, jitters, i) == Backoff(delay, factor, jitter, cap)
  {
  }

  lemma ExponentialUnfolds(initial: real, rate: real, i: nat, previous: real)
    requires 0 < i && previous == Exponential(initial, rate, i - 1)
    ensures Exponential(initial, rate, i) == previous * rate
  {
  }

  /** Every delay stays between the slowest and the fastest exponential, both cut off at the cap, for
      every backoff factor that is not negative. */
  lemma {:induction false} DelayBounds(initial: real, cap: real, factor: real, slow: real, fast: real, jitters: seq<real>, i: nat)
    requires i <= |jitters| && ValidJitter(jitters)
    requires 0.0 <= initial <= cap && 0.0 <= factor
    requires slow == factor * 0.85 && fast == factor * 1.15
    ensures Min(Exponential(initial, slow, i), cap) <= Delay(initial, cap, factor, jitters, i)
    ensures Delay(initial, cap, factor, jitters, i) <= Min(Exponential(initial, fast, i), cap)
    decreases i
  {
    if i > 0 {
      DelayBounds(initial, cap, factor, slow, fast, jitters, i - 1);
      var jitter, delay := jitters[i - 1], Delay(initial, cap, factor, jitters, i - 1);
      var low, high := Exponential(initial, slow, i - 1), Exponential(initial, fast, i - 1);
      assert jitter in jitters;
      ExponentialNonNegative(initial, slow, i - 1);
      if slow < 1.0 {
        ExponentialShrinks(initial, slow, i - 1);
      }
      BackoffBounds(low, delay, high, cap, factor, jitter, slow, fast);
      DelayUnfolds(initial, cap, factor, jitters, i, delay, jitter);
      ExponentialUnfolds(initial, slow, i, low);
      ExponentialUnfolds(initial, fast, i, high);
    }
  }

  /** The delays of the backend's wrapper, whose factor is 2. */
  lemma DoublingDelayBounds(initial: real, cap: real, jitters: seq<real>, i: nat)
    requires i <= |jitters| && ValidJitter(jitters) && 0.0 <= initial <= cap
    ensures Min(Exponential(initial, 1.7, i), cap) <= Delay(initial, cap, 2.0, jitters, i)
    ensures Delay(initial, cap, 2.0, jitters, i) <= Min(Exponential(initial, 2.3, i), cap)
  {
    DelayBounds(initial, cap, 2.0, 1.7, 2.3, jitters, i);
  }

  /** initial times the first i rates. */
  function Grown(initial: real, rates: seq<real>, i: nat): real
    requires i <= |rates|
  {
    if i == 0 then initial else Grown(initial, rates, i - 1) * rates[i - 1]
  }

  predicate RateIs(rate: real, factor: real, jitter: real) {
    rate == factor * jitter
  }

  /** Each rate is the factor times its jitter, and none shrinks a delay. */
  predicate GrowingRates(factor: real, jitters: seq<real>, rates: seq<real>) {
    |rates| == |jitters| && forall j | 0 <= j < |rates| :: RateIs(rates[j], factor, jitters[j]) && 1.0 <= rates[j]
  }

  lemma BackoffOfCapped(grown: real, cap: real, factor: real, jitter: real, rate: real)
    requires 0.0 <= grown && 0.0 <= cap && RateIs(rate, factor, jitter) && 1.0 <= rate
    ensures Backoff(Min(grown, cap), factor, jitter, cap) == Min(grown * rate, cap)
    ensures 0.0 <= grown * rate
  {
    BackoffIsOneFactor(Min(grown, cap), factor, jitter, cap, rate);
    Products(0.0, grown, 0.0, rate);
    if grown > cap {
      ScaleLeft(cap, 1.0, rate);
      ScaleLeft(grown, 1.0, rate);
    }
  }

  lemma GrownUnfolds(initial: real, rates: seq<real>, i: nat, previous: real, rate: real)
    requires 0 < i <= |rates| && previous == Grown(initial, rates, i - 1) && rate == rates[i - 1]
    ensures Grown(initial, rates, i) == previous * rate
  {
  }

  lemma NextIsCapped(initial: real, cap: real, factor: real, jitters: seq<real>, rates: seq<real>, i: nat, grown: real, jitter: real, rate: real)
    requires 0 < i <= |jitters| == |rates| && jitter == jitters[i - 1] && rate == rates[i - 1]
    requires RateIs(rate, factor, jitter) && 1.0 <= rate && 0.0 <= cap
    requires 0.0 <= grown == Grown(initial, rates, i - 1) && Delay(initial, cap, factor, jitters, i - 1) == Min(grown, cap)
    ensures Delay(initial, cap, factor, jitters, i) == Min(Grown(initial, rates, i), cap)
    ensures 0.0 <= Grown(initial, rates, i)
  {
    BackoffOfCapped(grown, cap, factor, jitter, rate);
    DelayUnfolds(initial, cap, factor, jitters, i, Min(grown, cap), jitter);
    GrownUnfolds(initial, rates, i, grown, rate);
  }

  /** As long as no rate shrinks a delay, each delay is in closed form the capped product of the rates. */
  lemma {:induction false} DelayIsCappedProduct(initial: real, cap: real, factor: real, jitters: seq<real>, rates: seq<real>, i: nat)
    requires i <= |jitters| && GrowingRates(factor, jitters, rates) && 0.0 <= initial <= cap
    ensures Delay(initial, cap, factor, jitters, i) == Min(Grown(initial, rates, i), cap)
    ensures 0.0 <= Grown(initial, rates, i)
    decreases i
  {
    if i > 0 {
      DelayIsCappedProduct(initial, cap, factor, jitters, rates, i - 1);
      NextIsCapped(initial, cap, factor, jitters, rates, i, Grown(initial, rates, i - 1), jitters[i - 1], rates[i - 1]);
    }
  }

  /** The backend's factor of 2 makes every rate grow, so its delays have that form. */
  lemma DoublingDelayIsCappedProduct(initial: real, cap: real, jitters: seq<real>, i: nat)
    requires i <= |jitters| && ValidJitter(jitters) && 0.0 <= initial <= cap
    ensures Delay(initial, cap, 2.0, jitters, i)
         == Min(Grown(initial, seq(|jitters|, j requires 0 <= j < |jitters| => 2.0 * jitters[j]), i), cap)
  {
    var rates := seq(|jitters|, j requires 0 <= j < |jitters| => 2.0 * jitters[j]);
    forall j | 0 <= j < |jitters|
      ensures RateIs(rates[j], 2.0, jitters[j]) && 1.0 <= rates[j]
    {
      assert jitters[j] in jitters;
    }
    DelayIsCappedProduct(initial, cap, 2.0, jitters, rates, i);
  }
}
