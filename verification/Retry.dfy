/**
 The per-element retry loop and its backoff arithmetic, over the reals. `calls(k)` is
 the outcome of the k-th provider call and `draws(k)` the k-th jitter draw as a fraction
 of the jitter span; both are arbitrary, so every statement is about every provider and
 every random sequence.
 */
module Retry {
  import opened Wrappers
  import opened Fallback

  datatype RetryPolicy = RetryPolicy(
    maxAttempts: nat,
    initialBackoffMs: nat,
    multiplier: real,
    jitterPct: real,
    totalBudgetMs: nat,
    retryOn: seq<string>)

  datatype StreamHandle = StreamHandle(id: nat)

  type CallResult = Result<StreamHandle, ProviderError>

  type Fraction = u: real | -1.0 <= u <= 1.0 witness 0.0

  datatype RetryOutcome = RetryOutcome(result: CallResult, attempts: nat)

  /** A named product, so that proofs compare products of applications by name. */
  function Times(a: real, b: real): real {
    a * b
  }

  function Pow(m: real, n: nat): real {
    if n == 0 then 1.0 else m * Pow(m, n - 1)
  }

  /** `x.round().max(0.0) as u64`: halves round away from zero. */
  function RoundMs(x: real): nat {
    if x <= 0.0 then 0 else (x + 0.5).Floor
  }

  /** The jitter span as a fraction. */
  function Span(p: RetryPolicy): real {
    p.jitterPct / 100.0
  }

  function JitterFactor(p: RetryPolicy, u: Fraction): real {
    if p.jitterPct == 0.0 then 1.0 else 1.0 + Times(Span(p), u)
  }

  function BaseMs(p: RetryPolicy, attempt: nat): real
    requires 1 <= attempt
  {
    Times(p.initialBackoffMs as real, Pow(p.multiplier, attempt - 1))
  }

  function ScaledMs(base: real, factor: real): nat {
    RoundMs(base * factor)
  }

  function Backoff(p: RetryPolicy, attempt: nat, u: Fraction): nat
    requires 1 <= attempt
  {
    ScaledMs(BaseMs(p, attempt), JitterFactor(p, u))
  }

  /** The sleep accumulated after attempts 1..n. */
  function SleepTotal(p: RetryPolicy, draws: nat -> Fraction, n: nat): nat {
    if n == 0 then 0 else SleepTotal(p, draws, n - 1) + Backoff(p, n, draws(n))
  }

  /** Attempt `k` is followed by another one. */
  predicate GoesOn(p: RetryPolicy, calls: nat -> CallResult, draws: nat -> Fraction, k: nat)
  {
    && calls(k).Err? && Eligible(calls(k).error, p.retryOn)
    && k < p.maxAttempts
    && SleepTotal(p, draws, k) <= p.totalBudgetMs
  }

  /** The outcome is that of the first attempt that is not followed by another. */
  predicate IsOutcome(p: RetryPolicy, calls: nat -> CallResult, draws: nat -> Fraction, o: RetryOutcome) {
    && 1 <= o.attempts
    && (forall k :: 1 <= k < o.attempts ==> GoesOn(p, calls, draws, k))
    && !GoesOn(p, calls, draws, o.attempts)
    && o.result == calls(o.attempts)
  }

  lemma OutcomeUnique(p: RetryPolicy, calls: nat -> CallResult, draws: nat -> Fraction,
                      o: RetryOutcome, o': RetryOutcome)
    requires IsOutcome(p, calls, draws, o) && IsOutcome(p, calls, draws, o')
    ensures o == o'
  {
    assert o.attempts >= o'.attempts by {
      assert o.attempts < o'.attempts ==> GoesOn(p, calls, draws, o.attempts);
    }
    assert o'.attempts >= o.attempts by {
      assert o'.attempts < o.attempts ==> GoesOn(p, calls, draws, o'.attempts);
    }
  }

  /** The outcome as a function of the scripts. */
  function OutcomeFrom(p: RetryPolicy, calls: nat -> CallResult, draws: nat -> Fraction, k: nat): RetryOutcome
    decreases if k <= p.maxAttempts then p.maxAttempts - k + 1 else 0
  {
    if GoesOn(p, calls, draws, k) then OutcomeFrom(p, calls, draws, k + 1) else RetryOutcome(calls(k), k)
  }

  function Outcome(p: RetryPolicy, calls: nat -> CallResult, draws: nat -> Fraction): RetryOutcome {
    OutcomeFrom(p, calls, draws, 1)
  }

  lemma {:induction false} OutcomeFromIs(p: RetryPolicy, calls: nat -> CallResult, draws: nat -> Fraction, k: nat)
    requires 1 <= k && forall i :: 1 <= i < k ==> GoesOn(p, calls, draws, i)
    ensures IsOutcome(p, calls, draws, OutcomeFrom(p, calls, draws, k))
    decreases if k <= p.maxAttempts then p.maxAttempts - k + 1 else 0
  {
    if GoesOn(p, calls, draws, k) {
      OutcomeFromIs(p, calls, draws, k + 1);
    }
  }

  lemma OutcomeIs(p: RetryPolicy, calls: nat -> CallResult, draws: nat -> Fraction)
    ensures IsOutcome(p, calls, draws, Outcome(p, calls, draws))
  {
    OutcomeFromIs(p, calls, draws, 1);
  }

  method RetryWithPolicy(p: RetryPolicy, calls: nat -> CallResult, draws: nat -> Fraction) returns (o: RetryOutcome)
    ensures o == Outcome(p, calls, draws)
    ensures 1 <= o.attempts && (o.attempts <= p.maxAttempts || o.attempts == 1)
    ensures o.result == calls(o.attempts)
    ensures forall k :: 1 <= k < o.attempts ==> calls(k).Err? && Eligible(calls(k).error, p.retryOn)
    ensures SleepTotal(p, draws, o.attempts - 1) <= p.totalBudgetMs
    ensures o.result.Err? && Eligible(o.result.error, p.retryOn) ==>
            o.attempts >= p.maxAttempts || SleepTotal(p, draws, o.attempts) > p.totalBudgetMs
  {
    var attempt := 1;
    var totalElapsedMs := 0;
    while true
      invariant 1 <= attempt && (attempt <= p.maxAttempts || attempt == 1)
      invariant totalElapsedMs == SleepTotal(p, draws, attempt - 1) <= p.totalBudgetMs
      invariant forall k :: 1 <= k < attempt ==> GoesOn(p, calls, draws, k)
      decreases if attempt <= p.maxAttempts then p.maxAttempts - attempt else 0
    {
      var result := calls(attempt);
      o := RetryOutcome(result, attempt);
      if result.Ok? || !Eligible(result.error, p.retryOn) || attempt >= p.maxAttempts {
        break;
      }
      var backoffMs := Backoff(p, attempt, draws(attempt));
      if totalElapsedMs + backoffMs > p.totalBudgetMs {
        break;
      }
      totalElapsedMs := totalElapsedMs + backoffMs;
      attempt := attempt + 1;
    }
    OutcomeIs(p, calls, draws);
    OutcomeUnique(p, calls, draws, o, Outcome(p, calls, draws));
    forall k | 1 <= k < o.attempts
      ensures calls(k).Err? && Eligible(calls(k).error, p.retryOn)
    {
      assert GoesOn(p, calls, draws, k);
    }
  }

  // ---- the jitter band ----

  /** What validation guarantees of a configured multiplier and jitter. */
  predicate Validated(p: RetryPolicy) {
    p.multiplier > 1.0 && 0.0 <= p.jitterPct <= 100.0
  }

  lemma {:induction false} PowAtLeastOne(m: real, n: nat)
    requires m > 1.0
    ensures Pow(m, n) >= 1.0
  {
    if n > 0 {
      PowAtLeastOne(m, n - 1);
      MulMono(1.0, m, Pow(m, n - 1));
    }
  }

  lemma MulMono(a: real, b: real, c: real)
    requires a <= b && 0.0 <= c
    ensures a * c <= b * c
  {
  }

  lemma FactorInBand(p: RetryPolicy, u: Fraction)
    requires Validated(p)
    ensures 1.0 - Span(p) <= JitterFactor(p, u) <= 1.0 + Span(p)
  {
    ScaledFraction(Span(p), u);
  }

  lemma ScaledFraction(s: real, u: real)
    requires 0.0 <= s && -1.0 <= u <= 1.0
    ensures -s <= Times(s, u) <= s
  {
    assert s * (1.0 - u) >= 0.0 && s * (1.0 + u) >= 0.0;
  }

  /** Every backoff lies within half a millisecond of the jitter band around its base. */
  lemma BackoffInBand(p: RetryPolicy, attempt: nat, u: Fraction)
    requires Validated(p) && 1 <= attempt
    ensures BaseMs(p, attempt) >= 0.0
    ensures Times(BaseMs(p, attempt), 1.0 - Span(p)) - 0.5 <= Backoff(p, attempt, u) as real
    ensures Backoff(p, attempt, u) as real <= Times(BaseMs(p, attempt), 1.0 + Span(p)) + 0.5
  {
    PowAtLeastOne(p.multiplier, attempt - 1);
    var base := BaseMs(p, attempt);
    MulMono(0.0, p.initialBackoffMs as real, Pow(p.multiplier, attempt - 1));
    FactorInBand(p, u);
    RoundScaled(base, 1.0 - Span(p), JitterFactor(p, u), 1.0 + Span(p));
  }

  lemma RoundScaled(base: real, lo: real, f: real, hi: real)
    requires 0.0 <= base && 0.0 <= lo <= f <= hi
    ensures Times(base, lo) - 0.5 <= ScaledMs(base, f) as real <= Times(base, hi) + 0.5
  {
    assert 0.0 <= base * lo <= base * f <= base * hi;
    RoundNear(base * f);
  }

  lemma RoundNear(x: real)
    requires x >= 0.0
    ensures x - 0.5 <= RoundMs(x) as real <= x + 0.5
  {
  }

  lemma ThreeFactors(first: real, power: real, share: real)
    ensures Times(Times(first, power), share) == first * share * power
  {
    assert first * power * share == first * share * power;
  }

  /** The same band written out: `initial(1-j)m^(attempt-1)` and `initial(1+j)m^(attempt-1)`. */
  lemma BackoffNearFormula(p: RetryPolicy, attempt: nat, u: Fraction)
    requires Validated(p) && 1 <= attempt
    ensures var first, j, power := p.initialBackoffMs as real, p.jitterPct / 100.0, Pow(p.multiplier, attempt - 1);
            && first * (1.0 - j) * power - 0.5 <= Backoff(p, attempt, u) as real
            && Backoff(p, attempt, u) as real <= first * (1.0 + j) * power + 0.5
  {
    var first, j, power := p.initialBackoffMs as real, p.jitterPct / 100.0, Pow(p.multiplier, attempt - 1);
    BackoffInBand(p, attempt, u);
    ThreeFactors(first, power, 1.0 - j);
    ThreeFactors(first, power, 1.0 + j);
  }

  /** Without jitter the first retry waits exactly the configured initial backoff. */
  lemma FirstBackoffIsInitial(p: RetryPolicy, u: Fraction)
    requires p.jitterPct == 0.0
    ensures Backoff(p, 1, u) == p.initialBackoffMs
  {
    assert Pow(p.multiplier, 0) == 1.0;
    assert BaseMs(p, 1) == p.initialBackoffMs as real;
    WholeIffRoundingKeeps(p.initialBackoffMs as real);
    assert Times(BaseMs(p, 1), 1.0) == p.initialBackoffMs as real;
  }

  /** Rounding is to the nearest millisecond, halves upwards. */
  lemma RoundsToNearest(x: real, n: nat)
    requires x >= 0.0
    ensures RoundMs(x) == n <==> n as real - 0.5 <= x < n as real + 0.5
  {
  }

  /** The power is the power: one factor is the base, and exponents add. */
  lemma {:induction false} PowAdds(m: real, a: nat, b: nat)
    ensures Pow(m, 0) == 1.0 && Pow(m, 1) == m
    ensures Pow(m, a + b) == Pow(m, a) * Pow(m, b)
  {
    assert Pow(m, 1) == m * Pow(m, 0);
    if a > 0 {
      PowAdds(m, a - 1, b);
      MulAssociates(m, Pow(m, a - 1), Pow(m, b));
    }
  }

  lemma MulAssociates(x: real, y: real, z: real)
    ensures x * (y * z) == (x * y) * z
  {
  }

  /** The ends of the documented band. */
  function BandLow(p: RetryPolicy, attempt: nat): real
    requires 1 <= attempt
  {
    Times(BaseMs(p, attempt), 1.0 - Span(p))
  }

  function BandHigh(p: RetryPolicy, attempt: nat): real
    requires 1 <= attempt
  {
    Times(BaseMs(p, attempt), 1.0 + Span(p))
  }

  predicate InBand(p: RetryPolicy, attempt: nat, u: Fraction)
    requires 1 <= attempt
  {
    BandLow(p, attempt) <= Backoff(p, attempt, u) as real <= BandHigh(p, attempt)
  }

  lemma RoundMonotone(x: real, y: real)
    requires x <= y
    ensures RoundMs(x) <= RoundMs(y)
  {
  }

  lemma ScaledMonotone(base: real, f: real, g: real)
    requires 0.0 <= base && f <= g
    ensures ScaledMs(base, f) <= ScaledMs(base, g)
  {
    MulMono(f, g, base);
    RoundMonotone(base * f, base * g);
  }

  /** The extreme draws give the rounded ends of the band, and every other draw something between them. */
  lemma BackoffBetweenEnds(p: RetryPolicy, attempt: nat, u: Fraction)
    requires Validated(p) && 1 <= attempt
    ensures Backoff(p, attempt, -1.0) == RoundMs(BandLow(p, attempt))
    ensures Backoff(p, attempt, 1.0) == RoundMs(BandHigh(p, attempt))
    ensures Backoff(p, attempt, -1.0) <= Backoff(p, attempt, u) <= Backoff(p, attempt, 1.0)
  {
    BackoffInBand(p, attempt, u);
    FactorInBand(p, u);
    ExtremeFactors(p);
    ScaledBetween(BaseMs(p, attempt), 1.0 - Span(p), JitterFactor(p, u), 1.0 + Span(p));
  }

  lemma ExtremeFactors(p: RetryPolicy)
    ensures JitterFactor(p, -1.0) == 1.0 - Span(p) && JitterFactor(p, 1.0) == 1.0 + Span(p)
  {
  }

  lemma ScaledBetween(base: real, lo: real, f: real, hi: real)
    requires 0.0 <= base && lo <= f <= hi
    ensures ScaledMs(base, lo) == RoundMs(Times(base, lo)) && ScaledMs(base, hi) == RoundMs(Times(base, hi))
    ensures ScaledMs(base, lo) <= ScaledMs(base, f) <= ScaledMs(base, hi)
  {
    ScaledMonotone(base, lo, f);
    ScaledMonotone(base, f, hi);
  }

  /**
   The doc comment claims that every draw stays inside the band. That is so exactly when rounding
   does not lower the band's lower end and does not raise its upper end.
   */
  lemma AlwaysInBandIff(p: RetryPolicy, attempt: nat)
    requires Validated(p) && 1 <= attempt
    ensures (forall u: Fraction :: InBand(p, attempt, u)) <==>
            BandLow(p, attempt) <= RoundMs(BandLow(p, attempt)) as real &&
            RoundMs(BandHigh(p, attempt)) as real <= BandHigh(p, attempt)
  {
    forall u: Fraction
      ensures Backoff(p, attempt, -1.0) == RoundMs(BandLow(p, attempt))
      ensures Backoff(p, attempt, 1.0) == RoundMs(BandHigh(p, attempt))
      ensures Backoff(p, attempt, -1.0) <= Backoff(p, attempt, u) <= Backoff(p, attempt, 1.0)
    {
      BackoffBetweenEnds(p, attempt, u);
    }
    BackoffBetweenEnds(p, attempt, 1.0);
    if forall u: Fraction :: InBand(p, attempt, u) {
      assert InBand(p, attempt, -1.0) && InBand(p, attempt, 1.0);
    }
  }

  /** Without jitter the band is the single point `base`, and the claim holds exactly when the base is whole. */
  lemma ExactWithoutJitterIffWhole(p: RetryPolicy, attempt: nat, u: Fraction)
    requires Validated(p) && 1 <= attempt && p.jitterPct == 0.0
    ensures Backoff(p, attempt, u) as real == BaseMs(p, attempt) <==>
            BaseMs(p, attempt).Floor as real == BaseMs(p, attempt)
  {
    BackoffInBand(p, attempt, u);
    BackoffBetweenEnds(p, attempt, u);
    AlwaysInBandIff(p, attempt);
    NoJitterBand(p, attempt);
    WholeIffRoundingKeeps(BaseMs(p, attempt));
  }

  lemma NoJitterBand(p: RetryPolicy, attempt: nat)
    requires 1 <= attempt && p.jitterPct == 0.0
    ensures BandLow(p, attempt) == BandHigh(p, attempt) == BaseMs(p, attempt)
  {
    assert Span(p) == 0.0;
    assert BaseMs(p, attempt) * 1.0 == BaseMs(p, attempt);
  }

  lemma WholeIffRoundingKeeps(x: real)
    requires x >= 0.0
    ensures RoundMs(x) as real == x <==> x.Floor as real == x
  {
    if x.Floor as real == x && x > 0.0 {
      assert (x + 0.5).Floor == x.Floor;
    }
  }

  /** Two validated policies, one without jitter and one with, whose second backoff can leave the band. */
  lemma RoundingLeavesBand(u: Fraction)
    ensures var p := RetryPolicy(3, 1, 1.5, 0.0, 1000, []);
            Validated(p) && !InBand(p, 2, u)
    ensures var p := RetryPolicy(3, 1, 1.5, 10.0, 1000, []);
            Validated(p) && !InBand(p, 2, 1.0)
  {
    var p, q := RetryPolicy(3, 1, 1.5, 0.0, 1000, []), RetryPolicy(3, 1, 1.5, 10.0, 1000, []);
    assert Pow(1.5, 1) == 1.5 * Pow(1.5, 0);
    assert BaseMs(p, 2) == 1.5 && BaseMs(q, 2) == 1.5;
    assert Span(p) == 0.0 && Span(q) == 0.1;
    assert BandHigh(q, 2) == 1.65;
  }

  // ---- the budget alone bounds the attempts ----

  function GeometricSum(m: real, n: nat): real {
    if n == 0 then 0.0 else GeometricSum(m, n - 1) + Pow(m, n - 1)
  }

  lemma {:induction false} GeometricClosedForm(m: real, n: nat, g: real)
    requires m > 1.0 && g == GeometricSum(m, n)
    ensures Times(m - 1.0, g) == Pow(m, n) - 1.0
  {
    if n > 0 {
      GeometricClosedForm(m, n - 1, GeometricSum(m, n - 1));
    }
  }

  /** `initial * (1 - jitter)`: the least a first backoff can be before rounding. */
  function LeastFirst(p: RetryPolicy): real {
    Times(p.initialBackoffMs as real, 1.0 - Span(p))
  }

  /** n sleeps total at least `initial(1-j)(1 + m + ... + m^(n-1)) - n/2`. */
  lemma {:induction false} SleepAtLeastSum(p: RetryPolicy, draws: nat -> Fraction, n: nat)
    requires Validated(p)
    ensures SleepTotal(p, draws, n) as real >= Times(LeastFirst(p), GeometricSum(p.multiplier, n)) - n as real / 2.0
  {
    if n > 0 {
      SleepAtLeastSum(p, draws, n - 1);
      BackoffInBand(p, n, draws(n));
      OneTermMore(p.initialBackoffMs as real, 1.0 - Span(p), LeastFirst(p), GeometricSum(p.multiplier, n - 1),
                  GeometricSum(p.multiplier, n), Pow(p.multiplier, n - 1), BaseMs(p, n));
    }
  }

  lemma OneTermMore(first: real, least: real, a: real, sum: real, longer: real, power: real, base: real)
    requires a == Times(first, least) && base == Times(first, power) && longer == sum + power
    ensures Times(a, longer) == Times(a, sum) + Times(base, least)
  {
    assert a * power == base * least;
  }

  /** The same in closed form: `(m-1)(total + n/2) >= initial(1-j)(m^n - 1)`. */
  lemma SleepAtLeastGeometric(p: RetryPolicy, draws: nat -> Fraction, n: nat)
    requires Validated(p)
    ensures Times(p.multiplier - 1.0, SleepTotal(p, draws, n) as real + n as real / 2.0) >=
            Times(LeastFirst(p), Pow(p.multiplier, n) - 1.0)
  {
    var g := GeometricSum(p.multiplier, n);
    SleepAtLeastSum(p, draws, n);
    GeometricClosedForm(p.multiplier, n, g);
    ScaleSum(LeastFirst(p), p.multiplier - 1.0, g, Pow(p.multiplier, n) - 1.0,
             SleepTotal(p, draws, n) as real + n as real / 2.0);
  }

  lemma ScaleSum(a: real, d: real, g: real, grown: real, total: real)
    requires d > 0.0 && Times(d, g) == grown && total >= Times(a, g)
    ensures Times(d, total) >= Times(a, grown)
  {
    MulMono(Times(a, g), total, d);
    assert a * (d * g) == d * (a * g);
  }

  /** n sleeps total at most `initial(1+j)(1 + m + ... + m^(n-1)) + n/2`. */
  lemma {:induction false} SleepAtMostSum(p: RetryPolicy, draws: nat -> Fraction, n: nat)
    requires Validated(p)
    ensures SleepTotal(p, draws, n) as real <= Times(MostFirst(p), GeometricSum(p.multiplier, n)) + n as real / 2.0
  {
    if n > 0 {
      SleepAtMostSum(p, draws, n - 1);
      BackoffInBand(p, n, draws(n));
      OneTermMore(p.initialBackoffMs as real, 1.0 + Span(p), MostFirst(p), GeometricSum(p.multiplier, n - 1),
                  GeometricSum(p.multiplier, n), Pow(p.multiplier, n - 1), BaseMs(p, n));
    }
  }

  /** `initial * (1 + jitter)`: the most a first backoff can be before rounding. */
  function MostFirst(p: RetryPolicy): real {
    Times(p.initialBackoffMs as real, 1.0 + Span(p))
  }

  /** In closed form: `(m-1)(total - n/2) <= initial(1+j)(m^n - 1)`. */
  lemma SleepAtMostGeometric(p: RetryPolicy, draws: nat -> Fraction, n: nat)
    requires Validated(p)
    ensures Times(p.multiplier - 1.0, SleepTotal(p, draws, n) as real - n as real / 2.0) <=
            Times(MostFirst(p), Pow(p.multiplier, n) - 1.0)
  {
    var g := GeometricSum(p.multiplier, n);
    SleepAtMostSum(p, draws, n);
    GeometricClosedForm(p.multiplier, n, g);
    ScaleSumDown(MostFirst(p), p.multiplier - 1.0, g, Pow(p.multiplier, n) - 1.0,
                 SleepTotal(p, draws, n) as real - n as real / 2.0);
  }

  lemma ScaleSumDown(a: real, d: real, g: real, grown: real, total: real)
    requires d > 0.0 && Times(d, g) == grown && total <= Times(a, g)
    ensures Times(d, total) <= Times(a, grown)
  {
    MulMono(total, Times(a, g), d);
    assert a * (d * g) == d * (a * g);
  }

  lemma {:induction false} Bernoulli(m: real, n: nat)
    requires m > 1.0
    ensures Pow(m, n) >= 1.0 + n as real * (m - 1.0)
  {
    if n > 0 {
      var d, k := m - 1.0, (n - 1) as real;
      Bernoulli(m, n - 1);
      MulMono(1.0 + k * d, Pow(m, n - 1), m);
      assert (1.0 + k * d) * m == 1.0 + (k + 1.0) * d + k * (d * d);
      MulMono(0.0, k, d * d);
    }
  }

  function Triangle(x: real): real {
    x * (x - 1.0) / 2.0
  }

  lemma {:induction false} SumQuadratic(m: real, n: nat)
    requires m > 1.0
    ensures GeometricSum(m, n) >= n as real + Times(m - 1.0, Triangle(n as real))
  {
    if n > 0 {
      var d, k := m - 1.0, (n - 1) as real;
      SumQuadratic(m, n - 1);
      Bernoulli(m, n - 1);
      assert (k + 1.0) * k / 2.0 == k * (k - 1.0) / 2.0 + k;
      assert d * ((k + 1.0) * k / 2.0) == d * (k * (k - 1.0) / 2.0) + d * k;
      assert n as real == k + 1.0;
    }
  }

  /**
   With a growing backoff that cannot jitter down to nothing, n sleeps fit in the budget only if
   n is at most `1 + 1/(a(m-1))` or at most `budget/a`, where a is the least first backoff:
   a bound that does not mention `max_attempts`.
   */
  lemma BudgetBoundsSleeps(p: RetryPolicy, draws: nat -> Fraction, n: nat)
    requires Validated(p) && p.jitterPct < 100.0 && p.initialBackoffMs > 0
    requires SleepTotal(p, draws, n) <= p.totalBudgetMs
    ensures LeastFirst(p) > 0.0
    ensures Times(Times(LeastFirst(p), p.multiplier - 1.0), n as real - 1.0) < 1.0 ||
            Times(LeastFirst(p), n as real) <= p.totalBudgetMs as real
  {
    PositiveProduct(p.initialBackoffMs as real, 1.0 - Span(p));
    SleepAtLeastSum(p, draws, n);
    SumQuadratic(p.multiplier, n);
    BoundFromSum(LeastFirst(p), p.multiplier - 1.0, n as real, GeometricSum(p.multiplier, n), p.totalBudgetMs as real);
  }

  lemma BoundFromSum(a: real, d: real, x: real, g: real, budget: real)
    requires a > 0.0 && x >= 0.0 && Times(a, g) - x / 2.0 <= budget
    requires g >= x + Times(d, Triangle(x))
    ensures Times(Times(a, d), x - 1.0) < 1.0 || Times(a, x) <= budget
  {
    if a * d * (x - 1.0) >= 1.0 {
      QuadraticBeatsHalf(a, d, x, g);
    }
  }

  lemma QuadraticBeatsHalf(a: real, d: real, x: real, g: real)
    requires a > 0.0 && x >= 0.0 && a * d * (x - 1.0) >= 1.0
    requires g >= x + d * (x * (x - 1.0) / 2.0)
    ensures a * g - x / 2.0 >= a * x
  {
    var q := x + d * (x * (x - 1.0) / 2.0);
    MulMono(q, g, a);
    Rearrange(a, d, x);
    MulMono(1.0, a * d * (x - 1.0), x / 2.0);
  }

  lemma Rearrange(a: real, d: real, x: real)
    ensures a * (x + d * (x * (x - 1.0) / 2.0)) == a * x + (a * d * (x - 1.0)) * (x / 2.0)
  {
    assert x * (x - 1.0) / 2.0 == (x - 1.0) * (x / 2.0);
    assert d * ((x - 1.0) * (x / 2.0)) == d * (x - 1.0) * (x / 2.0);
  }

  lemma PositiveProduct(a: real, b: real)
    requires a > 0.0 && b > 0.0
    ensures Times(a, b) > 0.0
  {
  }

  lemma SleepsFit(p: RetryPolicy, calls: nat -> CallResult, draws: nat -> Fraction, sleeps: nat)
    requires Outcome(p, calls, draws).attempts == sleeps + 1
    ensures SleepTotal(p, draws, sleeps) <= p.totalBudgetMs
  {
    OutcomeIs(p, calls, draws);
    if sleeps > 0 {
      assert GoesOn(p, calls, draws, sleeps);
    }
  }

  /** The same bound on the attempts of any run of the loop. */
  lemma BudgetBoundsAttempts(p: RetryPolicy, calls: nat -> CallResult, draws: nat -> Fraction)
    requires Validated(p) && p.jitterPct < 100.0 && p.initialBackoffMs > 0
    ensures var sleeps := Outcome(p, calls, draws).attempts - 1;
            Times(Times(LeastFirst(p), p.multiplier - 1.0), sleeps as real - 1.0) < 1.0 ||
            Times(LeastFirst(p), sleeps as real) <= p.totalBudgetMs as real
  {
    OutcomeIs(p, calls, draws);
    var sleeps := Outcome(p, calls, draws).attempts - 1;
    SleepsFit(p, calls, draws, sleeps);
    BudgetBoundsSleeps(p, draws, sleeps);
  }

  /**
   Without jitter, after a first eligible failure: there is a second attempt exactly if the policy
   allows two and the configured initial backoff fits in the budget.
   */
  lemma SecondAttemptIff(p: RetryPolicy, calls: nat -> CallResult, draws: nat -> Fraction)
    requires p.jitterPct == 0.0 && calls(1).Err? && Eligible(calls(1).error, p.retryOn)
    ensures Outcome(p, calls, draws).attempts >= 2 <==> p.maxAttempts >= 2 && p.initialBackoffMs <= p.totalBudgetMs
  {
    var o := Outcome(p, calls, draws);
    OutcomeIs(p, calls, draws);
    FirstBackoffIsInitial(p, draws(1));
    assert SleepTotal(p, draws, 1) == SleepTotal(p, draws, 0) + Backoff(p, 1, draws(1));
    assert o.attempts >= 2 ==> GoesOn(p, calls, draws, 1);
  }
}
