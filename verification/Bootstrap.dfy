/** Quantiles of a sorted list by linear interpolation, and the bootstrap interval built on them. */
module Bootstrap {
  import opened Prelude

  predicate Sorted(xs: seq<real>) {
    forall i, j :: 0 <= i <= j < |xs| ==> xs[i] <= xs[j]
  }

  function Ceiling(t: real): int {
    if t.Floor as real == t then t.Floor else t.Floor + 1
  }

  /** The value at a fractional position between the first and the last index. */
  function Interpolate(xs: seq<real>, t: real): real
    requires xs != [] && 0.0 <= t <= (|xs| - 1) as real
  {
    var lower, upper := t.Floor, Ceiling(t);
    if lower == upper then xs[lower]
    else
      var fraction := t - lower as real;
      xs[lower] * (1.0 - fraction) + xs[upper] * fraction
  }

  function Quantile(xs: seq<real>, probability: real): real
    requires xs != [] && 0.0 <= probability <= 1.0
  {
    PositionInRange(|xs|, probability);
    Interpolate(xs, (|xs| - 1) as real * probability)
  }

  lemma PositionInRange(n: nat, p: real)
    requires n > 0 && 0.0 <= p <= 1.0
    ensures 0.0 <= (n - 1) as real * p <= (n - 1) as real
  {
    var m := (n - 1) as real;
    assert m * p >= 0.0 && m * (1.0 - p) >= 0.0;
  }

  /** A mixture of two ordered values grows with its weight and stays between them. */
  lemma Mixture(a: real, b: real, f: real, g: real)
    requires a <= b && 0.0 <= f <= g <= 1.0
    ensures a <= a * (1.0 - f) + b * f <= a * (1.0 - g) + b * g <= b
  {
    MixtureIs(a, b, f);
    MixtureIs(a, b, g);
    ScaleUp(b - a, 0.0, f);
    ScaleUp(b - a, f, g);
    ScaleUp(b - a, g, 1.0);
  }

  lemma MixtureIs(a: real, b: real, f: real)
    ensures a * (1.0 - f) + b * f == a + (b - a) * f
  {
  }

  lemma InterpolateBetween(xs: seq<real>, t: real)
    requires Sorted(xs) && xs != [] && 0.0 <= t <= (|xs| - 1) as real
    ensures xs[t.Floor] <= Interpolate(xs, t) <= xs[Ceiling(t)]
  {
    if t.Floor != Ceiling(t) {
      Mixture(xs[t.Floor], xs[Ceiling(t)], t - t.Floor as real, t - t.Floor as real);
    }
  }

  lemma InterpolateMonotone(xs: seq<real>, t: real, u: real)
    requires Sorted(xs) && xs != [] && 0.0 <= t <= u <= (|xs| - 1) as real
    ensures Interpolate(xs, t) <= Interpolate(xs, u)
  {
    InterpolateBetween(xs, t);
    InterpolateBetween(xs, u);
    if t.Floor == u.Floor && Ceiling(t) != t.Floor {
      Mixture(xs[t.Floor], xs[Ceiling(t)], t - t.Floor as real, u - u.Floor as real);
    } else if t.Floor != u.Floor {
      assert Ceiling(t) <= u.Floor;
    }
  }

  lemma PositionsOrdered(n: nat, p: real, q: real)
    requires n > 0 && 0.0 <= p <= q <= 1.0
    ensures 0.0 <= (n - 1) as real * p <= (n - 1) as real * q <= (n - 1) as real
  {
    PositionInRange(n, p);
    PositionInRange(n, q);
    ScaleUp((n - 1) as real, p, q);
  }

  lemma ScaleUp(m: real, p: real, q: real)
    requires m >= 0.0 && p <= q
    ensures m * p <= m * q
  {
    assert m * (q - p) >= 0.0;
  }

  /** On a sorted list the quantile grows with the probability and stays between the ends. */
  lemma QuantileMonotone(xs: seq<real>, p: real, q: real)
    requires Sorted(xs) && xs != [] && 0.0 <= p <= q <= 1.0
    ensures xs[0] <= Quantile(xs, p) <= Quantile(xs, q) <= xs[|xs| - 1]
  {
    PositionsOrdered(|xs|, p, q);
    PositionsCompared(xs, (|xs| - 1) as real * p, (|xs| - 1) as real * q);
  }

  lemma PositionsCompared(xs: seq<real>, t: real, u: real)
    requires Sorted(xs) && xs != [] && 0.0 <= t <= u <= (|xs| - 1) as real
    ensures xs[0] <= Interpolate(xs, t) <= Interpolate(xs, u) <= xs[|xs| - 1]
  {
    InterpolateMonotone(xs, t, u);
    InterpolateBetween(xs, t);
    InterpolateBetween(xs, u);
  }

  // ---------------------------------------------------------------- the bootstrap

  datatype Interval = Interval(estimate: real, lower: real, upper: real)

  datatype Answer = NoValues | NoIterations | BadLevel | Computed(interval: Interval)

  function Resample(source: seq<real>, pick: nat -> nat): seq<real>
    requires source != []
  {
    seq(|source|, i requires 0 <= i < |source| => source[pick(i) % |source|])
  }

  function Mean(xs: seq<real>): real
    requires xs != []
  {
    Sum(xs) / (|xs| as real)
  }

  lemma Inserted(ys: seq<real>, k: nat, x: real)
    requires k <= |ys|
    ensures multiset(ys[..k] + [x] + ys[k..]) == multiset(ys) + multiset{x}
  {
    assert ys == ys[..k] + ys[k..];
  }

  method InsertSorted(ys: seq<real>, x: real) returns (zs: seq<real>)
    requires Sorted(ys)
    ensures Sorted(zs) && |zs| == |ys| + 1
    ensures multiset(zs) == multiset(ys) + multiset{x}
  {
    var k := |ys|;
    while k > 0 && ys[k - 1] > x
      invariant 0 <= k <= |ys|
      invariant k < |ys| ==> ys[k] > x
    {
      k := k - 1;
    }
    zs := ys[..k] + [x] + ys[k..];
    SortedWith(ys, k, x);
    Inserted(ys, k, x);
  }

  lemma SortedWith(ys: seq<real>, k: nat, x: real)
    requires Sorted(ys) && k <= |ys| && (k < |ys| ==> ys[k] > x) && (k > 0 ==> ys[k - 1] <= x)
    ensures Sorted(ys[..k] + [x] + ys[k..])
  {
    var zs := ys[..k] + [x] + ys[k..];
    forall i, j | 0 <= i <= j < |zs| ensures zs[i] <= zs[j] {
      assert i < k ==> zs[i] == ys[i] <= ys[k - 1];
      assert j > k ==> zs[j] == ys[j - 1] >= ys[k];
      assert i > k ==> zs[i] == ys[i - 1];
    }
  }

  /** The statistics of the first n resamples, in the order they are drawn. */
  function Statistics(values: seq<real>, statistic: seq<real> -> real, pick: nat -> nat -> nat, n: nat): seq<real>
    requires values != []
  {
    if n == 0 then []
    else Statistics(values, statistic, pick, n - 1) + [statistic(Resample(values, pick(n - 1)))]
  }

  method Estimate(values: seq<real>, statistic: seq<real> -> real, iterations: nat, pick: nat -> nat -> nat)
    returns (estimates: seq<real>)
    requires values != []
    ensures Sorted(estimates) && |estimates| == iterations
    ensures multiset(estimates) == multiset(Statistics(values, statistic, pick, iterations))
  {
    estimates := [];
    for k := 0 to iterations
      invariant Sorted(estimates) && |estimates| == k
      invariant multiset(estimates) == multiset(Statistics(values, statistic, pick, k))
    {
      estimates := InsertSorted(estimates, statistic(Resample(values, pick(k))));
    }
  }

  /** `pick(k)` is the k-th resample's sequence of random choices. */
  method ConfidenceInterval(values: seq<real>, statistic: seq<real> -> real, iterations: nat, level: real,
                            pick: nat -> nat -> nat)
    returns (answer: Answer)
    ensures values == [] ==> answer == NoValues
    ensures values != [] && iterations < 1 ==> answer == NoIterations
    ensures values != [] && iterations >= 1 && !(0.0 < level < 1.0) ==> answer == BadLevel
    ensures answer.Computed? <==> values != [] && iterations >= 1 && 0.0 < level < 1.0
    ensures answer.Computed? ==> answer.interval.estimate == statistic(values)
    ensures answer.Computed? ==> exists estimates ::
              && Sorted(estimates)
              && multiset(estimates) == multiset(Statistics(values, statistic, pick, iterations))
              && answer.interval.lower == Quantile(estimates, (1.0 - level) / 2.0)
              && answer.interval.upper == Quantile(estimates, 1.0 - (1.0 - level) / 2.0)
    ensures answer.Computed? ==> answer.interval.lower <= answer.interval.upper
  {
    if values == [] {
      return NoValues;
    }
    if iterations < 1 {
      return NoIterations;
    }
    if !(0.0 < level < 1.0) {
      return BadLevel;
    }
    var estimates := Estimate(values, statistic, iterations, pick);
    var alpha := 1.0 - level;
    QuantileMonotone(estimates, alpha / 2.0, 1.0 - alpha / 2.0);
    answer := Computed(Interval(statistic(values), Quantile(estimates, alpha / 2.0), Quantile(estimates, 1.0 - alpha / 2.0)));
  }

  predicate Within(xs: seq<real>, low: real, high: real) {
    forall x :: x in xs ==> low <= x <= high
  }

  lemma {:induction false} SumWithin(xs: seq<real>, low: real, high: real)
    requires Within(xs, low, high)
    ensures (|xs| as real) * low <= Sum(xs) <= (|xs| as real) * high
  {
    if xs != [] {
      var n := |xs| - 1;
      assert Within(xs[..n], low, high) by {
        assert forall x :: x in xs[..n] ==> x in xs;
      }
      SumWithin(xs[..n], low, high);
      assert (|xs| as real) * low == (n as real) * low + low;
      assert (|xs| as real) * high == (n as real) * high + high;
      assert xs[n] in xs;
    }
  }

  lemma MeanWithin(xs: seq<real>, low: real, high: real)
    requires xs != [] && Within(xs, low, high)
    ensures low <= Mean(xs) <= high
  {
    SumWithin(xs, low, high);
    DivideBetween(low, Sum(xs), high, |xs| as real);
  }

  lemma DivideBetween(low: real, sum: real, high: real, n: real)
    requires n > 0.0 && n * low <= sum <= n * high
    ensures low <= sum / n <= high
  {
    assert (n * low) / n == low && (n * high) / n == high;
    assert (sum - n * low) / n >= 0.0 && (n * high - sum) / n >= 0.0;
  }

  /** Every statistic lies in the range of the data, when the statistic is the mean. */
  lemma {:induction false} StatisticsWithin(values: seq<real>, statistic: seq<real> -> real, pick: nat -> nat -> nat,
                                            n: nat, low: real, high: real)
    requires values != [] && Within(values, low, high)
    requires forall xs :: xs != [] ==> statistic(xs) == Mean(xs)
    ensures Within(Statistics(values, statistic, pick, n), low, high)
  {
    if n > 0 {
      StatisticsWithin(values, statistic, pick, n - 1, low, high);
      var resample := Resample(values, pick(n - 1));
      assert forall y :: y in resample ==> y in values;
      MeanWithin(resample, low, high);
    }
  }

  /** With the mean as statistic, no end of the interval leaves the range of the data. */
  lemma MeanIntervalWithin(values: seq<real>, estimates: seq<real>, statistic: seq<real> -> real,
                           pick: nat -> nat -> nat, n: nat, low: real, high: real, p: real)
    requires values != [] && Within(values, low, high)
    requires Sorted(estimates) && estimates != [] && 0.0 <= p <= 1.0
    requires forall xs :: xs != [] ==> statistic(xs) == Mean(xs)
    requires multiset(estimates) == multiset(Statistics(values, statistic, pick, n))
    ensures low <= Quantile(estimates, p) <= high
  {
    StatisticsWithin(values, statistic, pick, n, low, high);
    SameRange(estimates, Statistics(values, statistic, pick, n), low, high);
    QuantileWithin(estimates, p, low, high);
  }

  lemma SameRange(xs: seq<real>, ys: seq<real>, low: real, high: real)
    requires multiset(xs) == multiset(ys) && Within(ys, low, high)
    ensures Within(xs, low, high)
  {
    forall x | x in xs ensures low <= x <= high {
      assert x in multiset(xs) && x in multiset(ys);
      assert x in ys;
    }
  }

  lemma QuantileWithin(xs: seq<real>, p: real, low: real, high: real)
    requires Sorted(xs) && xs != [] && Within(xs, low, high) && 0.0 <= p <= 1.0
    ensures low <= Quantile(xs, p) <= high
  {
    QuantileMonotone(xs, p, p);
    assert xs[0] in xs && xs[|xs| - 1] in xs;
  }

  // ---------------------------------------------------------------- what is computed

  /** Between two neighbours the value moves in proportion to the position. */
  lemma InterpolateIsLinear(xs: seq<real>, t: real, k: nat)
    requires k + 1 < |xs| && k as real <= t <= (k + 1) as real
    ensures Interpolate(xs, t) == xs[k] + (t - k as real) * (xs[k + 1] - xs[k])
  {
    if t == (k + 1) as real {
      assert t.Floor == k + 1;
    } else {
      assert t.Floor == k;
      if t != k as real {
        MixtureIs(xs[k], xs[k + 1], t - k as real);
      }
    }
  }

  /**
   The quantile of n sorted values: the position is the probability's share of the way from the first to the last, and
   the value is linear between neighbours. So the ends are the first and last value, and half way in an odd number of
   values is the middle one.
   */
  lemma QuantileIs(xs: seq<real>, probability: real, k: nat)
    requires k + 1 < |xs| && 0.0 <= probability <= 1.0
    requires k as real <= (|xs| - 1) as real * probability <= (k + 1) as real
    ensures Quantile(xs, probability) == xs[k] + ((|xs| - 1) as real * probability - k as real) * (xs[k + 1] - xs[k])
  {
    InterpolateIsLinear(xs, (|xs| - 1) as real * probability, k);
  }

  lemma QuantileEnds(xs: seq<real>)
    requires xs != []
    ensures Quantile(xs, 0.0) == xs[0] && Quantile(xs, 1.0) == xs[|xs| - 1]
  {
  }

  lemma QuantileMedian(xs: seq<real>, k: nat)
    requires |xs| == 2 * k + 1
    ensures Quantile(xs, 0.5) == xs[k]
  {
    assert (2 * k) as real * 0.5 == k as real;
  }

  /** Every resample draws as many values as there are, each from the data. */
  lemma ResampleDraws(source: seq<real>, pick: nat -> nat)
    requires source != []
    ensures |Resample(source, pick)| == |source|
    ensures forall x :: x in Resample(source, pick) ==> x in source
  {
  }

  /** And every such list is drawn by some choices. */
  lemma ResampleReaches(source: seq<real>, target: seq<real>, pick: nat -> nat)
    requires source != [] && |target| == |source|
    requires forall i :: 0 <= i < |target| ==> pick(i) < |source| && source[pick(i)] == target[i]
    ensures Resample(source, pick) == target
  {
  }

  lemma {:induction false} StatisticsAre(values: seq<real>, statistic: seq<real> -> real, pick: nat -> nat -> nat, n: nat)
    requires values != []
    ensures var s := Statistics(values, statistic, pick, n);
            && |s| == n
            && forall k :: 0 <= k < n ==> s[k] == statistic(Resample(values, pick(k)))
  {
    if n > 0 {
      StatisticsAre(values, statistic, pick, n - 1);
    }
  }

  function Deviations(xs: seq<real>, from: real): seq<real> {
    seq(|xs|, i requires 0 <= i < |xs| => xs[i] - from)
  }

  lemma {:induction false} DeviationsSum(xs: seq<real>, from: real)
    ensures Sum(Deviations(xs, from)) == Sum(xs) - (|xs| as real) * from
  {
    if xs == [] {
      assert Deviations(xs, from) == [];
    } else {
      var n := |xs| - 1;
      DeviationsSum(xs[..n], from);
      assert Deviations(xs, from)[..n] == Deviations(xs[..n], from);
      assert (|xs| as real) * from == (n as real) * from + from;
    }
  }

  /** The mean is where the deviations balance. */
  lemma MeanBalances(xs: seq<real>)
    requires xs != []
    ensures Sum(Deviations(xs, Mean(xs))) == 0.0
  {
    DeviationsSum(xs, Mean(xs));
    assert (|xs| as real) * (Sum(xs) / (|xs| as real)) == Sum(xs);
  }
}
