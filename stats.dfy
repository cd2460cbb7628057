/**
 * Estimator statistics (`include/stats.hpp`): the Monte Carlo result record,
 * its confidence interval and significance test, sample moments, the
 * percentile that sorts its argument in place, value at risk, expected
 * shortfall and the path-weighted merge of several results.
 */
module Stats {
  import opened Numerics

  /** `MCResult`: every field defaults to zero. */
  datatype MCResult = MCResult(price: real, stdError: real, delta: real, deltaSe: real,
                               vega: real, vegaSe: real, gamma: real, gammaSe: real,
                               theta: real, thetaSe: real,
                               numPaths: int, numSteps: int, seed: nat)

  const DefaultResult: MCResult := MCResult(0.0, 0.0, 0.0, 0.0, 0.0, 0.0, 0.0, 0.0, 0.0, 0.0, 0, 0, 0)

  // ---------------------------------------------------------------------
  // Confidence interval and significance
  // ---------------------------------------------------------------------

  /** The normal quantile used for a two-sided interval: 2.576 at 0.99, 1.645 at 0.90, 1.96 otherwise. */
  function IntervalZ(level: real): (z: real)
    ensures level == 0.99 ==> z == 2.576
    ensures level == 0.90 ==> z == 1.645
    ensures level != 0.99 && level != 0.90 ==> z == 1.96
  {
    if level == 0.99 then 2.576 else if level == 0.90 then 1.645 else 1.96
  }

  /** `confidence_interval`: symmetric about the price, with half-width z times the standard error. */
  function ConfidenceInterval(r: MCResult, level: real): (ci: (real, real))
    ensures r.price - ci.0 == ci.1 - r.price == IntervalZ(level) * r.stdError
    ensures 0.0 <= r.stdError ==> ci.0 <= r.price <= ci.1
  {
    var margin := IntervalZ(level) * r.stdError;
    (r.price - margin, r.price + margin)
  }

  /** A 99% interval contains the 95% one, which contains the 90% one. */
  lemma IntervalsNest(r: MCResult)
    requires 0.0 <= r.stdError
    ensures ConfidenceInterval(r, 0.99).0 <= ConfidenceInterval(r, 0.95).0 <= ConfidenceInterval(r, 0.90).0
    ensures ConfidenceInterval(r, 0.90).1 <= ConfidenceInterval(r, 0.95).1 <= ConfidenceInterval(r, 0.99).1
  {
    ScaleMonotone(1.645, 1.96, r.stdError);
    ScaleMonotone(1.96, 2.576, r.stdError);
  }

  lemma ScaleMonotone(a: real, b: real, x: real)
    requires a <= b && 0.0 <= x
    ensures a * x <= b * x
    ensures x * a <= x * b
  {}

  /** The critical value of the test: 1.96 at 0.05, 2.576 at 0.01, 1.645 otherwise. */
  function CriticalValue(level: real): (z: real)
    ensures level == 0.05 ==> z == 1.96
    ensures level == 0.01 ==> z == 2.576
    ensures level != 0.05 && level != 0.01 ==> z == 1.645
  {
    if level == 0.05 then 1.96 else if level == 0.01 then 2.576 else 1.645
  }

  /** `is_significant`: never without a positive standard error; otherwise |price / se| beats the critical value. */
  function IsSignificant(r: MCResult, level: real): (b: bool)
    ensures r.stdError <= 0.0 ==> !b
    ensures b ==> 1.645 * r.stdError < Abs(r.price)
  {
    if r.stdError <= 0.0 then false
    else
      QuotientExceeds(r.price, r.stdError, 1.645);
      Abs(r.price / r.stdError) > CriticalValue(level)
  }

  /** A quotient by a positive divisor that beats `c` means the dividend beats `c` times the divisor. */
  lemma QuotientExceeds(p: real, s: real, c: real)
    requires 0.0 < s
    ensures c < Abs(p / s) ==> c * s < Abs(p)
  {
    assert Abs(p / s) * s == Abs(p);
    if c < Abs(p / s) {
      assert c * s < Abs(p / s) * s;
    }
  }

  /** Significance at the 1% level implies significance at every other level. */
  lemma SignificanceWeakens(r: MCResult, level: real)
    requires IsSignificant(r, 0.01)
    ensures IsSignificant(r, level)
  {}

  // ---------------------------------------------------------------------
  // Sample moments
  // ---------------------------------------------------------------------

  /** `mean`: 0 for no samples, otherwise the sum over the count. */
  function Mean(x: seq<real>): (mu: real)
    ensures x == [] ==> mu == 0.0
    ensures x != [] ==> mu * |x| as real == Sum(x)
  {
    if x == [] then 0.0 else Sum(x) / |x| as real
  }

  /** Every element between `lo` and `hi` bounds the sum by the count times each. */
  lemma {:induction false} SumBounds(x: seq<real>, lo: real, hi: real)
    requires forall i :: 0 <= i < |x| ==> lo <= x[i] <= hi
    ensures |x| as real * lo <= Sum(x) <= |x| as real * hi
  {
    if x != [] {
      SumBounds(x[..|x| - 1], lo, hi);
    }
  }

  /** The mean of samples in [lo, hi] lies in [lo, hi]. */
  lemma MeanBetween(x: seq<real>, lo: real, hi: real)
    requires x != []
    requires forall i :: 0 <= i < |x| ==> lo <= x[i] <= hi
    ensures lo <= Mean(x) <= hi
  {
    SumBounds(x, lo, hi);
    DivideBounds(Sum(x), |x| as real, lo, hi);
  }

  lemma DivideBounds(s: real, n: real, lo: real, hi: real)
    requires 0.0 < n && n * lo <= s <= n * hi
    ensures lo <= s / n <= hi
  {
    assert s / n * n == s;
  }

  /** The sum of squared deviations from `mu`, accumulated left to right. */
  function SumSqDev(x: seq<real>, mu: real): real
  {
    if x == [] then 0.0 else SumSqDev(x[..|x| - 1], mu) + (x[|x| - 1] - mu) * (x[|x| - 1] - mu)
  }

  lemma {:induction false} SumSqDevNonNegative(x: seq<real>, mu: real)
    ensures 0.0 <= SumSqDev(x, mu)
  {
    if x != [] {
      SumSqDevNonNegative(x[..|x| - 1], mu);
      SquareNonNegative(x[|x| - 1] - mu);
    }
  }

  lemma SquareNonNegative(d: real)
    ensures 0.0 <= d * d
  {}

  /** Sample variance with Bessel's correction; 0 below two samples. */
  function VarianceOf(x: seq<real>): (v: real)
    ensures 0.0 <= v
    ensures |x| < 2 ==> v == 0.0
  {
    if |x| < 2 then 0.0
    else
      SumSqDevNonNegative(x, Mean(x));
      SumSqDev(x, Mean(x)) / (|x| - 1) as real
  }

  /** `variance`: the accumulator loop over squared deviations from the mean. */
  method Variance(x: seq<real>) returns (v: real)
    ensures v == VarianceOf(x)
  {
    if |x| < 2 {
      return 0.0;
    }
    var mu := Mean(x);
    var sumSqDiff := 0.0;
    var i := 0;
    while i < |x|
      invariant 0 <= i <= |x|
      invariant sumSqDiff == SumSqDev(x[..i], mu)
    {
      var diff := x[i] - mu;
      assert x[..i + 1][..i] == x[..i];
      sumSqDiff := sumSqDiff + diff * diff;
      i := i + 1;
    }
    assert x[..i] == x;
    v := sumSqDiff / (|x| - 1) as real;
  }

  /** Equal samples have zero variance. */
  lemma VarianceOfConstant(x: seq<real>, c: real)
    requires forall i :: 0 <= i < |x| ==> x[i] == c
    ensures VarianceOf(x) == 0.0
  {
    if 2 <= |x| {
      MeanBetween(x, c, c);
      SumSqDevAtConstant(x, c);
    }
  }

  lemma {:induction false} SumSqDevAtConstant(x: seq<real>, c: real)
    requires forall i :: 0 <= i < |x| ==> x[i] == c
    ensures SumSqDev(x, c) == 0.0
  {
    if x != [] {
      SumSqDevAtConstant(x[..|x| - 1], c);
    }
  }

  /** `standard_deviation`: the square root of the variance. */
  function StandardDeviation(m: Math, x: seq<real>): (sd: real)
    ensures 0.0 <= sd
    ensures |x| < 2 ==> sd == 0.0
  {
    m.sqrt(VarianceOf(x))
  }

  /** `standard_error`: 0 below two samples, otherwise the deviation over the root of the count. */
  function StandardError(m: Math, x: seq<real>): (se: real)
    ensures 0.0 <= se
    ensures |x| < 2 ==> se == 0.0
  {
    if |x| < 2 then 0.0
    else
      var root := m.sqrt(|x| as real);
      StandardDeviation(m, x) / root
  }

  /** The sum of cross products of deviations, accumulated left to right. */
  function SumCrossDev(x: seq<real>, y: seq<real>, mx: real, my: real): real
    requires |x| == |y|
  {
    if x == [] then 0.0
    else SumCrossDev(x[..|x| - 1], y[..|y| - 1], mx, my) + (x[|x| - 1] - mx) * (y[|y| - 1] - my)
  }

  /** Sample covariance; 0 when the sizes differ or there are fewer than two pairs. */
  function CovarianceOf(x: seq<real>, y: seq<real>): (c: real)
    ensures |x| != |y| || |x| < 2 ==> c == 0.0
  {
    if |x| != |y| || |x| < 2 then 0.0
    else SumCrossDev(x, y, Mean(x), Mean(y)) / (|x| - 1) as real
  }

  /** `covariance`: the accumulator loop over cross products. */
  method Covariance(x: seq<real>, y: seq<real>) returns (c: real)
    ensures c == CovarianceOf(x, y)
  {
    if |x| != |y| || |x| < 2 {
      return 0.0;
    }
    var meanX := Mean(x);
    var meanY := Mean(y);
    var sumCov := 0.0;
    var i := 0;
    while i < |x|
      invariant 0 <= i <= |x|
      invariant sumCov == SumCrossDev(x[..i], y[..i], meanX, meanY)
    {
      assert x[..i + 1][..i] == x[..i];
      assert y[..i + 1][..i] == y[..i];
      sumCov := sumCov + (x[i] - meanX) * (y[i] - meanY);
      i := i + 1;
    }
    assert x[..i] == x && y[..i] == y;
    c := sumCov / (|x| - 1) as real;
  }

  lemma {:induction false} SumCrossDevSymmetric(x: seq<real>, y: seq<real>, mx: real, my: real)
    requires |x| == |y|
    ensures SumCrossDev(x, y, mx, my) == SumCrossDev(y, x, my, mx)
  {
    if x != [] {
      SumCrossDevSymmetric(x[..|x| - 1], y[..|y| - 1], mx, my);
    }
  }

  lemma {:induction false} SumCrossDevDiagonal(x: seq<real>, mu: real)
    ensures SumCrossDev(x, x, mu, mu) == SumSqDev(x, mu)
  {
    if x != [] {
      SumCrossDevDiagonal(x[..|x| - 1], mu);
    }
  }

  /** Covariance is symmetric, and the covariance of a sample with itself is its variance. */
  lemma CovarianceSymmetric(x: seq<real>, y: seq<real>)
    ensures CovarianceOf(x, y) == CovarianceOf(y, x)
    ensures CovarianceOf(x, x) == VarianceOf(x)
  {
    if |x| == |y| && 2 <= |x| {
      SumCrossDevSymmetric(x, y, Mean(x), Mean(y));
    }
    if 2 <= |x| {
      SumCrossDevDiagonal(x, Mean(x));
    }
  }

  /** `correlation`: 0 when either standard deviation is 0, else the normalised covariance. */
  function Correlation(m: Math, x: seq<real>, y: seq<real>): (rho: real)
    ensures StandardDeviation(m, x) == 0.0 || StandardDeviation(m, y) == 0.0 ==> rho == 0.0
    ensures |x| < 2 || |y| < 2 ==> rho == 0.0
  {
    var cov := CovarianceOf(x, y);
    var sx := StandardDeviation(m, x);
    var sy := StandardDeviation(m, y);
    if sx <= 0.0 || sy <= 0.0 then 0.0 else cov / (sx * sy)
  }

  lemma CorrelationSymmetric(m: Math, x: seq<real>, y: seq<real>)
    ensures Correlation(m, x, y) == Correlation(m, y, x)
  {
    CovarianceSymmetric(x, y);
    var sx := StandardDeviation(m, x);
    var sy := StandardDeviation(m, y);
    assert sx * sy == sy * sx;
  }

  // ---------------------------------------------------------------------
  // Percentile, value at risk and expected shortfall
  // ---------------------------------------------------------------------

  ghost predicate Sorted(s: seq<real>)
  {
    forall i, j :: 0 <= i < j < |s| ==> s[i] <= s[j]
  }

  /** `*std::min_element`: a smallest element. */
  function SeqMin(s: seq<real>): (r: real)
    requires s != []
    ensures r in s
    ensures forall i :: 0 <= i < |s| ==> r <= s[i]
  {
    if |s| == 1 then s[0] else Min(SeqMin(s[..|s| - 1]), s[|s| - 1])
  }

  /** `*std::max_element`: a largest element. */
  function SeqMax(s: seq<real>): (r: real)
    requires s != []
    ensures r in s
    ensures forall i :: 0 <= i < |s| ==> s[i] <= r
  {
    if |s| == 1 then s[0] else Max(SeqMax(s[..|s| - 1]), s[|s| - 1])
  }

  /** `std::sort` on a vector of doubles: ascending order, same elements. */
  method SortInPlace(a: array<real>)
    modifies a
    ensures Sorted(a[..])
    ensures multiset(a[..]) == multiset(old(a[..]))
  {
    var i := 0;
    while i < a.Length
      invariant 0 <= i <= a.Length
      invariant forall p, q :: 0 <= p < q < i ==> a[p] <= a[q]
      invariant multiset(a[..]) == multiset(old(a[..]))
    {
      InsertLast(a, i);
      i := i + 1;
    }
  }

  /** Moves `a[i]` down into the sorted prefix `a[..i]`, leaving `a[..i + 1]` sorted. */
  method InsertLast(a: array<real>, i: nat)
    requires i < a.Length
    requires forall p, q :: 0 <= p < q < i ==> a[p] <= a[q]
    modifies a
    ensures forall p, q :: 0 <= p < q <= i ==> a[p] <= a[q]
    ensures multiset(a[..]) == multiset(old(a[..]))
  {
    var j := i;
    while 0 < j && a[j] < a[j - 1]
      invariant 0 <= j <= i
      invariant forall p, q :: 0 <= p < q <= i && p != j && q != j ==> a[p] <= a[q]
      invariant forall p, q :: 0 <= p < j < q <= i ==> a[p] <= a[q]
      invariant forall q :: j < q <= i ==> a[j] <= a[q]
      invariant multiset(a[..]) == multiset(old(a[..]))
    {
      a[j - 1], a[j] := a[j], a[j - 1];
      j := j - 1;
    }
  }

  function Ceil(x: real): (n: int)
    ensures x <= n as real < x + 1.0
  {
    if x.Floor as real == x then x.Floor else x.Floor + 1
  }

  /** The fractional index `(p / 100) * (n - 1)` of the p-th percentile among n sorted samples. */
  function Rank(p: real, n: nat): (rank: real)
    requires 0.0 < p < 100.0 && 0 < n
    ensures 0.0 <= rank <= (n - 1) as real
    ensures 1 < n ==> rank < (n - 1) as real
    ensures n == 1 ==> rank == 0.0
  {
    ScaleBelow(p / 100.0, (n - 1) as real);
    (p / 100.0) * (n - 1) as real
  }

  /** `floor(rank)`, the lower neighbour of the percentile. */
  function LowerIndex(p: real, n: nat): (i: nat)
    requires 0.0 < p < 100.0 && 0 < n
    ensures i < n && i as real <= Rank(p, n)
  {
    Rank(p, n).Floor
  }

  /** `ceil(rank)`, the upper neighbour of the percentile. */
  function UpperIndex(p: real, n: nat): (i: nat)
    requires 0.0 < p < 100.0 && 0 < n
    ensures LowerIndex(p, n) <= i < n
    ensures i == LowerIndex(p, n) || Rank(p, n) - LowerIndex(p, n) as real <= 1.0
  {
    Ceil(Rank(p, n))
  }

  lemma ScaleBelow(w: real, d: real)
    requires 0.0 <= w < 1.0 && 0.0 <= d
    ensures 0.0 <= w * d <= d
    ensures 0.0 < d ==> w * d < d
    ensures d == 0.0 ==> w * d == 0.0
  {
    assert d - w * d == (1.0 - w) * d;
  }

  /** The interpolated percentile of an already sorted sample, for 0 < p < 100. */
  function PercentileOfSorted(s: seq<real>, p: real): real
    requires s != [] && 0.0 < p < 100.0
  {
    var lower := LowerIndex(p, |s|);
    var upper := UpperIndex(p, |s|);
    if lower == upper then s[lower]
    else
      Lerp(s[lower], s[upper], Rank(p, |s|) - lower as real)
  }

  /**
   * On sorted data the percentile is a convex combination of the elements at
   * floor(rank) and ceil(rank), hence between the smallest and largest sample.
   */
  lemma PercentileBetween(s: seq<real>, p: real)
    requires s != [] && 0.0 < p < 100.0 && Sorted(s)
    ensures s[0] <= PercentileOfSorted(s, p) <= s[|s| - 1]
  {
    assert s[0] <= s[LowerIndex(p, |s|)] <= s[UpperIndex(p, |s|)] <= s[|s| - 1];
    PercentileBetweenNeighbours(s, p);
  }

  /** The percentile lies between the samples at floor(rank) and ceil(rank). */
  lemma PercentileBetweenNeighbours(s: seq<real>, p: real)
    requires s != [] && 0.0 < p < 100.0
    requires s[LowerIndex(p, |s|)] <= s[UpperIndex(p, |s|)]
    ensures s[LowerIndex(p, |s|)] <= PercentileOfSorted(s, p) <= s[UpperIndex(p, |s|)]
  {
    var lower := LowerIndex(p, |s|);
    var upper := UpperIndex(p, |s|);
    if lower != upper {
      assert 0.0 <= Rank(p, |s|) - lower as real <= 1.0;
    }
  }

  /**
   * `percentile`: 0 on empty input, the minimum for p <= 0, the maximum for
   * p >= 100, and otherwise sorts `x` in place and interpolates between ranks.
   */
  method Percentile(x: array<real>, p: real) returns (r: real)
    modifies x
    ensures x.Length == 0 ==> r == 0.0
    ensures 0 < x.Length ==> SeqMin(old(x[..])) <= r <= SeqMax(old(x[..]))
    ensures 0 < x.Length && p <= 0.0 ==> r == SeqMin(old(x[..])) && x[..] == old(x[..])
    ensures 0 < x.Length && 100.0 <= p ==> r == SeqMax(old(x[..])) && x[..] == old(x[..])
    ensures 0 < x.Length && 0.0 < p < 100.0 ==>
      IsSortedPermutation(x[..], old(x[..])) && r == PercentileOfSorted(x[..], p)
  {
    if x.Length == 0 {
      return 0.0;
    }
    if p <= 0.0 {
      return SeqMin(x[..]);
    }
    if p >= 100.0 {
      return SeqMax(x[..]);
    }
    ghost var before := x[..];
    SortInPlace(x);
    r := PercentileOfSorted(x[..], p);
    SortedPermutationEnds(x[..], before);
    PercentileBetween(x[..], p);
  }

  /** A sorted rearrangement of `s` starts at its minimum and ends at its maximum. */
  lemma SortedPermutationEnds(t: seq<real>, s: seq<real>)
    requires s != [] && Sorted(t) && multiset(t) == multiset(s)
    ensures t != [] && t[0] == SeqMin(s) && t[|t| - 1] == SeqMax(s)
  {
    assert |t| == |multiset(t)| == |multiset(s)| == |s|;
    assert t[0] in multiset(s) && t[|t| - 1] in multiset(s);
    var lo := SeqMin(s);
    var hi := SeqMax(s);
    assert lo in multiset(t) && hi in multiset(t);
    var i :| 0 <= i < |t| && t[i] == lo;
    var k :| 0 <= k < |t| && t[k] == hi;
    assert t[0] <= t[i] && t[k] <= t[|t| - 1];
  }

  ghost predicate IsSortedPermutation(t: seq<real>, s: seq<real>)
  {
    |t| == |s| && Sorted(t) && multiset(t) == multiset(s)
  }

  /** Copies the samples into a fresh array and sorts it. */
  method SortedCopy(s: seq<real>) returns (a: array<real>)
    ensures fresh(a) && IsSortedPermutation(a[..], s)
  {
    a := Copy(s);
    SortInPlace(a);
  }

  /**
   * `value_at_risk`: minus the (1 - c) * 100 percentile of a sorted copy,
   * 0 on empty input; it lies between minus the largest and minus the
   * smallest P&L.
   */
  method ValueAtRisk(pnl: seq<real>, confidence: real) returns (v: real)
    ensures pnl == [] ==> v == 0.0
    ensures pnl != [] ==> -SeqMax(pnl) <= v <= -SeqMin(pnl)
    ensures pnl != [] && (1.0 - confidence) * 100.0 <= 0.0 ==> v == -SeqMin(pnl)
    ensures pnl != [] && 100.0 <= (1.0 - confidence) * 100.0 ==> v == -SeqMax(pnl)
    ensures pnl != [] && 0.0 < (1.0 - confidence) * 100.0 < 100.0 ==>
      exists t :: IsSortedPermutation(t, pnl) && v == -PercentileOfSorted(t, (1.0 - confidence) * 100.0)
  {
    if pnl == [] {
      return 0.0;
    }
    var r := PercentileOfCopy(pnl, (1.0 - confidence) * 100.0);
    v := -r;
  }

  /** The `level` percentile of a sorted copy of non-empty samples, the samples left untouched. */
  method PercentileOfCopy(s: seq<real>, level: real) returns (r: real)
    requires s != []
    ensures SeqMin(s) <= r <= SeqMax(s)
    ensures level <= 0.0 ==> r == SeqMin(s)
    ensures 100.0 <= level ==> r == SeqMax(s)
    ensures 0.0 < level < 100.0 ==> exists t :: IsSortedPermutation(t, s) && r == PercentileOfSorted(t, level)
  {
    var a := Copy(s);
    r := Percentile(a, level);
    ghost var sorted := a[..];
    assert 0.0 < level < 100.0 ==> IsSortedPermutation(sorted, s) && r == PercentileOfSorted(sorted, level);
  }

  method Copy(s: seq<real>) returns (a: array<real>)
    ensures fresh(a) && a[..] == s
  {
    a := new real[|s|](i requires 0 <= i < |s| => s[i]);
  }

  /** Minus the mean of the `k` smallest values of a sorted sample; minus the smallest when `k` is 0. */
  function ShortfallOfSorted(t: seq<real>, k: nat): real
    requires 0 < |t| && k <= |t|
  {
    if k == 0 then -t[0] else -(Sum(t[..k]) / k as real)
  }

  lemma ShortfallBetween(t: seq<real>, k: nat)
    requires 0 < |t| && k <= |t| && Sorted(t)
    ensures -t[|t| - 1] <= ShortfallOfSorted(t, k) <= -t[0]
  {
    if k > 0 {
      MeanBetween(t[..k], t[0], t[|t| - 1]);
    }
  }

  /**
   * The levels for which `static_cast<size_t>((1 - c) * n)` is defined and
   * stays inside the sample: the product truncated toward zero lies in
   * [0, n], so c ranges over (-1/n, 1 + 1/n), not only [0, 1].
   */
  predicate CutoffDefined(confidence: real, n: nat)
  {
    -1.0 < (1.0 - confidence) * n as real < n as real + 1.0
  }

  /**
   * `static_cast<size_t>((1 - c) * n)`: the number of tail samples averaged,
   * the product truncated toward zero. It is 0 whenever the product is below
   * 1 (which includes every level above 1), and n when the product reaches
   * n (which includes the levels just below 0).
   */
  function Cutoff(confidence: real, n: nat): (k: nat)
    requires CutoffDefined(confidence, n)
    ensures k <= n
    ensures 0.0 <= (1.0 - confidence) * n as real ==>
              k as real <= (1.0 - confidence) * n as real < k as real + 1.0
    ensures (1.0 - confidence) * n as real < 1.0 ==> k == 0
    ensures n as real <= (1.0 - confidence) * n as real ==> k == n
  {
    var x := (1.0 - confidence) * n as real;
    if x < 0.0 then 0 else x.Floor
  }

  /**
   * `expected_shortfall`: on a sorted copy, minus the mean of the
   * floor((1 - c) n) smallest values, or minus the smallest value when that
   * count is 0; 0 on empty input.
   */
  method ExpectedShortfall(pnl: seq<real>, confidence: real) returns (e: real)
    requires pnl != [] ==> CutoffDefined(confidence, |pnl|)
    ensures pnl == [] ==> e == 0.0
    ensures pnl != [] ==> -SeqMax(pnl) <= e <= -SeqMin(pnl)
    ensures pnl != [] ==>
      exists t :: IsSortedPermutation(t, pnl) && e == ShortfallOfSorted(t, Cutoff(confidence, |pnl|))
  {
    if pnl == [] {
      return 0.0;
    }
    var a := SortedCopy(pnl);
    var cutoff := Cutoff(confidence, a.Length);
    SortedPermutationEnds(a[..], pnl);
    ShortfallBetween(a[..], cutoff);
    if cutoff == 0 {
      return -a[0];
    }
    var sum := PrefixSum(a, cutoff);
    e := -sum / cutoff as real;
    assert a[..][..cutoff] == a[..cutoff];
    NegatedQuotient(sum, cutoff as real);
  }

  lemma NegatedQuotient(s: real, k: real)
    requires k != 0.0
    ensures -s / k == -(s / k)
  {}

  /** The accumulator loop over the `k` first entries. */
  method PrefixSum(a: array<real>, k: nat) returns (sum: real)
    requires k <= a.Length
    ensures sum == Sum(a[..k])
  {
    sum := 0.0;
    var i := 0;
    while i < k
      invariant 0 <= i <= k
      invariant sum == Sum(a[..i])
    {
      assert a[..i + 1][..i] == a[..i];
      sum := sum + a[i];
      i := i + 1;
    }
  }

  // ---------------------------------------------------------------------
  // Merging results
  // ---------------------------------------------------------------------

  /** The weight a result carries in the merge: its path count, or 0 when that is not positive. */
  function Weight(r: MCResult): nat
  {
    if r.numPaths <= 0 then 0 else r.numPaths
  }

  /** The total weight of the first `n` results. */
  function KeptPaths(rs: seq<MCResult>, n: nat): nat
    requires n <= |rs|
  {
    if n == 0 then 0 else KeptPaths(rs, n - 1) + Weight(rs[n - 1])
  }

  /** The path-weighted sum of the prices of the first `n` results. */
  function WeightedPriceSum(rs: seq<MCResult>, n: nat): real
    requires n <= |rs|
  {
    if n == 0 then 0.0 else WeightedPriceSum(rs, n - 1) + Weight(rs[n - 1]) as real * rs[n - 1].price
  }

  /** The path-weighted sum of the squared standard errors of the first `n` results. */
  function VarianceSum(rs: seq<MCResult>, n: nat): real
    requires n <= |rs|
  {
    if n == 0 then 0.0 else VarianceSum(rs, n - 1) + Weight(rs[n - 1]) as real * rs[n - 1].stdError * rs[n - 1].stdError
  }

  lemma {:induction false} VarianceSumNonNegative(rs: seq<MCResult>, n: nat)
    requires n <= |rs|
    ensures 0.0 <= VarianceSum(rs, n)
  {
    if n > 0 {
      VarianceSumNonNegative(rs, n - 1);
      WeightedSquareNonNegative(Weight(rs[n - 1]) as real, rs[n - 1].stdError);
    }
  }

  lemma WeightedSquareNonNegative(w: real, x: real)
    requires 0.0 <= w
    ensures 0.0 <= w * x * x
  {
    assert w * x * x == w * (x * x);
    SquareNonNegative(x);
  }

  /**
   * What `combine_mc_results` returns: the default result when nothing is
   * kept, otherwise the path-weighted mean price, the pooled standard error
   * sqrt(sum of n_i se_i^2) / N and the total path count N.
   */
  function Combined(m: Math, rs: seq<MCResult>): (c: MCResult)
    ensures c.numPaths == KeptPaths(rs, |rs|)
    ensures 0.0 <= c.stdError
  {
    var w := KeptPaths(rs, |rs|);
    if rs == [] || w == 0 then DefaultResult
    else
      VarianceSumNonNegative(rs, |rs|);
      var root := m.sqrt(VarianceSum(rs, |rs|));
      DefaultResult.(price := WeightedPriceSum(rs, |rs|) / w as real,
                     stdError := root / w as real,
                     numPaths := w)
  }

  /** `combine_mc_results`: one pass accumulating the kept weights, weighted prices and variances. */
  method CombineMcResults(m: Math, results: seq<MCResult>) returns (combined: MCResult)
    ensures combined == Combined(m, results)
  {
    if results == [] {
      return DefaultResult;
    }
    combined := DefaultResult;
    var totalWeight := 0;
    var weightedPriceSum := 0.0;
    var varianceSum := 0.0;
    var i := 0;
    while i < |results|
      invariant 0 <= i <= |results|
      invariant totalWeight == KeptPaths(results, i)
      invariant weightedPriceSum == WeightedPriceSum(results, i)
      invariant varianceSum == VarianceSum(results, i)
    {
      var r := results[i];
      if r.numPaths > 0 {
        var weight := r.numPaths;
        totalWeight := totalWeight + weight;
        weightedPriceSum := weightedPriceSum + weight as real * r.price;
        varianceSum := varianceSum + weight as real * r.stdError * r.stdError;
      }
      i := i + 1;
    }
    if totalWeight > 0 {
      var root := m.sqrt(varianceSum);
      combined := combined.(price := weightedPriceSum / totalWeight as real,
                            stdError := root / totalWeight as real,
                            numPaths := totalWeight);
    }
  }

  lemma {:induction false} AppendKeepsSums(rs: seq<MCResult>, r: MCResult, n: nat)
    requires n <= |rs|
    ensures KeptPaths(rs + [r], n) == KeptPaths(rs, n)
    ensures WeightedPriceSum(rs + [r], n) == WeightedPriceSum(rs, n)
    ensures VarianceSum(rs + [r], n) == VarianceSum(rs, n)
  {
    if n > 0 {
      AppendKeepsSums(rs, r, n - 1);
      assert (rs + [r])[n - 1] == rs[n - 1];
    }
  }

  /** Results with no positive path count are skipped: appending one changes nothing. */
  lemma CombinedSkipsEmptyRuns(m: Math, rs: seq<MCResult>, r: MCResult)
    requires rs != [] && r.numPaths <= 0
    ensures Combined(m, rs + [r]) == Combined(m, rs)
  {
    AppendKeepsSums(rs, r, |rs|);
    assert (rs + [r])[|rs|] == r;
  }

  /** All kept prices at least `lo` put the weighted sum at least `lo` per path. */
  lemma {:induction false} WeightedPriceAbove(rs: seq<MCResult>, n: nat, lo: real)
    requires n <= |rs|
    requires forall i :: 0 <= i < |rs| && 0 < rs[i].numPaths ==> lo <= rs[i].price
    ensures KeptPaths(rs, n) as real * lo <= WeightedPriceSum(rs, n)
  {
    if n > 0 {
      WeightedPriceAbove(rs, n - 1, lo);
      UnfoldSums(rs, n);
      StepAbove(KeptPaths(rs, n) as real, KeptPaths(rs, n - 1) as real, Weight(rs[n - 1]) as real,
                WeightedPriceSum(rs, n - 1), rs[n - 1].price, WeightedPriceSum(rs, n), lo);
    }
  }

  /** All kept prices at most `hi` put the weighted sum at most `hi` per path. */
  lemma {:induction false} WeightedPriceBelow(rs: seq<MCResult>, n: nat, hi: real)
    requires n <= |rs|
    requires forall i :: 0 <= i < |rs| && 0 < rs[i].numPaths ==> rs[i].price <= hi
    ensures WeightedPriceSum(rs, n) <= KeptPaths(rs, n) as real * hi
  {
    if n > 0 {
      WeightedPriceBelow(rs, n - 1, hi);
      UnfoldSums(rs, n);
      StepBelow(KeptPaths(rs, n) as real, KeptPaths(rs, n - 1) as real, Weight(rs[n - 1]) as real,
                WeightedPriceSum(rs, n - 1), rs[n - 1].price, WeightedPriceSum(rs, n), hi);
    }
  }

  lemma UnfoldSums(rs: seq<MCResult>, n: nat)
    requires 0 < n <= |rs|
    ensures KeptPaths(rs, n) as real == KeptPaths(rs, n - 1) as real + Weight(rs[n - 1]) as real
    ensures WeightedPriceSum(rs, n) == WeightedPriceSum(rs, n - 1) + Weight(rs[n - 1]) as real * rs[n - 1].price
  {}

  /** One induction step: adding weight `n` at price `p` >= lo keeps the sum at least lo per unit of weight. */
  lemma StepAbove(k: real, w: real, n: real, s: real, p: real, u: real, lo: real)
    requires k == w + n && u == s + n * p
    requires w * lo <= s && (0.0 < n ==> lo <= p) && 0.0 <= n
    ensures k * lo <= u
  {
    assert (w + n) * lo == w * lo + n * lo;
    if 0.0 < n {
      ScaleMonotone(lo, p, n);
    }
  }

  lemma StepBelow(k: real, w: real, n: real, s: real, p: real, u: real, hi: real)
    requires k == w + n && u == s + n * p
    requires s <= w * hi && (0.0 < n ==> p <= hi) && 0.0 <= n
    ensures u <= k * hi
  {
    assert (w + n) * hi == w * hi + n * hi;
    if 0.0 < n {
      ScaleMonotone(p, hi, n);
    }
  }

  /** The merged price is a path-weighted mean, so it lies between the kept results' prices. */
  lemma CombinedPriceBetween(m: Math, rs: seq<MCResult>, lo: real, hi: real)
    requires 0 < KeptPaths(rs, |rs|)
    requires forall i :: 0 <= i < |rs| && 0 < rs[i].numPaths ==> lo <= rs[i].price <= hi
    ensures lo <= Combined(m, rs).price <= hi
  {
    var s, n := WeightedPriceSum(rs, |rs|), KeptPaths(rs, |rs|) as real;
    assert Combined(m, rs).price == s / n;
    WeightedPriceAbove(rs, |rs|, lo);
    WeightedPriceBelow(rs, |rs|, hi);
    DivideBounds(s, n, lo, hi);
  }
}
