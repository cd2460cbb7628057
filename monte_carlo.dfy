/**
 * The estimator epilogue that `src/slv.cpp` and `src/monte_carlo_gbm.cpp`
 * both write out after their path loops: the sample mean `sum / n`, the
 * population variance `sum2 / n - mean^2` clamped at 0, and the standard
 * error `sqrt(var / n)`.
 */
module MonteCarlo {
  import opened Numerics

  /**
   * Mean and clamped variance from the running sums of `n` samples. The
   * variance is never negative; a non-negative sum over a positive count has
   * a non-negative mean; a negative count, for which the loops run no
   * iteration, gives zeros.
   */
  function SampleMoments(n: int, sum: real, sum2: real): (mv: (real, real))
    requires n != 0
    ensures 0.0 <= mv.1
    ensures 0 < n && 0.0 <= sum ==> 0.0 <= mv.0
    ensures 0 < n ==> mv.0 * n as real == sum
    ensures n < 0 && sum == 0.0 && sum2 == 0.0 ==> mv == (0.0, 0.0)
  {
    var mean := sum / n as real;
    (mean, Max(0.0, sum2 / n as real - Square(mean)))
  }

  /** `sqrt(var / n)`: non-negative for a positive count, 0 for a zero variance. */
  function StandardErrorOf(m: Math, n: int, variance: real): (se: real)
    requires n != 0 && 0.0 <= variance
    ensures 0 < n ==> 0.0 <= se
    ensures variance == 0.0 ==> se == 0.0
  {
    assert 0 < n ==> 0.0 <= variance / n as real;
    m.sqrt(variance / n as real)
  }

  /**
   * Every sample of a non-negative estimator is non-negative: then the
   * discounted mean and the discounted standard error are too, whatever the
   * sign of the count.
   */
  lemma DiscountedEstimateNonNegative(m: Math, disc: real, n: int, sum: real, sum2: real)
    requires 0.0 < disc && n != 0 && 0.0 <= sum
    requires n < 0 ==> sum == 0.0 && sum2 == 0.0
    ensures 0.0 <= disc * SampleMoments(n, sum, sum2).0
    ensures 0.0 <= disc * StandardErrorOf(m, n, SampleMoments(n, sum, sum2).1)
  {
    var mv := SampleMoments(n, sum, sum2);
    ProductNonNegative(disc, mv.0);
    ProductNonNegative(disc, StandardErrorOf(m, n, mv.1));
  }
}
