/**
 * `src/monte_carlo_gbm.cpp`: the Monte Carlo pricer under geometric Brownian
 * motion. Each path draws one normal Z, from the seeded generator or from a
 * shifted Halton point through Box-Muller, and reaches
 * `S_T = S0 exp(drift + sigma sqrt(T) Z)`. A sample is the payoff, or with
 * antithetics the mean of the payoffs at Z and -Z, optionally adjusted by a
 * control variate on S_T whose coefficient beta comes from a pre-pass. The
 * pathwise delta and the likelihood-ratio vega are accumulated beside the
 * price.
 *
 * The loops are methods proved equal to recursive functions of the draws
 * (`PrePassSums`, `MainSums`, `GbmPriceOf`); the properties of the pricer
 * are proved about those functions.
 */
module MonteCarloGbm {
  import opened Numerics
  import opened OptionTypes
  import opened MathUtils
  import opened MonteCarlo
  import Stats

  /** The contract and the market: spot, strike, rate, maturity, volatility and the option type. */
  datatype Market = Market(S0: real, K: real, r: real, T: real, sigma: real, kind: OptionType)

  /** The arguments of `mc_gbm_price` other than the seed: the market, the path count and the switches. */
  datatype GbmInputs = GbmInputs(mk: Market, numPaths: int,
                                 antithetic: bool, controlVariate: bool, useQmc: bool,
                                 twoPassCv: bool, computeGreeks: bool)

  /** Whether the pathwise delta takes its `ST / S0` branch. */
  predicate InTheMoney(kind: OptionType, K: real, ST: real)
  {
    if kind == Call then ST > K else ST < K
  }

  /**
   * With S0 = 0 every terminal spot is 0, and if 0 is in the money the
   * pathwise delta is `0 / 0`, a NaN; the model excludes that one case when
   * the Greeks are computed.
   */
  predicate DeltaDefined(c: GbmInputs)
  {
    c.computeGreeks ==> DeltaDefinedAt(c.mk)
  }

  /** The pathwise delta of every path is a number: S0 is not 0, or a zero spot is out of the money. */
  predicate DeltaDefinedAt(mk: Market)
  {
    mk.S0 != 0.0 || !InTheMoney(mk.kind, mk.K, 0.0)
  }

  type GbmRun = c: GbmInputs | DeltaDefined(c)
    witness GbmInputs(Market(100.0, 100.0, 0.0, 1.0, 0.2, Call), 0, true, true, false, true, true)

  /** The number of loop iterations a signed `long` bound gives. */
  function Iterations(bound: int): nat
  {
    if bound < 0 then 0 else bound
  }

  // ---------------------------------------------------------------------
  // One path
  // ---------------------------------------------------------------------

  /** `exp(drift + volT Z)` with `drift = (r - sigma^2 / 2) T` and `volT = sigma sqrt(T)`. */
  function Growth(m: Math, mk: Market, Z: real): (g: real)
    ensures 0.0 < g
  {
    var drift := (mk.r - 0.5 * mk.sigma * mk.sigma) * mk.T;
    var volT := mk.sigma * m.sqrt(mk.T);
    m.exp(drift + volT * Z)
  }

  /**
   * `S_T = S0 exp(drift + volT Z)`: positive from a positive S0, 0 from
   * S0 = 0, and for any other S0 its ratio to S0 is the positive growth.
   * The antithetic partner is the terminal spot at -Z.
   */
  function Terminal(m: Math, mk: Market, Z: real): (ST: real)
    ensures 0.0 < mk.S0 ==> 0.0 < ST
    ensures mk.S0 == 0.0 ==> ST == 0.0
    ensures mk.S0 != 0.0 ==> ST / mk.S0 == Growth(m, mk, Z)
  {
    var g := Growth(m, mk, Z);
    ScalePositive(mk.S0, g);
    mk.S0 * g
  }

  /**
   * The payoff part of a sample: the payoff at Z, or with antithetics the
   * mean of the payoffs at Z and -Z; never negative.
   */
  function PayoffSample(m: Math, mk: Market, antithetic: bool, Z: real): (p: real)
    ensures 0.0 <= p
  {
    var p := Payoff(Terminal(m, mk, Z), mk.K, mk.kind);
    if antithetic then 0.5 * (p + Payoff(Terminal(m, mk, -Z), mk.K, mk.kind)) else p
  }

  /** The control-variate adjustment `p - beta (ST - Ey)`; a zero beta leaves p unchanged. */
  function CvAdjust(p: real, beta: real, ST: real, Ey: real): (adj: real)
    ensures beta == 0.0 ==> adj == p
    ensures ST == Ey ==> adj == p
  {
    p - beta * (ST - Ey)
  }

  /**
   * The sample a path adds to the sums. Without the control variate, or
   * with a zero beta, it is the payoff part, so never negative.
   */
  function Sample(m: Math, c: GbmInputs, beta: real, Ey: real, Z: real): (p: real)
    ensures !c.controlVariate || beta == 0.0 ==> p == PayoffSample(m, c.mk, c.antithetic, Z)
    ensures !c.controlVariate ==> 0.0 <= p
  {
    var p := PayoffSample(m, c.mk, c.antithetic, Z);
    if c.controlVariate then CvAdjust(p, beta, Terminal(m, c.mk, Z), Ey) else p
  }

  /**
   * `delta_pathwise`: `ST / S0` for a call in the money and `-(ST / S0)` for
   * a put in the money, 0 out of the money.
   */
  function PathwiseDelta(kind: OptionType, K: real, S0: real, ST: real): (d: real)
    requires S0 != 0.0 || !InTheMoney(kind, K, ST)
    ensures !InTheMoney(kind, K, ST) ==> d == 0.0
    ensures 0.0 < S0 && 0.0 <= ST ==> (kind == Call ==> 0.0 <= d) && (kind == Put ==> d <= 0.0)
  {
    if !InTheMoney(kind, K, ST) then 0.0
    else if kind == Call then ST / S0
    else -(ST / S0)
  }

  /** `vega_lrm`: the payoff at ST times the score `Z sqrt(T) - sigma T`; 0 wherever the payoff is. */
  function VegaLr(m: Math, mk: Market, Z: real, ST: real): (v: real)
    ensures Payoff(ST, mk.K, mk.kind) == 0.0 ==> v == 0.0
  {
    Payoff(ST, mk.K, mk.kind) * (Z * m.sqrt(mk.T) - mk.sigma * mk.T)
  }

  /**
   * The delta and vega a path contributes, both taken on the Z path. The
   * delta is never negative for a call and never positive for a put,
   * whatever the sign of S0.
   */
  function GreekTerms(m: Math, mk: Market, Z: real): (g: (real, real))
    requires DeltaDefinedAt(mk)
    ensures mk.kind == Call ==> 0.0 <= g.0
    ensures mk.kind == Put ==> g.0 <= 0.0
  {
    var ST := Terminal(m, mk, Z);
    (PathwiseDelta(mk.kind, mk.K, mk.S0, ST), VegaLr(m, mk, Z, ST))
  }

  // ---------------------------------------------------------------------
  // The source of normal draws
  // ---------------------------------------------------------------------

  /**
   * Where the normals come from: the generator `RNG(seed)` or, for QMC, the
   * Halton generator built from `RNG(seed + 17)`, given by its two shifts.
   */
  datatype ZSource = ZSource(qmc: bool, e: Engine, shift1: real, shift2: real)

  /** The k-th normal draw: a Gaussian variate, or the first Box-Muller output of the k-th Halton point. */
  function ZAt(m: Math, src: ZSource, k: nat): real
  {
    if src.qmc then
      var n := HaltonIndexAfter(k);
      BoxMuller(m, HaltonCoordinate(n, 2, src.shift1), HaltonCoordinate(n, 3, src.shift2)).0
    else src.e.gauss(k)
  }

  /** What the two generators hold: the engine and its position, the Halton index and shifts. */
  datatype DrawState = DrawState(e: Engine, taken: nat, n: nat, shift1: real, shift2: real)

  function StateOf(rng: Rng, hal: Halton2D): DrawState
    reads rng, hal
  {
    DrawState(rng.engine, rng.taken, hal.n, hal.shift1, hal.shift2)
  }

  /** The state of the generators after `k` draws from `src`. */
  ghost predicate DrawsAt(src: ZSource, st: DrawState, k: nat)
  {
    && st.e == src.e && st.shift1 == src.shift1 && st.shift2 == src.shift2 && st.n < TwoTo64
    && (if src.qmc then st.n == HaltonIndexAfter(k) else st.taken == k)
  }

  /** The draw at the head of both loops. */
  method DrawZ(m: Math, qmc: bool, ghost src: ZSource, ghost k: nat, rng: Rng, hal: Halton2D) returns (Z: real)
    requires src.qmc == qmc && DrawsAt(src, StateOf(rng, hal), k)
    modifies rng, hal
    ensures DrawsAt(src, StateOf(rng, hal), k + 1) && Z == ZAt(m, src, k)
  {
    if qmc {
      var u1, u2 := hal.Next();
      Z := BoxMuller(m, u1, u2).0;
    } else {
      Z := rng.Gauss();
    }
  }

  // ---------------------------------------------------------------------
  // The beta pre-pass
  // ---------------------------------------------------------------------

  /** The pre-pass sums of X = payoff, Y = S_T, X Y and Y^2. */
  datatype PrePass = PrePass(sumX: real, sumY: real, sumXY: real, sumYY: real)

  /** `min(num_paths, 200000)`: the length of the pre-pass. */
  function PrePassCount(c: GbmInputs): int
  {
    IMin(c.numPaths, 200000)
  }

  /** The pre-pass sums over the first `i` draws. */
  function PrePassSums(m: Math, c: GbmInputs, src: ZSource, i: nat): (s: PrePass)
    ensures 0.0 <= s.sumX && 0.0 <= s.sumYY
  {
    if i == 0 then PrePass(0.0, 0.0, 0.0, 0.0)
    else PrePassStep(m, c.mk, PrePassSums(m, c, src, i - 1), ZAt(m, src, i - 1))
  }

  /** One pre-pass draw added to the sums, with X the payoff at `Y = S_T`. */
  function PrePassStep(m: Math, mk: Market, prev: PrePass, Z: real): (s: PrePass)
    ensures prev.sumX <= s.sumX && prev.sumYY <= s.sumYY
  {
    var Y := Terminal(m, mk, Z);
    var X := Payoff(Y, mk.K, mk.kind);
    PrePass(prev.sumX + X, prev.sumY + Y, prev.sumXY + SignedProduct(X, Y), prev.sumYY + Square(Y))
  }

  /** `varY = sumYY / n - (sumY / n)^2`. */
  function VarianceOfY(n: int, s: PrePass): real
    requires n != 0
  {
    s.sumYY / n as real - Square(s.sumY / n as real)
  }

  /** `covXY = sumXY / n - (sumX / n) (sumY / n)`. */
  function CovarianceXY(n: int, s: PrePass): real
    requires n != 0
  {
    s.sumXY / n as real - (s.sumX / n as real) * (s.sumY / n as real)
  }

  /** The draws the pre-pass takes: `min(num_paths, 200000)` when it runs, none otherwise. */
  function PrePassDraws(c: GbmInputs): nat
  {
    if c.controlVariate && c.twoPassCv then Iterations(PrePassCount(c)) else 0
  }

  /**
   * The control-variate coefficient. It is 0 unless the control variate and
   * the two-pass estimate are both on, there is at least one path and the
   * pre-pass variance of S_T exceeds 1e-14; then it is `covXY / varY`. With
   * no pre-pass draws the C++ quotients are NaN and the comparison fails.
   */
  function BetaOf(m: Math, c: GbmInputs, src: ZSource): (beta: real)
    ensures beta != 0.0 ==> c.controlVariate && c.twoPassCv && 0 < c.numPaths
    ensures beta != 0.0 ==> VarianceOfY(PrePassCount(c), PrePassSums(m, c, src, PrePassDraws(c))) > 0.00000000000001
  {
    var n := PrePassCount(c);
    if c.controlVariate && c.twoPassCv && n != 0 then
      var s := PrePassSums(m, c, src, Iterations(n));
      if n < 0 then
        assert VarianceOfY(n, s) == 0.0;
        0.0
      else if VarianceOfY(n, s) > 0.00000000000001 then CovarianceXY(n, s) / VarianceOfY(n, s)
      else 0.0
    else 0.0
  }

  /** `Ey = S0 exp(rT)`: positive from a positive S0, at least S0 when rT >= 0, and S0 itself when rT = 0. */
  function ControlMean(m: Math, mk: Market): (Ey: real)
    ensures 0.0 < mk.S0 ==> 0.0 < Ey
    ensures 0.0 < mk.S0 && 0.0 <= mk.r * mk.T ==> mk.S0 <= Ey
    ensures mk.r * mk.T == 0.0 ==> Ey == mk.S0
  {
    var g := m.exp(mk.r * mk.T);
    ExpSign(m, mk.r * mk.T);
    ScalePositive(mk.S0, g);
    ScaleAtLeast(mk.S0, g);
    mk.S0 * g
  }

  lemma ScaleAtLeast(x: real, g: real)
    requires 0.0 < g
    ensures 0.0 < x && 1.0 <= g ==> x <= x * g
  {
    if 0.0 < x && 1.0 <= g {
      ProductNonNegative(x, g - 1.0);
    }
  }

  /** The pre-pass sums after one more draw Z. */
  lemma PrePassNext(m: Math, c: GbmInputs, src: ZSource, i: nat, s: PrePass, Z: real)
    requires Z == ZAt(m, src, i) && s == PrePassSums(m, c, src, i)
    ensures PrePassSums(m, c, src, i + 1) == PrePassStep(m, c.mk, s, Z)
  {}

  /** A ghost record of the pre-pass: `trace[j]` is the sums after `j` draws. */
  ghost predicate PrePassTrace(m: Math, c: GbmInputs, src: ZSource, trace: seq<PrePass>)
  {
    forall j: nat {:trigger PrePassSums(m, c, src, j)} | j < |trace| :: trace[j] == PrePassSums(m, c, src, j)
  }

  /** The trace of the first `n` pre-pass draws; it starts from zero sums. */
  ghost function TraceOfPrePass(m: Math, c: GbmInputs, src: ZSource, n: nat): (trace: seq<PrePass>)
    ensures |trace| == n + 1 && trace[0] == PrePass(0.0, 0.0, 0.0, 0.0)
    ensures PrePassTrace(m, c, src, trace)
  {
    seq(n + 1, (j: int) requires 0 <= j => PrePassSums(m, c, src, j))
  }

  /**
   * The pre-pass: `min(num_paths, 200000)` draws, the four sums, and beta
   * from their covariance and variance.
   */
  method EstimateBeta(m: Math, c: GbmInputs, ghost src: ZSource, rng: Rng, hal: Halton2D) returns (beta: real)
    requires c.controlVariate && c.twoPassCv
    requires src.qmc == c.useQmc && DrawsAt(src, StateOf(rng, hal), 0)
    modifies rng, hal
    ensures DrawsAt(src, StateOf(rng, hal), PrePassDraws(c)) && beta == BetaOf(m, c, src)
  {
    var count := IMin(c.numPaths, 200000);
    ghost var trace := TraceOfPrePass(m, c, src, PrePassDraws(c));
    var s := RunPrePass(m, c, src, count, rng, hal, trace);
    beta := 0.0;
    if count != 0 {
      var covXY := CovarianceXY(count, s);
      var varY := VarianceOfY(count, s);
      if varY > 0.00000000000001 {
        beta := covXY / varY;
      }
    }
  }

  /** The pre-pass loop: `count` draws added to the four sums. */
  method RunPrePass(m: Math, c: GbmInputs, ghost src: ZSource, count: int, rng: Rng, hal: Halton2D, ghost trace: seq<PrePass>)
    returns (s: PrePass)
    requires src.qmc == c.useQmc && DrawsAt(src, StateOf(rng, hal), 0)
    requires |trace| == Iterations(count) + 1 && trace[0] == PrePass(0.0, 0.0, 0.0, 0.0)
    requires PrePassTrace(m, c, src, trace)
    modifies rng, hal
    ensures DrawsAt(src, StateOf(rng, hal), Iterations(count)) && s == trace[Iterations(count)]
  {
    s := PrePass(0.0, 0.0, 0.0, 0.0);
    var i: nat := 0;
    ghost var draws := Iterations(count);
    while i < count
      invariant i <= draws
      invariant DrawsAt(src, StateOf(rng, hal), i) && s == trace[i]
    {
      s := AdvancePrePass(m, c, src, i, rng, hal, trace, s);
      i := i + 1;
    }
  }

  /** The body of the pre-pass loop. */
  method AdvancePrePass(m: Math, c: GbmInputs, ghost src: ZSource, i: nat, rng: Rng, hal: Halton2D,
                        ghost trace: seq<PrePass>, s: PrePass)
    returns (sNext: PrePass)
    requires i + 1 < |trace| && PrePassTrace(m, c, src, trace) && s == trace[i]
    requires src.qmc == c.useQmc && DrawsAt(src, StateOf(rng, hal), i)
    modifies rng, hal
    ensures DrawsAt(src, StateOf(rng, hal), i + 1) && sNext == trace[i + 1]
  {
    var Z := DrawZ(m, c.useQmc, src, i, rng, hal);
    PrePassNext(m, c, src, i, s, Z);
    sNext := AddPrePassDraw(m, c.mk, s, Z);
  }

  /** The pre-pass loop's update: X the payoff at Y = S_T, then the four sums. */
  method AddPrePassDraw(m: Math, mk: Market, s: PrePass, Z: real) returns (sNext: PrePass)
    ensures sNext == PrePassStep(m, mk, s, Z)
  {
    var Y := Terminal(m, mk, Z);
    var X := Payoff(Y, mk.K, mk.kind);
    sNext := PrePass(s.sumX + X, s.sumY + Y, s.sumXY + SignedProduct(X, Y), s.sumYY + Square(Y));
  }

  // ---------------------------------------------------------------------
  // The main loop and the estimate
  // ---------------------------------------------------------------------

  /** The price sums `sum` and `sum2` after `i` paths whose draws start at `start`. */
  function PriceSums(m: Math, c: GbmInputs, src: ZSource, beta: real, Ey: real, start: nat, i: nat): (s: (real, real))
    ensures 0.0 <= s.1
    ensures !c.controlVariate ==> 0.0 <= s.0
  {
    if i == 0 then (0.0, 0.0)
    else
      var prev := PriceSums(m, c, src, beta, Ey, start, i - 1);
      var p := Sample(m, c, beta, Ey, ZAt(m, src, start + i - 1));
      (prev.0 + p, prev.1 + Square(p))
  }

  /** The delta and vega sums and their sums of squares. */
  datatype GreekSums = GreekSums(sumDelta: real, sumDelta2: real, sumVega: real, sumVega2: real)

  const NoGreeks: GreekSums := GreekSums(0.0, 0.0, 0.0, 0.0)

  /**
   * The Greek sums after `i` paths. They depend on the market and the draws
   * only: not on antithetics, the control variate or beta, because the
   * Greeks are taken on the Z path. The delta sum has the sign of the
   * option's delta.
   */
  function GreekSumsOf(m: Math, mk: Market, src: ZSource, start: nat, i: nat): (g: GreekSums)
    requires DeltaDefinedAt(mk)
    ensures 0.0 <= g.sumDelta2 && 0.0 <= g.sumVega2
    ensures mk.kind == Call ==> 0.0 <= g.sumDelta
    ensures mk.kind == Put ==> g.sumDelta <= 0.0
  {
    if i == 0 then NoGreeks
    else
      var prev := GreekSumsOf(m, mk, src, start, i - 1);
      var t := GreekTerms(m, mk, ZAt(m, src, start + i - 1));
      GreekSums(prev.sumDelta + t.0, prev.sumDelta2 + Square(t.0), prev.sumVega + t.1, prev.sumVega2 + Square(t.1))
  }

  /** The six running sums of the main loop. */
  datatype GbmSums = GbmSums(sum: real, sum2: real, greeks: GreekSums)

  /** The sums after `i` paths; with the Greeks off their sums stay 0. */
  function MainSums(m: Math, c: GbmRun, src: ZSource, beta: real, Ey: real, start: nat, i: nat): (s: GbmSums)
  {
    var p := PriceSums(m, c, src, beta, Ey, start, i);
    GbmSums(p.0, p.1, if c.computeGreeks then GreekSumsOf(m, c.mk, src, start, i) else NoGreeks)
  }

  /**
   * The epilogue: None where the source divides 0 by 0 (no paths).
   * Otherwise the discounted mean and standard error of the samples and,
   * with the Greeks on, the mean pathwise delta with its (undiscounted)
   * standard error and the discounted mean vega with its standard error.
   * Every standard error is non-negative; a non-negative sum gives a
   * non-negative price and the mean delta keeps the sign of the delta sum.
   */
  function GbmEstimate(m: Math, mk: Market, n: int, greeks: bool, s: GbmSums): (res: Option<Stats.MCResult>)
    requires n < 0 ==> s.sum == s.sum2 == 0.0 && s.greeks == NoGreeks
    ensures res.None? <==> n == 0
    ensures res.Some? ==> 0.0 <= res.value.stdError && 0.0 <= res.value.deltaSe && 0.0 <= res.value.vegaSe
    ensures res.Some? && 0.0 <= s.sum ==> 0.0 <= res.value.price
    ensures res.Some? && 0.0 <= s.greeks.sumDelta ==> 0.0 <= res.value.delta
    ensures res.Some? && s.greeks.sumDelta <= 0.0 ==> res.value.delta <= 0.0
    ensures res.Some? && !greeks ==>
      res.value == Stats.DefaultResult.(price := res.value.price, stdError := res.value.stdError)
    ensures res.Some? ==>
      res.value == Stats.DefaultResult.(price := res.value.price, stdError := res.value.stdError,
                                        delta := res.value.delta, deltaSe := res.value.deltaSe,
                                        vega := res.value.vega, vegaSe := res.value.vegaSe)
  {
    if n == 0 then None
    else
      var disc := m.exp(-mk.r * mk.T);
      var mv := SampleMoments(n, s.sum, s.sum2);
      var se := StandardErrorOf(m, n, mv.1);
      ProductNonNegative(disc, se);
      ScaleNonNegative(disc, mv.0);
      var res := Stats.DefaultResult.(price := disc * mv.0, stdError := disc * se);
      if greeks then
        var g := s.greeks;
        var d := SampleMoments(n, g.sumDelta, g.sumDelta2);
        var v := SampleMoments(n, g.sumVega, g.sumVega2);
        var vegaSe := StandardErrorOf(m, n, v.1);
        ProductNonNegative(disc, vegaSe);
        MeanSign(n, g.sumDelta, g.sumDelta2);
        Some(res.(delta := d.0, deltaSe := StandardErrorOf(m, n, d.1),
                  vega := disc * v.0, vegaSe := disc * vegaSe))
      else Some(res)
  }

  /** The sample mean keeps the sign of the sum. */
  lemma MeanSign(n: int, sum: real, sum2: real)
    requires n != 0 && (n < 0 ==> sum == 0.0 && sum2 == 0.0)
    ensures 0.0 <= sum ==> 0.0 <= SampleMoments(n, sum, sum2).0
    ensures sum <= 0.0 ==> SampleMoments(n, sum, sum2).0 <= 0.0
  {
    if sum < 0.0 && n > 0 {
      assert SampleMoments(n, sum, sum2).0 == -(SampleMoments(n, -sum, sum2).0);
    }
  }

  /** The Halton shifts `Halton2D(seed + 17)` draws: the first two uniforms of its generator. */
  function SourceOf(c: GbmInputs, engineOf: bv64 -> Engine, seed: bv64): ZSource
  {
    var halEngine := engineOf(seed + 17);
    ZSource(c.useQmc, engineOf(seed), UniOf(halEngine.canonical(0)), UniOf(halEngine.canonical(1)))
  }

  /**
   * `mc_gbm_price` with `RNG(s)` given as `engineOf(s)`: the pre-pass takes
   * the first draws, the main loop the next `num_paths`, then the estimate.
   * None where the source divides 0 by 0; every standard error is
   * non-negative; without the control variate the price is non-negative;
   * the delta has the sign of the option's; with the Greeks off they keep
   * their zero defaults.
   */
  function GbmPriceOf(m: Math, c: GbmRun, engineOf: bv64 -> Engine, seed: bv64): (res: Option<Stats.MCResult>)
    ensures res.None? <==> c.numPaths == 0
    ensures res.Some? ==> 0.0 <= res.value.stdError && 0.0 <= res.value.deltaSe && 0.0 <= res.value.vegaSe
    ensures res.Some? && !c.controlVariate ==> 0.0 <= res.value.price
    ensures res.Some? && c.mk.kind == Call ==> 0.0 <= res.value.delta
    ensures res.Some? && c.mk.kind == Put ==> res.value.delta <= 0.0
    ensures res.Some? && !c.computeGreeks ==>
      res.value == Stats.DefaultResult.(price := res.value.price, stdError := res.value.stdError)
  {
    var src := SourceOf(c, engineOf, seed);
    var s := MainSums(m, c, src, BetaOf(m, c, src), ControlMean(m, c.mk), PrePassDraws(c), Iterations(c.numPaths));
    GbmEstimate(m, c.mk, c.numPaths, c.computeGreeks, s)
  }

  /**
   * A ghost record of the main loop: `trace[j]` is the sums after `j` paths,
   * for every `j` it covers. The trigger keeps the sums unexpanded until a
   * proof names them.
   */
  ghost predicate SumsTrace(m: Math, c: GbmRun, src: ZSource, beta: real, Ey: real, start: nat, trace: seq<GbmSums>)
  {
    forall j: nat {:trigger MainSums(m, c, src, beta, Ey, start, j)} | j < |trace| ::
      trace[j] == MainSums(m, c, src, beta, Ey, start, j)
  }

  /** The trace of the first `n` paths; it starts from zero sums. */
  ghost function TraceOfSums(m: Math, c: GbmRun, src: ZSource, beta: real, Ey: real, start: nat, n: nat): (trace: seq<GbmSums>)
    ensures |trace| == n + 1 && trace[0] == GbmSums(0.0, 0.0, NoGreeks)
    ensures SumsTrace(m, c, src, beta, Ey, start, trace)
  {
    seq(n + 1, (j: int) requires 0 <= j => MainSums(m, c, src, beta, Ey, start, j))
  }

  /** The sums after one more path whose draw is Z. */
  lemma MainSumsNext(m: Math, c: GbmRun, src: ZSource, beta: real, Ey: real, start: nat, i: nat, k: nat, s: GbmSums, Z: real)
    requires k == start + i && Z == ZAt(m, src, k) && s == MainSums(m, c, src, beta, Ey, start, i)
    ensures MainSums(m, c, src, beta, Ey, start, i + 1) == PathSums(m, c, beta, Ey, Z, s)
  {}

  /** One path's sample and, with the Greeks on, its Greek terms added to the sums. */
  function PathSums(m: Math, c: GbmRun, beta: real, Ey: real, Z: real, prev: GbmSums): GbmSums
  {
    var p := Sample(m, c, beta, Ey, Z);
    var g := prev.greeks;
    GbmSums(prev.sum + p, prev.sum2 + Square(p),
            if c.computeGreeks then
              var t := GreekTerms(m, c.mk, Z);
              GreekSums(g.sumDelta + t.0, g.sumDelta2 + Square(t.0), g.sumVega + t.1, g.sumVega2 + Square(t.1))
            else g)
  }

  /** `mc_gbm_price`. */
  method GbmPrice(m: Math, c: GbmRun, engineOf: bv64 -> Engine, seed: bv64) returns (res: Option<Stats.MCResult>)
    ensures res == GbmPriceOf(m, c, engineOf, seed)
  {
    var rng := new Rng(engineOf(seed));
    var hal := new Halton2D(engineOf(seed + 17));
    ghost var src := SourceOf(c, engineOf, seed);
    var beta := 0.0;
    var Ey := ControlMean(m, c.mk);
    if c.controlVariate && c.twoPassCv {
      beta := EstimateBeta(m, c, src, rng, hal);
    }
    ghost var trace := TraceOfSums(m, c, src, beta, Ey, PrePassDraws(c), Iterations(c.numPaths));
    var s := RunPaths(m, c, src, beta, Ey, PrePassDraws(c), rng, hal, trace);
    res := GbmEstimate(m, c.mk, c.numPaths, c.computeGreeks, s);
  }

  /** The main loop: `num_paths` samples added to the sums. */
  method RunPaths(m: Math, c: GbmRun, ghost src: ZSource, beta: real, Ey: real, ghost start: nat, rng: Rng, hal: Halton2D,
                  ghost trace: seq<GbmSums>)
    returns (s: GbmSums)
    requires src.qmc == c.useQmc && DrawsAt(src, StateOf(rng, hal), start)
    requires |trace| == Iterations(c.numPaths) + 1 && trace[0] == GbmSums(0.0, 0.0, NoGreeks)
    requires SumsTrace(m, c, src, beta, Ey, start, trace)
    modifies rng, hal
    ensures s == trace[Iterations(c.numPaths)]
  {
    s := GbmSums(0.0, 0.0, NoGreeks);
    var i: nat := 0;
    ghost var paths := Iterations(c.numPaths);
    ghost var k := start;
    while i < c.numPaths
      invariant i <= paths && k == start + i
      invariant DrawsAt(src, StateOf(rng, hal), k)
      invariant s == trace[i]
    {
      s := AdvancePath(m, c, src, beta, Ey, start, i, k, rng, hal, trace, s);
      i, k := i + 1, k + 1;
    }
  }

  /**
   * The body of the main loop: the draw, the sample, and the Greeks on the
   * Z path, added to the sums.
   */
  method AdvancePath(m: Math, c: GbmRun, ghost src: ZSource, beta: real, Ey: real, ghost start: nat, i: nat, ghost k: nat,
                     rng: Rng, hal: Halton2D, ghost trace: seq<GbmSums>, s: GbmSums) returns (sNext: GbmSums)
    requires k == start + i && i + 1 < |trace| && SumsTrace(m, c, src, beta, Ey, start, trace) && s == trace[i]
    requires src.qmc == c.useQmc && DrawsAt(src, StateOf(rng, hal), k)
    modifies rng, hal
    ensures DrawsAt(src, StateOf(rng, hal), k + 1) && sNext == trace[i + 1]
  {
    var Z := DrawZ(m, c.useQmc, src, k, rng, hal);
    MainSumsNext(m, c, src, beta, Ey, start, i, k, s, Z);
    var p := PathSample(m, c, beta, Ey, Z);
    sNext := s.(sum := s.sum + p, sum2 := s.sum2 + Square(p));
    if c.computeGreeks {
      var ST := Terminal(m, c.mk, Z);
      var d := PathwiseDelta(c.mk.kind, c.mk.K, c.mk.S0, ST);
      var v := VegaLr(m, c.mk, Z, ST);
      var g := s.greeks;
      sNext := sNext.(greeks := GreekSums(g.sumDelta + d, g.sumDelta2 + Square(d), g.sumVega + v, g.sumVega2 + Square(v)));
    }
  }

  /**
   * The sample of one path: the payoff, averaged with the payoff at -Z
   * under antithetics, then adjusted by the control variate on the Z path.
   */
  method PathSample(m: Math, c: GbmInputs, beta: real, Ey: real, Z: real) returns (p: real)
    ensures p == Sample(m, c, beta, Ey, Z)
  {
    var ST := Terminal(m, c.mk, Z);
    p := Payoff(ST, c.mk.K, c.mk.kind);
    if c.antithetic {
      var STa := Terminal(m, c.mk, -Z);
      p := 0.5 * (p + Payoff(STa, c.mk.K, c.mk.kind));
    }
    if c.controlVariate {
      p := CvAdjust(p, beta, ST, Ey);
    }
  }

  // ---------------------------------------------------------------------
  // Properties relating several runs
  // ---------------------------------------------------------------------

  /**
   * With antithetics a sample is the mean of the plain samples at Z and at
   * -Z, and it is the same at Z and at -Z.
   */
  lemma AntitheticAverages(m: Math, mk: Market, Z: real)
    ensures PayoffSample(m, mk, true, Z) == 0.5 * (PayoffSample(m, mk, false, Z) + PayoffSample(m, mk, false, -Z))
    ensures PayoffSample(m, mk, true, Z) == PayoffSample(m, mk, true, -Z)
  {
    assert -(-Z) == Z;
  }

  /** The control-variate term uses the Z path only, with or without antithetics. */
  lemma ControlVariateUsesDirectPath(m: Math, c: GbmInputs, beta: real, Ey: real, Z: real)
    requires c.controlVariate
    ensures Sample(m, c, beta, Ey, Z) - PayoffSample(m, c.mk, c.antithetic, Z)
         == Sample(m, c.(antithetic := !c.antithetic), beta, Ey, Z) - PayoffSample(m, c.mk, !c.antithetic, Z)
  {}

  /**
   * With beta = 0 the control variate changes nothing: the price sums are
   * those of the same draws without it.
   */
  lemma {:induction false} ZeroBetaSums(m: Math, c: GbmInputs, src: ZSource, Ey: real, start: nat, i: nat)
    requires c.controlVariate
    ensures PriceSums(m, c, src, 0.0, Ey, start, i) == PriceSums(m, c.(controlVariate := false), src, 0.0, Ey, start, i)
  {
    if i > 0 {
      ZeroBetaSums(m, c, src, Ey, start, i - 1);
    }
  }

  /**
   * The control variate without the two-pass estimate has beta = 0 and no
   * pre-pass, so the whole result is that of the run without the control
   * variate.
   */
  lemma ControlVariateNeedsTwoPass(m: Math, c: GbmRun, engineOf: bv64 -> Engine, seed: bv64)
    requires c.controlVariate && !c.twoPassCv
    ensures GbmPriceOf(m, c, engineOf, seed) == GbmPriceOf(m, c.(controlVariate := false), engineOf, seed)
  {
    var d: GbmRun := c.(controlVariate := false);
    var src := SourceOf(c, engineOf, seed);
    assert SourceOf(d, engineOf, seed) == src;
    assert BetaOf(m, c, src) == 0.0 == BetaOf(m, d, src);
    assert PrePassDraws(c) == 0 == PrePassDraws(d);
    var Ey := ControlMean(m, c.mk);
    var n := Iterations(c.numPaths);
    ZeroBetaSums(m, c, src, Ey, 0, n);
    assert MainSums(m, c, src, 0.0, Ey, 0, n) == MainSums(m, d, src, 0.0, Ey, 0, n);
  }
}
