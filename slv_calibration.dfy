/**
 * `src/slv_calibration.cpp`: two estimators of the model-implied local
 * volatility (a closed form from the leverage and the long-run variance, and
 * a Monte Carlo one from the delta of two SLV prices), the sample Dupire
 * surface and leverage grid, and the self-check that runs the leverage sweep
 * on them.
 *
 * `LeverageGrid::interpolate` is not declared in the header the code
 * includes; it is a parameter `interp` here, a function of spot and time.
 */
module SlvCalibration {
  import opened Numerics
  import opened MathUtils
  import opened OptionTypes
  import opened Dupire
  import opened Slv
  import opened Leverage
  import opened SlvPricing
  import Stats

  /** The fallback both estimators return. */
  const FallbackVol: real := 0.2

  /** The threshold under which a spot, a time or a price counts as zero. */
  const Tiny: real := 0.000001

  // ---------------------------------------------------------------------
  // Finite-difference estimator
  // ---------------------------------------------------------------------

  /**
   * `estimate_model_implied_volatility_fd`: 0.2 at a time or spot of at
   * most 1e-6; otherwise 0.2 times the square root of the floored long-run
   * variance times the leverage, floored at 1e-6. `dt` is not read.
   */
  function FdImpliedVol(m: Math, S: real, t: real, heston: HestonParams,
                        interp: (real, real) -> real, dt: real): (v: real)
    ensures Tiny <= v
    ensures t <= Tiny || S <= Tiny ==> v == FallbackVol
  {
    if t <= Tiny || S <= Tiny then FallbackVol
    else
      var lVal := interp(S, t);
      var vInst := heston.theta;
      Max(EffectiveVol(m, vInst, lVal), Tiny)
  }

  /**
   * The SLV effective volatility with the base local volatility 0.2 and the
   * instantaneous variance floored at 1e-6: a non-negative multiple of the
   * leverage.
   */
  function EffectiveVol(m: Math, vInst: real, lVal: real): real
  {
    var sigmaLocBase := 0.2;
    sigmaLocBase * m.sqrt(Max(vInst, Tiny)) * lVal
  }

  /** Only the long-run variance of the Heston parameters is read, and the step `dt` not at all. */
  lemma FdReadsOnlyTheta(m: Math, S: real, t: real, h1: HestonParams, h2: HestonParams,
                         interp: (real, real) -> real, dt1: real, dt2: real)
    requires h1.theta == h2.theta
    ensures FdImpliedVol(m, S, t, h1, interp, dt1) == FdImpliedVol(m, S, t, h2, interp, dt2)
  {}

  /** Away from the fallback, the estimate never falls as the leverage at (S, t) rises. */
  lemma FdMonotoneInLeverage(m: Math, S: real, t: real, heston: HestonParams,
                             lo: (real, real) -> real, hi: (real, real) -> real, dt: real)
    requires lo(S, t) <= hi(S, t)
    ensures FdImpliedVol(m, S, t, heston, lo, dt) <= FdImpliedVol(m, S, t, heston, hi, dt)
  {
    EffectiveVolMonotone(m, heston.theta, lo(S, t), hi(S, t));
  }

  /** The effective volatility never falls as the leverage rises. */
  lemma EffectiveVolMonotone(m: Math, vInst: real, l1: real, l2: real)
    requires l1 <= l2
    ensures EffectiveVol(m, vInst, l1) <= EffectiveVol(m, vInst, l2)
  {
    var g := 0.2 * m.sqrt(Max(vInst, Tiny));
    assert 0.0 <= g;
    ProductNonNegative(g, l2 - l1);
    assert g * l2 - g * l1 == g * (l2 - l1);
  }

  /** Away from the fallback, a non-positive leverage gives the floor 1e-6. */
  lemma FdFloorsNonPositiveLeverage(m: Math, S: real, t: real, heston: HestonParams,
                                    interp: (real, real) -> real, dt: real)
    requires Tiny < t && Tiny < S && interp(S, t) <= 0.0
    ensures FdImpliedVol(m, S, t, heston, interp, dt) == Tiny
  {
    EffectiveVolMonotone(m, heston.theta, interp(S, t), 0.0);
  }

  // ---------------------------------------------------------------------
  // Monte Carlo estimator
  // ---------------------------------------------------------------------

  /** The fields of `SLVCalibrationConfig` the estimator reads. */
  datatype CalibrationConfig = CalibrationConfig(numPaths: int, numTimeSteps: int)

  /** The seeds of the base and the bumped pricing run. */
  const BaseSeed: bv64 := 12345
  const BumpSeed: bv64 := 12346

  /** The local volatility the estimator prices with: 0.2 times the leverage. */
  function LeverageLocalVol(interp: (real, real) -> real): LocalVolFn
  {
    (St, tt) => 0.2 * interp(St, tt)
  }

  /** The Andersen QE step divides by kappa, theta and xi whenever there are steps to take. */
  predicate QeReady(heston: HestonParams, cfg: CalibrationConfig)
  {
    cfg.numTimeSteps > 0 ==> 0.0 < heston.kappa && 0.0 < heston.theta && 0.0 < heston.xi
  }

  /** A call priced by `mc_slv_price` without antithetic paths and with the QE variance step. */
  function CalibrationRun(S: real, K: real, r: real, tau: real, numPaths: int, cfg: CalibrationConfig,
                          heston: HestonParams, interp: (real, real) -> real): (c: SlvInputs)
    ensures c.kind == Call && c.andersenQe && !c.antithetic
    ensures 0.0 < tau && QeReady(heston, cfg) ==> QeWellDefined(c)
  {
    SlvInputs(S, K, r, tau, numPaths, cfg.numTimeSteps, Call, heston, LeverageLocalVol(interp), false, true)
  }

  /**
   * `sqrt(2 |delta| / (S sqrt(tau)))` with `delta = (up - base) / h`, or None
   * where the double result is NaN or infinite: a price without paths, a
   * zero spot (zero bump and zero denominator), or a negative spot with a
   * non-zero delta (the square root of a negative number). A negative spot
   * with equal prices gives the square root of -0, which is -0.
   */
  function VolFromDelta(m: Math, base: Option<Stats.MCResult>, up: Option<Stats.MCResult>,
                        S: real, tau: real): (est: Option<real>)
    requires 0.0 < tau
    ensures est.Some? && 0.0 < S ==> 0.0 <= est.value
    ensures base.None? || up.None? || S == 0.0 ==> est.None?
  {
    if base.None? || up.None? || S == 0.0 then None
    else
      var h := 0.01 * S;
      var deltaApprox := (up.value.price - base.value.price) / h;
      if S < 0.0 then (if deltaApprox == 0.0 then Some(0.0) else None)
      else
        var timeToExp := tau;
        var denom := S * m.sqrt(timeToExp);
        ProductPositive(S, m.sqrt(timeToExp));
        Some(m.sqrt(2.0 * Abs(deltaApprox) / denom))
  }

  /**
   * `max(0.01, min(2.0, v))`. `std::min(2.0, NaN)` returns its first
   * argument, so a NaN or infinite estimate comes out as 2.0.
   */
  function ClampVol(est: Option<real>): (v: real)
    ensures 0.01 <= v <= 2.0
    ensures est.None? ==> v == 2.0
    ensures est.Some? && 0.01 <= est.value <= 2.0 ==> v == est.value
  {
    match est
    case None => 2.0
    case Some(x) => Max(0.01, Min(2.0, x))
  }

  /**
   * `estimate_model_implied_volatility_mc`, with `RNG(s)` given as
   * `engineOf(s)`: 0.2 at or past expiry and when the base price is at most
   * 1e-6; otherwise the delta estimate from a 1% spot bump priced with a
   * quarter of the paths, clamped to [0.01, 2.0]. Every result lies in
   * [0.01, 2.0].
   */
  function McImpliedVol(m: Math, S: real, t: real, K: real, r: real, T: real, heston: HestonParams,
                        interp: (real, real) -> real, cfg: CalibrationConfig,
                        engineOf: bv64 -> Engine): (v: real)
    requires QeReady(heston, cfg)
    ensures 0.01 <= v <= 2.0
    ensures T <= t + Tiny ==> v == FallbackVol
  {
    if T <= t + Tiny then FallbackVol
    else
      var tau := T - t;
      var base := SlvPriceOf(m, CalibrationRun(S, K, r, tau, cfg.numPaths, cfg, heston, interp), engineOf(BaseSeed));
      if base.Some? && base.value.price <= Tiny then FallbackVol
      else
        var h := 0.01 * S;
        var up := SlvPriceOf(m, CalibrationRun(S + h, K, r, tau, CDiv(cfg.numPaths, 4), cfg, heston, interp),
                             engineOf(BumpSeed));
        ClampVol(VolFromDelta(m, base, up, S, tau))
  }

  /** The base pricing run of the Monte Carlo estimator. */
  function BasePrice(m: Math, S: real, t: real, K: real, r: real, T: real, heston: HestonParams,
                     interp: (real, real) -> real, cfg: CalibrationConfig,
                     engineOf: bv64 -> Engine): Option<Stats.MCResult>
    requires QeReady(heston, cfg) && t + Tiny < T
  {
    SlvPriceOf(m, CalibrationRun(S, K, r, T - t, cfg.numPaths, cfg, heston, interp), engineOf(BaseSeed))
  }

  /** A base price at most 1e-6 gives the fallback 0.2. */
  lemma McFallsBackOnSmallPrice(m: Math, S: real, t: real, K: real, r: real, T: real, heston: HestonParams,
                                interp: (real, real) -> real, cfg: CalibrationConfig, engineOf: bv64 -> Engine)
    requires QeReady(heston, cfg) && t + Tiny < T
    requires var base := BasePrice(m, S, t, K, r, T, heston, interp, cfg, engineOf);
             base.Some? && base.value.price <= Tiny
    ensures McImpliedVol(m, S, t, K, r, T, heston, interp, cfg, engineOf) == FallbackVol
  {}

  /**
   * Without paths both prices are NaN: the comparison with 1e-6 is false and
   * the NaN estimate is clamped to 2.0.
   */
  lemma McWithoutPathsSaturates(m: Math, S: real, t: real, K: real, r: real, T: real, heston: HestonParams,
                                interp: (real, real) -> real, cfg: CalibrationConfig, engineOf: bv64 -> Engine)
    requires QeReady(heston, cfg) && t + Tiny < T && cfg.numPaths == 0
    ensures McImpliedVol(m, S, t, K, r, T, heston, interp, cfg, engineOf) == 2.0
  {
    assert BasePrice(m, S, t, K, r, T, heston, interp, cfg, engineOf).None?;
  }

  /**
   * With one to three paths the bumped run gets `num_paths / 4 = 0` paths, so
   * the estimate is either the fallback (a small base price) or the clamp's 2.0.
   */
  lemma McTooFewPathsForBump(m: Math, S: real, t: real, K: real, r: real, T: real, heston: HestonParams,
                             interp: (real, real) -> real, cfg: CalibrationConfig, engineOf: bv64 -> Engine)
    requires QeReady(heston, cfg) && t + Tiny < T && 1 <= cfg.numPaths <= 3
    ensures var v := McImpliedVol(m, S, t, K, r, T, heston, interp, cfg, engineOf);
            v == FallbackVol || v == 2.0
  {
    assert CDiv(cfg.numPaths, 4) == 0;
  }

  /** The estimator draws only from the engines seeded 12345 and 12346. */
  lemma McReadsTwoSeeds(m: Math, S: real, t: real, K: real, r: real, T: real, heston: HestonParams,
                        interp: (real, real) -> real, cfg: CalibrationConfig,
                        e1: bv64 -> Engine, e2: bv64 -> Engine)
    requires QeReady(heston, cfg)
    requires e1(BaseSeed) == e2(BaseSeed) && e1(BumpSeed) == e2(BumpSeed)
    ensures McImpliedVol(m, S, t, K, r, T, heston, interp, cfg, e1)
         == McImpliedVol(m, S, t, K, r, T, heston, interp, cfg, e2)
  {}

  // ---------------------------------------------------------------------
  // Sample surface and leverage grid
  // ---------------------------------------------------------------------

  const SampleTimes: seq<real> := [0.25, 0.5, 1.0, 1.5, 2.0]
  const SampleSpots: seq<real> := [50.0, 75.0, 100.0, 125.0, 150.0]

  /** The sample volatility: 0.2, a negative log-moneyness skew and a square-root term slope, floored at 0.05. */
  function SampleVol(m: Math, T: real, S: real): (v: real)
    ensures 0.05 <= v
  {
    Max(0.05, 0.2 + -0.1 * m.log(S / 100.0) + 0.02 * m.sqrt(T))
  }

  /** Both sample axes are strictly increasing, as the interpolation of a Dupire surface needs. */
  lemma SampleAxesIncreasing()
    ensures StrictlyIncreasing(SampleTimes) && StrictlyIncreasing(SampleSpots)
  {}

  /**
   * `create_sample_dupire_surface`: the 5 x 5 sample grid, every entry the
   * sample volatility at its node, so never below 0.05.
   */
  method CreateSampleDupireSurface(m: Math) returns (surface: DupireSurface)
    ensures surface.t == SampleTimes && surface.S == SampleSpots && Shaped(surface)
    ensures forall i, j :: 0 <= i < |surface.t| && 0 <= j < |surface.S| ==>
              surface.sigma[i][j] == SampleVol(m, surface.t[i], surface.S[j]) && 0.05 <= surface.sigma[i][j]
  {
    surface := DupireSurface(SampleTimes, SampleSpots, []);
    surface := surface.(sigma := seq(|surface.t|, _ => []));
    for i := 0 to |surface.t|
      invariant surface.t == SampleTimes && surface.S == SampleSpots && |surface.sigma| == |surface.t|
      invariant forall i' :: 0 <= i' < i ==> SampleRow(m, surface.t[i'], surface.S, surface.sigma[i'])
    {
      var row := seq(|surface.S|, _ => 0.0);
      for j := 0 to |surface.S|
        invariant |row| == |surface.S|
        invariant forall j' :: 0 <= j' < j ==> row[j'] == SampleVol(m, surface.t[i], surface.S[j'])
      {
        var T := surface.t[i];
        var S := surface.S[j];
        var moneyness := m.log(S / 100.0);
        var baseVol := 0.2;
        var skew := -0.1 * moneyness;
        var termStructure := 0.02 * m.sqrt(T);
        row := row[j := Max(0.05, baseVol + skew + termStructure)];
      }
      surface := surface.(sigma := surface.sigma[i := row]);
    }
  }

  /** `row` holds the sample volatility at time `T` and every spot of `spots`. */
  predicate SampleRow(m: Math, T: real, spots: seq<real>, row: seq<real>)
  {
    |row| == |spots| && forall j :: 0 <= j < |spots| ==> row[j] == SampleVol(m, T, spots[j])
  }

  /** `L` is a `rows x cols` matrix of ones. */
  predicate Ones(L: seq<seq<real>>, rows: nat, cols: nat)
  {
    |L| == rows && forall j :: 0 <= j < rows ==> |L[j]| == cols && forall i :: 0 <= i < cols ==> L[j][i] == 1.0
  }

  /** `create_sample_leverage_grid`: a new grid on the surface's axes, all leverage 1. */
  method CreateSampleLeverageGrid(dupire: DupireSurface) returns (grid: LeverageGrid)
    ensures fresh(grid)
    ensures grid.t == dupire.t && grid.S == dupire.S
    ensures Ones(grid.L, |grid.t|, |grid.S|)
  {
    grid := new LeverageGrid(dupire.t, dupire.S, []);
    grid.L := seq(|grid.t|, _ => []);
    for i := 0 to |grid.t|
      invariant grid.t == dupire.t && grid.S == dupire.S && |grid.L| == |grid.t|
      invariant Ones(grid.L[..i], i, |grid.S|)
    {
      grid.L := grid.L[i := seq(|grid.S|, _ => 1.0)];
    }
    assert grid.L[..|grid.t|] == grid.L;
  }

  // ---------------------------------------------------------------------
  // Self-check
  // ---------------------------------------------------------------------

  /** Every node of the leading `rows x cols` block lies in [0.01, 10]. */
  predicate Reasonable(L: seq<seq<real>>, rows: nat, cols: nat)
  {
    Covers(L, rows, cols) &&
    forall j, i :: 0 <= j < rows && 0 <= i < cols ==> 0.01 <= L[j][i] <= 10.0
  }

  /**
   * The loop of `validate_slv_calibration` that inspects the leverage: false
   * at the first node below 0.01 or above 10 (a real is always finite), true
   * if there is none.
   */
  method CheckLeverage(lev: LeverageGrid) returns (ok: bool)
    requires Covers(lev.L, |lev.t|, |lev.S|)
    ensures ok <==> Reasonable(lev.L, |lev.t|, |lev.S|)
  {
    for i := 0 to |lev.t|
      invariant forall j', i' :: 0 <= j' < i && 0 <= i' < |lev.S| ==> 0.01 <= lev.L[j'][i'] <= 10.0
    {
      for j := 0 to |lev.S|
        invariant forall j', i' :: 0 <= j' < i && 0 <= i' < |lev.S| ==> 0.01 <= lev.L[j'][i'] <= 10.0
        invariant forall i' :: 0 <= i' < j ==> 0.01 <= lev.L[i][i'] <= 10.0
      {
        var lVal := lev.L[i][j];
        if lVal < 0.01 || lVal > 10.0 {
          return false;
        }
      }
    }
    return true;
  }

  /**
   * `validate_slv_calibration`: five sweeps against the sample surface, whose
   * every volatility is at least 0.05, above the 1e-6 floor, leave every
   * leverage at 1, so the check always passes.
   */
  method ValidateSlvCalibration(m: Math) returns (ok: bool)
    ensures ok
  {
    var dupire := CreateSampleDupireSurface(m);
    var leverage := CreateSampleLeverageGrid(dupire);
    var heston := HestonParams(2.0, 0.04, 0.3, -0.7, 0.04);
    ghost var L0 := leverage.L;
    forall j, i | 0 <= j < |dupire.t| && 0 <= i < |dupire.S|
      ensures ModelVolFloor <= dupire.sigma[j][i]
    {
      assert dupire.sigma[j][i] == SampleVol(m, dupire.t[j], dupire.S[i]);
    }
    CalibrateLeverageIterative(dupire, heston, leverage, 5);
    SweepKeepsGridAboveFloor(L0, leverage.L, dupire.sigma, |leverage.t|, |leverage.S|, 5);
    ok := CheckLeverage(leverage);
  }
}
