/**
 * `src/slv.cpp`: the stochastic-local-volatility Monte Carlo pricer. Every
 * path starts from S0 and the floored initial variance and runs `num_steps`
 * steps; a step draws a correlated normal pair, moves the variance by
 * truncated Euler or by Andersen's quadratic-exponential scheme, and moves
 * the spot by a log-Euler step scaled by the local volatility. One generator,
 * seeded once, feeds every path in order.
 *
 * The loops are methods; each is proved equal to a recursive function of the
 * generator's draws (`PathAfter`, `Accumulate`, `SlvPriceOf`), and the
 * properties of the pricer are proved about those functions.
 */
module SlvPricing {
  import opened Numerics
  import opened OptionTypes
  import opened MathUtils
  import opened Slv
  import opened MonteCarlo
  import Stats

  /** The arguments of `mc_slv_price` other than the seed, which picks the engine. */
  datatype SlvInputs = SlvInputs(S0: real, K: real, r: real, T: real,
                                 numPaths: int, numSteps: int, kind: OptionType,
                                 heston: HestonParams, localVol: LocalVolFn,
                                 antithetic: bool, andersenQe: bool)

  /** The number of loop iterations a signed `long` bound gives. */
  function Iterations(bound: int): nat
  {
    if bound < 0 then 0 else bound
  }

  /** `T / num_steps`; only read inside the step loop, so when `num_steps > 0`. */
  function Dt(c: SlvInputs): real
  {
    if c.numSteps == 0 then 0.0 else c.T / c.numSteps as real
  }

  /**
   * The QE step divides by kappa, by the squared conditional mean and by
   * quantities derived from them; it is well defined when kappa, theta and
   * xi are positive and the time step is positive.
   */
  predicate QeWellDefined(c: SlvInputs)
  {
    c.andersenQe && c.numSteps > 0 ==>
      0.0 < c.heston.kappa && 0.0 < c.heston.theta && 0.0 < c.heston.xi && 0.0 < c.T
  }

  /** The inputs the pricer is defined on. */
  type SlvRun = c: SlvInputs | QeWellDefined(c)
    witness SlvInputs(0.0, 0.0, 0.0, 0.0, 0, 0, Call, DefaultHeston, (S, t) => 0.0, false, false)

  lemma PositiveStep(c: SlvInputs)
    requires c.numSteps > 0 && 0.0 < c.T
    ensures 0.0 < Dt(c)
  {}

  // ---------------------------------------------------------------------
  // One variance step
  // ---------------------------------------------------------------------

  /** Truncated Euler: the raw update `v + kappa (theta - v+) dt + xi sqrt(v+) dW2`, floored at 0. */
  function EulerVariance(m: Math, h: HestonParams, dt: real, v: real, z2: real): (vNext: real)
    ensures 0.0 <= vNext
  {
    var dW2 := z2 * m.sqrt(dt);
    var vSqrt := m.sqrt(Max(v, 0.0));
    var vRaw := v + h.kappa * (h.theta - Max(v, 0.0)) * dt + h.xi * vSqrt * dW2;
    Max(vRaw, 0.0)
  }

  /** `exp(-kappa dt)`, strictly between 0 and 1. */
  function Decay(m: Math, kappa: real, dt: real): (e: real)
    requires 0.0 < kappa && 0.0 < dt
    ensures 0.0 < e < 1.0
  {
    ProductPositive(kappa, dt);
    ExpSign(m, -kappa * dt);
    m.exp(-kappa * dt)
  }

  /** The conditional mean `theta + (v - theta) e`: a mix of theta and v, so positive. */
  function QeMean(theta: real, v: real, e: real): (mu: real)
    requires 0.0 < theta && 0.0 <= v && 0.0 < e < 1.0
    ensures 0.0 < mu
  {
    assert theta + (v - theta) * e == theta * (1.0 - e) + v * e;
    ProductPositive(theta, 1.0 - e);
    ProductNonNegative(v, e);
    theta + (v - theta) * e
  }

  /**
   * The conditional variance `s2` of the QE scheme, the mean-reversion part
   * plus the long-run part; positive.
   */
  function QeSpread(h: HestonParams, v: real, e: real): (s2: real)
    requires 0.0 < h.kappa && 0.0 < h.theta && 0.0 < h.xi && 0.0 <= v && 0.0 < e < 1.0
    ensures 0.0 < s2
  {
    ReversionPart(v, Square(h.xi), e, h.kappa) + LongRunPart(h.theta, Square(h.xi), e, h.kappa)
  }

  /** `v xi^2 e (1 - e) / kappa`, with q = xi^2. */
  function ReversionPart(v: real, q: real, e: real, kappa: real): (r: real)
    requires 0.0 <= v && 0.0 < q && 0.0 < e < 1.0 && 0.0 < kappa
    ensures 0.0 <= r
  {
    ProductNonNegative(v, q);
    ProductNonNegative(v * q, e);
    ProductNonNegative(v * q * e, 1.0 - e);
    v * q * e * (1.0 - e) / kappa
  }

  /** `theta xi^2 / (2 kappa) (1 - e)^2`, with q = xi^2. */
  function LongRunPart(theta: real, q: real, e: real, kappa: real): (r: real)
    requires 0.0 < theta && 0.0 < q && 0.0 < e < 1.0 && 0.0 < kappa
    ensures 0.0 < r
  {
    ProductPositive(theta, q);
    ProductPositive(theta * q * 0.5 / kappa, 1.0 - e);
    ProductPositive(theta * q * 0.5 / kappa * (1.0 - e), 1.0 - e);
    theta * q * 0.5 / kappa * (1.0 - e) * (1.0 - e)
  }

  /** The QE uniform `0.5 (z2 + 1)`, clamped into [1e-6, 1 - 1e-6] before branching. */
  function QeUniform(z2: real): (u: real)
    ensures 0.000001 <= u <= 1.0 - 0.000001
    ensures 0.000001 <= 0.5 * (z2 + 1.0) <= 1.0 - 0.000001 ==> u == 0.5 * (z2 + 1.0)
  {
    Min(Max(0.5 * (z2 + 1.0), 0.000001), 1.0 - 0.000001)
  }

  /**
   * The quadratic branch, for psi < 1.5: `a (sqrt(b2) + sqrt(chi2))^2` with
   * `a = m / (1 + b2)` and `chi2` the square of a fresh normal draw.
   */
  function QeQuadratic(m: Math, mu: real, psi: real, chi: real): (vNext: real)
    requires 0.0 < mu && 0.0 < psi < 1.5
    ensures 0.0 <= vNext
  {
    var twoOverPsi := 2.0 / psi;
    assert 1.0 < twoOverPsi by {
      assert psi * twoOverPsi == 2.0;
    }
    ProductNonNegative(m.sqrt(twoOverPsi), m.sqrt(twoOverPsi - 1.0));
    var b2 := twoOverPsi - 1.0 + m.sqrt(twoOverPsi) * m.sqrt(twoOverPsi - 1.0);
    var a := mu / (1.0 + b2);
    var root := m.sqrt(b2) + m.sqrt(chi * chi);
    QuadraticNonNegative(a, root);
    a * root * root
  }

  lemma QuadraticNonNegative(a: real, x: real)
    requires 0.0 < a
    ensures 0.0 <= a * x * x
  {
    if 0.0 <= x {
      ProductNonNegative(a * x, x);
    } else {
      assert a * x * x == a * (-x) * (-x);
      ProductNonNegative(a * (-x), -x);
    }
  }

  /**
   * The exponential branch, for psi >= 1.5: 0 unless U exceeds
   * `p = (psi - 1) / (psi + 1)`, else `-log((1 - U) / (1 - p)) / beta` with
   * `beta = (1 - p) / m`.
   */
  function QeExponential(m: Math, mu: real, psi: real, u: real): (vNext: real)
    requires 0.0 < mu && 1.5 <= psi && u < 1.0
    ensures 0.0 <= vNext
  {
    var p := (psi - 1.0) / (psi + 1.0);
    assert p < 1.0;
    var beta := (1.0 - p) / mu;
    assert 0.0 < beta;
    if u > p then
      var ratio := (1.0 - u) / (1.0 - p);
      QuotientInUnit(1.0 - u, 1.0 - p);
      LogSign(m, ratio);
      NonNegativeOverPositive(-m.log(ratio), beta);
      -m.log(ratio) / beta
    else 0.0
  }

  lemma QuotientInUnit(a: real, b: real)
    requires 0.0 < a <= b
    ensures 0.0 < a / b <= 1.0
  {}

  lemma NonNegativeOverPositive(a: real, b: real)
    requires 0.0 <= a && 0.0 < b
    ensures 0.0 <= a / b
  {}

  /**
   * Andersen's QE step: the new variance and the draw position after it. The
   * quadratic branch takes one more normal draw, which is squared.
   */
  function QeOutcome(m: Math, h: HestonParams, dt: real, v: real, z2: real, e: Engine, pos: nat): (o: (real, nat))
    requires 0.0 < h.kappa && 0.0 < h.theta && 0.0 < h.xi && 0.0 < dt && 0.0 <= v
    ensures 0.0 <= o.0
    ensures o.1 == pos || o.1 == pos + 1
  {
    var mp := QeMoments(m, h, dt, v);
    if mp.1 < 1.5 then
      var chi := e.gauss(pos);
      (QeQuadratic(m, mp.0, mp.1, chi), pos + 1)
    else
      (QeExponential(m, mp.0, mp.1, QeUniform(z2)), pos)
  }

  /** The conditional mean m and `psi = s2 / m^2`, both positive. */
  function QeMoments(m: Math, h: HestonParams, dt: real, v: real): (mp: (real, real))
    requires 0.0 < h.kappa && 0.0 < h.theta && 0.0 < h.xi && 0.0 < dt && 0.0 <= v
    ensures 0.0 < mp.0 && 0.0 < mp.1
  {
    var decay := Decay(m, h.kappa, dt);
    var mu := QeMean(h.theta, v, decay);
    var s2 := QeSpread(h, v, decay);
    ProductPositive(mu, mu);
    (mu, s2 / (mu * mu))
  }

  // ---------------------------------------------------------------------
  // One spot step and one path
  // ---------------------------------------------------------------------

  /** The log-Euler step `S exp((r - vol^2 / 2) dt + vol z1 sqrt(dt))`, `vol = lv(S, n dt) sqrt(v+)`. */
  function SpotStep(m: Math, c: SlvInputs, dt: real, n: nat, S: real, v: real, z1: real): (sNext: real)
    ensures 0.0 < S ==> 0.0 < sNext
  {
    var sigmaLoc := c.localVol(S, n as real * dt);
    var volInst := sigmaLoc * m.sqrt(Max(v, 0.0));
    var dW1 := z1 * m.sqrt(dt);
    var drift := (c.r - 0.5 * volInst * volInst) * dt;
    var diff := volInst * dW1;
    var growth := m.exp(drift + diff);
    ScalePositive(S, growth);
    S * growth
  }

  /** The state a path carries: spot, variance and the generator's draw position. */
  datatype PathState = PathState(S: real, v: real, taken: nat)

  /**
   * Step `n` of a path: a correlated pair (negated on the antithetic path),
   * the variance step, then the spot step with the new variance.
   */
  function Step(m: Math, c: SlvRun, e: Engine, flipped: bool, n: nat, st: PathState): (next: PathState)
    requires n < Iterations(c.numSteps) && 0.0 <= st.v
    ensures 0.0 <= next.v
    ensures 0.0 < st.S ==> 0.0 < next.S
    ensures next.taken == st.taken + 2 || (c.andersenQe && next.taken == st.taken + 3)
  {
    var dt := Dt(c);
    var z := Correlate(m, c.heston.rho, e.gauss(st.taken), e.gauss(st.taken + 1));
    var z1 := if flipped then -z.0 else z.0;
    var z2 := if flipped then -z.1 else z.1;
    var vo := if c.andersenQe then (PositiveStep(c); QeOutcome(m, c.heston, dt, st.v, z2, e, st.taken + 2))
              else (EulerVariance(m, c.heston, dt, st.v, z2), st.taken + 2);
    PathState(SpotStep(m, c, dt, n, st.S, vo.0, z1), vo.0, vo.1)
  }

  /** The initial variance `max(v0, 1e-12)`. */
  const VarianceFloor: real := 0.000000000001

  /**
   * The state after `k` steps of a path whose first draw is at `start`: the
   * variance is never negative, the spot stays positive from a positive S0,
   * and truncated Euler takes exactly two draws per step.
   */
  function PathAfter(m: Math, c: SlvRun, e: Engine, flipped: bool, start: nat, k: nat): (st: PathState)
    requires k <= Iterations(c.numSteps)
    ensures 0.0 <= st.v
    ensures 0.0 < c.S0 ==> 0.0 < st.S
    ensures start + 2 * k <= st.taken
    ensures !c.andersenQe ==> st.taken == start + 2 * k
  {
    if k == 0 then PathState(c.S0, Max(c.heston.v0, VarianceFloor), start)
    else Step(m, c, e, flipped, k - 1, PathAfter(m, c, e, flipped, start, k - 1))
  }

  /** The payoff at the end of a whole path whose first draw is at `pos`, and the draw position after it. */
  function PathPayoff(m: Math, c: SlvRun, e: Engine, flipped: bool, pos: nat): (pp: (real, nat))
    ensures 0.0 <= pp.0
    ensures !c.andersenQe ==> pp.1 == pos + 2 * Iterations(c.numSteps)
  {
    var last := PathAfter(m, c, e, flipped, pos, Iterations(c.numSteps));
    (Payoff(last.S, c.K, c.kind), last.taken)
  }

  /** One sample: the payoff of a path, or with antithetics the mean of it and a negated partner path. */
  function Sample(m: Math, c: SlvRun, e: Engine, pos: nat): (s: (real, nat))
    ensures 0.0 <= s.0
    ensures !c.andersenQe ==> s.1 == pos + (if c.antithetic then 4 else 2) * Iterations(c.numSteps)
  {
    var first := PathPayoff(m, c, e, false, pos);
    if c.antithetic then
      var second := PathPayoff(m, c, e, true, first.1);
      (0.5 * (first.0 + second.0), second.1)
    else first
  }

  /** The running sums `sum`, `sum2` and the draw position after `i` samples. */
  function Accumulate(m: Math, c: SlvRun, e: Engine, i: nat): (acc: (real, real, nat))
    ensures 0.0 <= acc.0 && 0.0 <= acc.1
  {
    if i == 0 then (0.0, 0.0, 0)
    else
      var prev := Accumulate(m, c, e, i - 1);
      var s := Sample(m, c, e, prev.2);
      (prev.0 + s.0, prev.1 + Square(s.0), s.1)
  }

  /**
   * With truncated Euler every sample takes the same number of draws: two
   * per step, on one path or, with antithetics, on two.
   */
  lemma {:induction false} EulerDrawCount(m: Math, c: SlvRun, e: Engine, i: nat)
    requires !c.andersenQe
    ensures Accumulate(m, c, e, i).2 == i * ((if c.antithetic then 4 else 2) * Iterations(c.numSteps))
  {
    if i > 0 {
      EulerDrawCount(m, c, e, i - 1);
      var q := (if c.antithetic then 4 else 2) * Iterations(c.numSteps);
      assert (i - 1) * q + q == i * q;
    }
  }

  /**
   * `mc_slv_price`: None where the source divides 0 by 0 (no paths);
   * otherwise the discounted mean of the samples and the discounted
   * standard error from the variance estimate clamped at 0. The Greeks,
   * the path count, the step count and the seed keep their zero defaults.
   */
  function SlvPriceOf(m: Math, c: SlvRun, e: Engine): (res: Option<Stats.MCResult>)
    ensures res.None? <==> c.numPaths == 0
    ensures res.Some? ==> 0.0 <= res.value.price && 0.0 <= res.value.stdError
    ensures res.Some? ==> res.value == Stats.DefaultResult.(price := res.value.price, stdError := res.value.stdError)
  {
    var acc := Accumulate(m, c, e, Iterations(c.numPaths));
    Estimate(m, c, acc.0, acc.1)
  }

  /** The epilogue after the path loop, from the two running sums. */
  function Estimate(m: Math, c: SlvRun, sum: real, sum2: real): (res: Option<Stats.MCResult>)
    requires 0.0 <= sum
    requires c.numPaths < 0 ==> sum == 0.0 && sum2 == 0.0
    ensures res.None? <==> c.numPaths == 0
    ensures res.Some? ==> 0.0 <= res.value.price && 0.0 <= res.value.stdError
    ensures res.Some? ==> res.value == Stats.DefaultResult.(price := res.value.price, stdError := res.value.stdError)
  {
    if c.numPaths == 0 then None
    else
      var disc := m.exp(-c.r * c.T);
      var mv := SampleMoments(c.numPaths, sum, sum2);
      DiscountedEstimateNonNegative(m, disc, c.numPaths, sum, sum2);
      Some(Stats.DefaultResult.(price := disc * mv.0, stdError := disc * StandardErrorOf(m, c.numPaths, mv.1)))
  }

  /** One more sample adds its payoff and its square to the sums. */
  /** `sum`, `sum2` and the draw position are those after `i` samples. */
  ghost predicate SumsAfter(m: Math, c: SlvRun, e: Engine, i: nat, sum: real, sum2: real, pos: nat)
  {
    (sum, sum2, pos) == Accumulate(m, c, e, i)
  }

  lemma AccumulateNext(m: Math, c: SlvRun, e: Engine, i: nat, sum: real, sum2: real, pos: nat, p: real, posNext: nat)
    requires SumsAfter(m, c, e, i, sum, sum2, pos)
    requires (p, posNext) == Sample(m, c, e, pos)
    ensures SumsAfter(m, c, e, i + 1, sum + p, sum2 + Square(p), posNext)
  {}

  // ---------------------------------------------------------------------
  // The loops
  // ---------------------------------------------------------------------

  /** The QE step as written: the extra normal is drawn only in the quadratic branch. */
  method AndersenQeStep(m: Math, h: HestonParams, dt: real, v: real, z2: real, rng: Rng) returns (vNext: real)
    requires 0.0 < h.kappa && 0.0 < h.theta && 0.0 < h.xi && 0.0 < dt && 0.0 <= v
    modifies rng
    ensures (vNext, rng.taken) == QeOutcome(m, h, dt, v, z2, rng.engine, old(rng.taken))
  {
    ghost var outcome := QeOutcome(m, h, dt, v, z2, rng.engine, rng.taken);
    var mp := QeMoments(m, h, dt, v);
    if mp.1 < 1.5 {
      var chi := rng.Gauss();
      vNext := QeQuadratic(m, mp.0, mp.1, chi);
    } else {
      vNext := QeExponential(m, mp.0, mp.1, QeUniform(z2));
    }
    assert (vNext, rng.taken) == outcome;
  }

  /** `one_path` and the antithetic loop body: `num_steps` steps from S0, then the payoff. */
  method SimulatePath(m: Math, c: SlvRun, rng: Rng, flipped: bool) returns (payoff: real)
    modifies rng
    ensures (payoff, rng.taken) == PathPayoff(m, c, rng.engine, flipped, old(rng.taken))
  {
    var S, v := RunSteps(m, c, rng, flipped);
    payoff := Payoff(S, c.K, c.kind);
  }

  /** The step loop of one path, from S0 and the floored initial variance. */
  method RunSteps(m: Math, c: SlvRun, rng: Rng, flipped: bool) returns (S: real, v: real)
    modifies rng
    ensures PathState(S, v, rng.taken) == PathAfter(m, c, rng.engine, flipped, old(rng.taken), Iterations(c.numSteps))
  {
    ghost var start, e := rng.taken, rng.engine;
    S := c.S0;
    v := Max(c.heston.v0, VarianceFloor);
    var steps := Iterations(c.numSteps);
    for n := 0 to steps
      invariant PathState(S, v, rng.taken) == PathAfter(m, c, e, flipped, start, n)
    {
      S, v := AdvanceStep(m, c, rng, flipped, start, n, S, v);
    }
  }

  /** The body of the step loop, as the move from the state after `n` steps to the state after `n + 1`. */
  method AdvanceStep(m: Math, c: SlvRun, rng: Rng, flipped: bool, ghost start: nat, n: nat, S: real, v: real)
    returns (sNext: real, vNext: real)
    requires n < Iterations(c.numSteps)
    requires PathState(S, v, rng.taken) == PathAfter(m, c, rng.engine, flipped, start, n)
    modifies rng
    ensures PathState(sNext, vNext, rng.taken) == PathAfter(m, c, rng.engine, flipped, start, n + 1)
  {
    sNext, vNext := TakeStep(m, c, rng, flipped, n, S, v);
  }

  /** One step: the correlated draws, the variance update, then the spot update. */
  method TakeStep(m: Math, c: SlvRun, rng: Rng, flipped: bool, n: nat, S: real, v: real)
    returns (sNext: real, vNext: real)
    requires n < Iterations(c.numSteps) && 0.0 <= v
    modifies rng
    ensures PathState(sNext, vNext, rng.taken) == Step(m, c, rng.engine, flipped, n, PathState(S, v, old(rng.taken)))
  {
    var dt := Dt(c);
    var z1, z2 := CorrelatedGaussians(m, c.heston.rho, rng);
    if flipped {
      z1, z2 := -z1, -z2;
    }
    if c.andersenQe {
      PositiveStep(c);
      vNext := AndersenQeStep(m, c.heston, dt, v, z2, rng);
    } else {
      vNext := EulerVariance(m, c.heston, dt, v, z2);
    }
    sNext := SpotStep(m, c, dt, n, S, vNext, z1);
  }

  /** The body of the path loop: a path, and with antithetics its negated partner. */
  method DrawSample(m: Math, c: SlvRun, rng: Rng) returns (p: real)
    modifies rng
    ensures (p, rng.taken) == Sample(m, c, rng.engine, old(rng.taken))
  {
    p := SimulatePath(m, c, rng, false);
    if c.antithetic {
      var pa := SimulatePath(m, c, rng, true);
      p := 0.5 * (p + pa);
    }
  }

  /** `mc_slv_price` with the generator `RNG(seed)` given as its engine. */
  method SlvPrice(m: Math, c: SlvRun, engine: Engine) returns (res: Option<Stats.MCResult>)
    ensures res == SlvPriceOf(m, c, engine)
  {
    var rng := new Rng(engine);
    var sum, sum2 := RunPaths(m, c, rng);
    res := Estimate(m, c, sum, sum2);
  }

  /** The path loop: `num_paths` samples added to the running sums. */
  method RunPaths(m: Math, c: SlvRun, rng: Rng) returns (sum: real, sum2: real)
    requires rng.taken == 0
    modifies rng
    ensures (sum, sum2, rng.taken) == Accumulate(m, c, rng.engine, Iterations(c.numPaths))
  {
    sum, sum2 := 0.0, 0.0;
    var i: nat := 0;
    ghost var paths := Iterations(c.numPaths);
    while i < c.numPaths
      invariant i <= paths
      invariant SumsAfter(m, c, rng.engine, i, sum, sum2, rng.taken)
    {
      sum, sum2 := AdvancePath(m, c, rng, i, sum, sum2);
      i := i + 1;
    }
    assert i == paths;
  }

  /** The body of the path loop: one more sample added to the sums. */
  method AdvancePath(m: Math, c: SlvRun, rng: Rng, i: nat, sum: real, sum2: real) returns (sumNext: real, sum2Next: real)
    requires SumsAfter(m, c, rng.engine, i, sum, sum2, rng.taken)
    modifies rng
    ensures SumsAfter(m, c, rng.engine, i + 1, sumNext, sum2Next, rng.taken)
  {
    ghost var pos := rng.taken;
    var p := DrawSample(m, c, rng);
    AccumulateNext(m, c, rng.engine, i, sum, sum2, pos, p, rng.taken);
    sumNext := sum + p;
    sum2Next := sum2 + Square(p);
  }

  /** `mc_slv_multi_seeds`: one result per seed, in seed order, each priced with its own generator. */
  method SlvMultiSeeds(m: Math, c: SlvRun, seeds: seq<bv64>, engineOf: bv64 -> Engine)
    returns (out: seq<Option<Stats.MCResult>>)
    ensures |out| == |seeds|
    ensures forall k :: 0 <= k < |seeds| ==> out[k] == SlvPriceOf(m, c, engineOf(seeds[k]))
  {
    out := [];
    for k := 0 to |seeds|
      invariant |out| == k
      invariant forall j :: 0 <= j < k ==> out[j] == SlvPriceOf(m, c, engineOf(seeds[j]))
    {
      var res := SlvPrice(m, c, engineOf(seeds[k]));
      out := out + [res];
    }
  }
}
