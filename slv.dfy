/**
 * `include/slv.hpp`: the Heston parameters of the stochastic-local-volatility
 * model, and the two closed-form local-volatility surfaces with their
 * conversion to the function type the pricer takes.
 */
module Slv {
  import opened Numerics

  /** Variance mean reversion speed, long-run variance, vol of variance, correlation, initial variance. */
  datatype HestonParams = HestonParams(kappa: real, theta: real, xi: real, rho: real, v0: real)

  /** The member initialisers of `HestonParams`. */
  const DefaultHeston: HestonParams := HestonParams(1.5, 0.04, 0.5, -0.7, 0.04)

  /**
   * The defaults have the strictly positive kappa, theta and xi the Andersen
   * QE step divides by, a non-negative initial variance and a correlation
   * inside [-1, 1]; they do not satisfy the Feller condition 2 kappa theta >= xi^2.
   */
  lemma DefaultHestonShape()
    ensures 0.0 < DefaultHeston.kappa && 0.0 < DefaultHeston.theta && 0.0 < DefaultHeston.xi
    ensures 0.0 <= DefaultHeston.v0 && -1.0 <= DefaultHeston.rho <= 1.0
    ensures 2.0 * DefaultHeston.kappa * DefaultHeston.theta < DefaultHeston.xi * DefaultHeston.xi
  {}

  /** `LocalVolFn`: a local volatility as a function of spot and time. */
  type LocalVolFn = (real, real) -> real

  /** The ratio floor both surfaces apply before raising to a power. */
  const RatioFloor: real := 0.000000000001

  /** `alpha * max(ratio, 1e-12)^(beta - 1)`, with ratio S / Sref, or 1 when Sref <= 0. */
  function CevFactor(m: Math, alpha: real, beta: real, sref: real, S: real): real
  {
    var ratio := if sref > 0.0 then S / sref else 1.0;
    alpha * m.pow(Max(ratio, RatioFloor), beta - 1.0)
  }

  datatype CevLocalVol = CevLocalVol(alpha: real, beta: real, sref: real)

  const DefaultCev: CevLocalVol := CevLocalVol(0.20, 1.0, 100.0)

  /**
   * `CEVLocalVol::sigma`: alpha times the floored spot ratio to the power
   * beta - 1; with beta = 1 it is alpha everywhere, and it is positive
   * whenever alpha is.
   */
  function CevSigma(m: Math, c: CevLocalVol, S: real, t: real): (s: real)
    ensures c.beta == 1.0 ==> s == c.alpha
    ensures 0.0 < c.alpha ==> 0.0 < s
  {
    CevFactor(m, c.alpha, c.beta, c.sref, S)
  }

  /** The CEV volatility does not depend on time. */
  lemma CevSigmaIgnoresTime(m: Math, c: CevLocalVol, S: real, t1: real, t2: real)
    ensures CevSigma(m, c, S, t1) == CevSigma(m, c, S, t2)
  {}

  /** Without a positive reference spot the ratio is 1 and the surface is flat. */
  lemma CevSigmaFlatWithoutReference(m: Math, c: CevLocalVol, S1: real, S2: real, t1: real, t2: real)
    requires c.sref <= 0.0
    ensures CevSigma(m, c, S1, t1) == CevSigma(m, c, S2, t2)
  {}

  /** `CEVLocalVol::to_fn`: a closure over a copy of the parameters, equal to `sigma` everywhere. */
  function CevToFn(m: Math, c: CevLocalVol): (f: LocalVolFn)
    ensures forall S, t :: f(S, t) == CevSigma(m, c, S, t)
  {
    (S, t) => CevSigma(m, c, S, t)
  }

  datatype SmileLocalVol = SmileLocalVol(alpha: real, beta: real, eta: real, zeta: real,
                                         sref: real, sigmaMin: real)

  const DefaultSmile: SmileLocalVol := SmileLocalVol(0.20, 1.0, 0.15, 0.20, 100.0, 0.01)

  /** `sqrt(max(1 + zeta t, 1e-12))`: the argument is floored, so the factor is positive for every t. */
  function TermFactor(m: Math, zeta: real, t: real): (f: real)
    ensures 0.0 < f
    ensures zeta == 0.0 ==> f == 1.0
  {
    assert zeta == 0.0 ==> Max(1.0 + zeta * t, RatioFloor) == 1.0;
    m.sqrt(Max(1.0 + zeta * t, RatioFloor))
  }

  /** The log-moneyness `log(max(S, 1e-12) / Sref)`, or 0 when Sref <= 0. */
  function LogMoneyness(m: Math, sref: real, S: real): real
  {
    if sref > 0.0 then m.log(Max(S, RatioFloor) / sref) else 0.0
  }

  /**
   * `SmileLocalVol::sigma`: the CEV level times the linear smile `1 + eta x`
   * in absolute value, times the term factor, floored at `sigma_min`.
   */
  function SmileSigma(m: Math, sv: SmileLocalVol, S: real, t: real): (s: real)
    ensures sv.sigmaMin <= s
  {
    var x := LogMoneyness(m, sv.sref, S);
    var cev := CevFactor(m, sv.alpha, sv.beta, sv.sref, S);
    var smile := 1.0 + sv.eta * x;
    var term := TermFactor(m, sv.zeta, t);
    Max(sv.sigmaMin, Abs(cev * smile) * term)
  }

  /**
   * With no smile slope and no term slope the smile surface is the CEV
   * surface with the same alpha, beta and Sref, in absolute value and
   * floored at `sigma_min`.
   */
  lemma SmileWithoutSlopesIsCev(m: Math, sv: SmileLocalVol, S: real, t: real)
    requires sv.eta == 0.0 && sv.zeta == 0.0
    ensures SmileSigma(m, sv, S, t) == Max(sv.sigmaMin, Abs(CevSigma(m, CevLocalVol(sv.alpha, sv.beta, sv.sref), S, t)))
  {
    var x := LogMoneyness(m, sv.sref, S);
    assert 1.0 + sv.eta * x == 1.0;
  }

  /** `SmileLocalVol::to_fn`: a closure over a copy of the parameters, equal to `sigma` everywhere. */
  function SmileToFn(m: Math, sv: SmileLocalVol): (f: LocalVolFn)
    ensures forall S, t :: f(S, t) == SmileSigma(m, sv, S, t)
    ensures forall S, t :: sv.sigmaMin <= f(S, t)
  {
    (S, t) => SmileSigma(m, sv, S, t)
  }
}
