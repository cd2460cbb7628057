/**
 * `src/analytic_bs.cpp`: the Black-Scholes price and Greeks of a European
 * call or put. Each formula opens with early returns for an expired option
 * and for a non-positive volatility, and otherwise evaluates the closed form
 * in d1 and d2.
 *
 * On the closed-form branch the code divides by the strike inside
 * `log(S0 / K)`; a zero strike gives an infinite d1 in double arithmetic,
 * which this model of `double` as `real` does not represent, so that branch
 * asks for a non-zero strike.
 *
 * A zero spot on that branch makes `log(S0 / K)` minus infinity, so d1 and
 * d2 are minus infinity and `N(d1) = N(d2) = 0`, `N(-d1) = N(-d2) = 1`,
 * `phi(d1) = 0`. The model states these limits as an explicit zero-spot case
 * of the price, delta, theta and rho.
 */
module AnalyticBs {
  import opened Numerics
  import opened OptionTypes

  /** The closed form applies: time left and a positive volatility. */
  predicate Regular(T: real, sigma: real)
  {
    0.0 < T && 0.0 < sigma
  }

  /** What the closed form needs of its inputs: a strike it can divide by. */
  predicate Priceable(K: real, T: real, sigma: real)
  {
    Regular(T, sigma) ==> K != 0.0
  }

  /** `d1 = (log(S0/K) + (r + sigma^2/2) T) / (sigma sqrt T)`. */
  function D1(m: Math, S0: real, K: real, r: real, T: real, sigma: real): real
    requires Regular(T, sigma) && K != 0.0
  {
    var sqrtT := RootT(m, T);
    (m.log(S0 / K) + (r + 0.5 * sigma * sigma) * T) / (sigma * sqrtT)
  }

  /** `d2 = d1 - sigma sqrt T`. */
  function D2(m: Math, S0: real, K: real, r: real, T: real, sigma: real): real
    requires Regular(T, sigma) && K != 0.0
  {
    D1(m, S0, K, r, T, sigma) - sigma * RootT(m, T)
  }

  /** The discount factor `exp(-rT)`, positive. */
  function Discount(m: Math, r: real, T: real): (df: real)
    ensures 0.0 < df
  {
    m.exp(-r * T)
  }

  /** `sqrt(T)`, positive for a positive T. */
  function RootT(m: Math, T: real): (s: real)
    ensures 0.0 < T ==> 0.0 < s
  {
    m.sqrt(T)
  }

  /** The d2 the rho formula computes on its own: `(log(S0/K) + (r - sigma^2/2) T) / (sigma sqrt T)`. */
  function RhoD2(m: Math, S0: real, K: real, r: real, T: real, sigma: real): real
    requires Regular(T, sigma) && K != 0.0
  {
    var sqrtT := RootT(m, T);
    (m.log(S0 / K) + (r - 0.5 * sigma * sigma) * T) / (sigma * sqrtT)
  }

  /**
   * `black_scholes_price`: at or past expiry the undiscounted intrinsic value;
   * with no volatility the payoff against the discounted strike; otherwise
   * the Black-Scholes formula. The first two are never negative. With a
   * zero spot the closed form's limit is a worthless call and a put worth
   * the discounted strike.
   */
  function BsPrice(m: Math, S0: real, K: real, r: real, T: real, sigma: real, kind: OptionType): (p: real)
    requires Priceable(K, T, sigma)
    ensures T <= 0.0 ==> p == Payoff(S0, K, kind)
    ensures 0.0 < T && sigma <= 0.0 ==> p == Payoff(S0, K * Discount(m, r, T), kind)
    ensures !Regular(T, sigma) ==> 0.0 <= p
    ensures Regular(T, sigma) && S0 == 0.0 && kind == Call ==> p == 0.0
    ensures Regular(T, sigma) && S0 == 0.0 && kind == Put ==> p == K * Discount(m, r, T)
  {
    if T <= 0.0 then
      var intrinsic := if kind == Call then Max(S0 - K, 0.0) else Max(K - S0, 0.0);
      intrinsic
    else if sigma <= 0.0 then
      if kind == Call then Max(S0 - K * Discount(m, r, T), 0.0)
      else Max(K * Discount(m, r, T) - S0, 0.0)
    else if S0 == 0.0 then
      if kind == Call then 0.0 else K * Discount(m, r, T)
    else
      var d1 := D1(m, S0, K, r, T, sigma);
      var d2 := D2(m, S0, K, r, T, sigma);
      if kind == Call then S0 * NormCdf(m, d1) - K * Discount(m, r, T) * NormCdf(m, d2)
      else K * Discount(m, r, T) * NormCdf(m, -d2) - S0 * NormCdf(m, -d1)
  }

  /**
   * Put-call parity: a call minus a put is the spot minus the discounted
   * strike before expiry, on both the degenerate and the closed-form branch,
   * and spot minus strike at or past expiry.
   */
  lemma BsPriceParity(m: Math, S0: real, K: real, r: real, T: real, sigma: real)
    requires Priceable(K, T, sigma)
    ensures 0.0 < T ==> BsPrice(m, S0, K, r, T, sigma, Call) - BsPrice(m, S0, K, r, T, sigma, Put)
                        == S0 - K * Discount(m, r, T)
    ensures T <= 0.0 ==> BsPrice(m, S0, K, r, T, sigma, Call) - BsPrice(m, S0, K, r, T, sigma, Put) == S0 - K
  {
    if Regular(T, sigma) && S0 != 0.0 {
      ClosedFormParity(m, S0, K, r, T, sigma);
    } else if Regular(T, sigma) {
    } else if T <= 0.0 {
      PayoffParity(S0, K);
    } else {
      PayoffParity(S0, K * Discount(m, r, T));
    }
  }

  /** Put-call parity on the closed-form branch, from N(-x) = 1 - N(x). */
  lemma ClosedFormParity(m: Math, S0: real, K: real, r: real, T: real, sigma: real)
    requires Regular(T, sigma) && K != 0.0 && S0 != 0.0
    ensures BsPrice(m, S0, K, r, T, sigma, Call) - BsPrice(m, S0, K, r, T, sigma, Put) == S0 - K * Discount(m, r, T)
  {
    var d1 := D1(m, S0, K, r, T, sigma);
    var d2 := D2(m, S0, K, r, T, sigma);
    NormCdfSymmetric(m, d1);
    NormCdfSymmetric(m, d2);
    var df := K * Discount(m, r, T);
    ParityAlgebra(S0, df, NormCdf(m, d1), NormCdf(m, d2), NormCdf(m, -d1), NormCdf(m, -d2));
  }

  /** The parity identity of the closed form, with N(-x) written as 1 - N(x). */
  lemma ParityAlgebra(S: real, df: real, a: real, b: real, aNeg: real, bNeg: real)
    requires aNeg == 1.0 - a && bNeg == 1.0 - b
    ensures (S * a - df * b) - (df * bNeg - S * aNeg) == S - df
  {
    assert S * aNeg == S - S * a;
    assert df * bNeg == df - df * b;
  }

  /**
   * `black_scholes_delta`: without time or volatility, 1 for a call in the
   * money and -1 for a put in the money, 0 otherwise; on the closed-form
   * branch N(d1) for a call and N(d1) - 1 for a put. A call's delta lies in
   * [0, 1] and a put's in [-1, 0]. With a zero spot on the closed-form
   * branch the limit is 0 for a call and -1 for a put.
   */
  function BsDelta(m: Math, S0: real, K: real, r: real, T: real, sigma: real, kind: OptionType): (d: real)
    requires Priceable(K, T, sigma)
    ensures kind == Call ==> 0.0 <= d <= 1.0
    ensures kind == Put ==> -1.0 <= d <= 0.0
    ensures !Regular(T, sigma) && kind == Call ==> (d == 1.0 <==> S0 > K) && (d == 0.0 <==> S0 <= K)
    ensures !Regular(T, sigma) && kind == Put ==> (d == -1.0 <==> S0 < K) && (d == 0.0 <==> K <= S0)
    ensures Regular(T, sigma) && S0 == 0.0 ==> d == (if kind == Call then 0.0 else -1.0)
  {
    if sigma <= 0.0 || T <= 0.0 then
      if kind == Call then (if S0 > K then 1.0 else 0.0)
      else (if S0 < K then -1.0 else 0.0)
    else if S0 == 0.0 then
      if kind == Call then 0.0 else -1.0
    else
      var d1 := D1(m, S0, K, r, T, sigma);
      if kind == Call then NormCdf(m, d1) else NormCdf(m, d1) - 1.0
  }

  /**
   * A put's delta is the call's minus 1, everywhere except an at-the-money
   * option without time or volatility, where both are 0.
   */
  lemma BsDeltaParity(m: Math, S0: real, K: real, r: real, T: real, sigma: real)
    requires Priceable(K, T, sigma)
    ensures BsDelta(m, S0, K, r, T, sigma, Put) == BsDelta(m, S0, K, r, T, sigma, Call) - 1.0
            <==> Regular(T, sigma) || S0 != K
  {}

  /**
   * `black_scholes_gamma`: 0 without volatility, time or a positive spot;
   * otherwise `phi(d1) / (S0 sigma sqrt T)`, which is positive. It takes no
   * option type: a call and a put have the same gamma.
   */
  function BsGamma(m: Math, S0: real, K: real, r: real, T: real, sigma: real): (g: real)
    requires Priceable(K, T, sigma)
    ensures !Regular(T, sigma) || S0 <= 0.0 ==> g == 0.0
  {
    if sigma <= 0.0 || T <= 0.0 || S0 <= 0.0 then 0.0
    else
      var sqrtT := RootT(m, T);
      var d1 := D1(m, S0, K, r, T, sigma);
      var phiD1 := NormPdf(m, d1);
      phiD1 / (S0 * sigma * sqrtT)
  }

  /**
   * `black_scholes_vega`: 0 without volatility, time or a positive spot;
   * otherwise `S0 phi(d1) sqrt T`, which is positive; the same for calls and puts.
   */
  function BsVega(m: Math, S0: real, K: real, r: real, T: real, sigma: real): (v: real)
    requires Priceable(K, T, sigma)
    ensures !Regular(T, sigma) || S0 <= 0.0 ==> v == 0.0
  {
    if sigma <= 0.0 || T <= 0.0 || S0 <= 0.0 then 0.0
    else
      var sqrtT := RootT(m, T);
      var d1 := D1(m, S0, K, r, T, sigma);
      var phiD1 := NormPdf(m, d1);
      S0 * phiD1 * sqrtT
  }

  /** Gamma and vega are positive on the closed-form branch with a positive spot. */
  lemma BsGammaVegaPositive(m: Math, S0: real, K: real, r: real, T: real, sigma: real)
    requires Regular(T, sigma) && K != 0.0 && 0.0 < S0
    ensures 0.0 < BsGamma(m, S0, K, r, T, sigma)
    ensures 0.0 < BsVega(m, S0, K, r, T, sigma)
  {
    var sqrtT := RootT(m, T);
    var phiD1 := NormPdf(m, D1(m, S0, K, r, T, sigma));
    ProductPositive(S0, sigma);
    ProductPositive(S0 * sigma, sqrtT);
    ProductPositive(S0, phiD1);
    ProductPositive(S0 * phiD1, sqrtT);
  }

  /**
   * `black_scholes_theta`: 0 at or past expiry; without volatility
   * `-r exp(-rT)` times the intrinsic value; otherwise the closed form, whose
   * limit at a zero spot is 0 for a call and `r K exp(-rT)` for a put.
   */
  function BsTheta(m: Math, S0: real, K: real, r: real, T: real, sigma: real, kind: OptionType): (th: real)
    requires Priceable(K, T, sigma)
    ensures T <= 0.0 ==> th == 0.0
    ensures 0.0 < T && sigma <= 0.0 ==> th == -r * Discount(m, r, T) * Payoff(S0, K, kind)
    ensures Regular(T, sigma) && S0 == 0.0 && kind == Call ==> th == 0.0
    ensures Regular(T, sigma) && S0 == 0.0 && kind == Put ==> th == r * K * Discount(m, r, T)
  {
    if T <= 0.0 then 0.0
    else if sigma <= 0.0 then
      var intrinsic := if kind == Call then Max(S0 - K, 0.0) else Max(K - S0, 0.0);
      -r * Discount(m, r, T) * intrinsic
    else if S0 == 0.0 then
      if kind == Call then 0.0 else r * K * Discount(m, r, T)
    else
      var sqrtT := RootT(m, T);
      var d1 := D1(m, S0, K, r, T, sigma);
      var d2 := D1(m, S0, K, r, T, sigma) - sigma * sqrtT;
      var phiD1 := NormPdf(m, d1);
      if kind == Call then (-S0 * phiD1 * sigma) / (2.0 * sqrtT) - r * K * Discount(m, r, T) * NormCdf(m, d2)
      else (-S0 * phiD1 * sigma) / (2.0 * sqrtT) + r * K * Discount(m, r, T) * NormCdf(m, -d2)
  }

  /** On the closed-form branch a call's theta minus a put's is `-r K exp(-rT)`, the decay of the forward. */
  lemma BsThetaParity(m: Math, S0: real, K: real, r: real, T: real, sigma: real)
    requires Regular(T, sigma) && K != 0.0
    ensures BsTheta(m, S0, K, r, T, sigma, Call) - BsTheta(m, S0, K, r, T, sigma, Put)
            == -r * K * Discount(m, r, T)
  {
    if S0 != 0.0 {
      var d2 := D2(m, S0, K, r, T, sigma);
      NormCdfSymmetric(m, d2);
      var rk := r * K * Discount(m, r, T);
      assert rk * NormCdf(m, d2) + rk * NormCdf(m, -d2) == rk;
    }
  }

  /** Without volatility and with a non-negative rate, theta is never positive. */
  lemma BsThetaDegenerateSign(m: Math, S0: real, K: real, r: real, T: real, sigma: real, kind: OptionType)
    requires 0.0 < T && sigma <= 0.0 && 0.0 <= r
    ensures BsTheta(m, S0, K, r, T, sigma, kind) <= 0.0
  {
    ProductNonNegative(r * Discount(m, r, T), Payoff(S0, K, kind));
  }

  /**
   * `black_scholes_rho`: 0 at or past expiry; without volatility `T exp(-rT)`
   * times the intrinsic value, which is never negative for calls and puts
   * alike; otherwise `K T exp(-rT) N(d2)` for a call and its negative at
   * `N(-d2)` for a put, with d2 computed from `r - sigma^2/2`. With a
   * non-negative strike a call's rho is never negative. The closed form's
   * limit at a zero spot is 0 for a call and `-K T exp(-rT)` for a put.
   */
  function BsRho(m: Math, S0: real, K: real, r: real, T: real, sigma: real, kind: OptionType): (rho: real)
    requires Priceable(K, T, sigma)
    ensures T <= 0.0 ==> rho == 0.0
    ensures 0.0 < T && sigma <= 0.0 ==> rho == T * Discount(m, r, T) * Payoff(S0, K, kind)
    ensures Regular(T, sigma) && S0 == 0.0 && kind == Call ==> rho == 0.0
    ensures Regular(T, sigma) && S0 == 0.0 && kind == Put ==> rho == -K * T * Discount(m, r, T)
  {
    if T <= 0.0 then 0.0
    else if sigma <= 0.0 then
      var intrinsic := if kind == Call then Max(S0 - K, 0.0) else Max(K - S0, 0.0);
      T * Discount(m, r, T) * intrinsic
    else if S0 == 0.0 then
      if kind == Call then 0.0 else -K * T * Discount(m, r, T)
    else
      var d2 := RhoD2(m, S0, K, r, T, sigma);
      if kind == Call then K * T * Discount(m, r, T) * NormCdf(m, d2)
      else -K * T * Discount(m, r, T) * NormCdf(m, -d2)
  }

  /** On the closed-form branch a call's rho minus a put's is `K T exp(-rT)`. */
  lemma BsRhoParity(m: Math, S0: real, K: real, r: real, T: real, sigma: real)
    requires Regular(T, sigma) && K != 0.0
    ensures BsRho(m, S0, K, r, T, sigma, Call) - BsRho(m, S0, K, r, T, sigma, Put) == K * T * Discount(m, r, T)
  {
    if S0 != 0.0 {
      var d2 := RhoD2(m, S0, K, r, T, sigma);
      NormCdfSymmetric(m, d2);
      var w := K * T * Discount(m, r, T);
      assert w * NormCdf(m, -d2) == w - w * NormCdf(m, d2);
    }
  }

  /**
   * With a non-negative strike a call's rho is never negative, and before
   * expiry a put's is never positive on the closed-form branch but never
   * negative without volatility, where the code takes `T exp(-rT)` times the
   * intrinsic value for both types.
   */
  lemma BsRhoSign(m: Math, S0: real, K: real, r: real, T: real, sigma: real)
    requires Priceable(K, T, sigma) && 0.0 <= K
    ensures 0.0 <= BsRho(m, S0, K, r, T, sigma, Call)
    ensures Regular(T, sigma) ==> BsRho(m, S0, K, r, T, sigma, Put) <= 0.0
    ensures !Regular(T, sigma) ==> 0.0 <= BsRho(m, S0, K, r, T, sigma, Put)
  {
    if T <= 0.0 {
    } else if sigma <= 0.0 {
      ProductNonNegative(T * Discount(m, r, T), Payoff(S0, K, Call));
      ProductNonNegative(T * Discount(m, r, T), Payoff(S0, K, Put));
    } else {
      var d2 := RhoD2(m, S0, K, r, T, sigma);
      var w := K * T * Discount(m, r, T);
      ProductNonNegative(K * T, Discount(m, r, T));
      ProductNonNegative(w, NormCdf(m, d2));
      ProductNonNegative(w, NormCdf(m, -d2));
    }
  }
}
