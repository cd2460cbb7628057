/**
 * `examples/risk_management.cpp`: the Greeks of an option portfolio. A
 * position is a quantity of calls or puts (a strike of 0 stands for shares
 * of the underlying); its Greeks are the Black-Scholes values per unit
 * times the quantity, and the portfolio's are their sum. Around this sit a
 * stress test that reprices every position under spot, volatility and
 * time shocks, and a one-day value-at-risk whose P&L draws are sorted and
 * read off at the 5% and 1% quantiles.
 *
 * The Gaussian draws of the random generator are an input sequence; the
 * console report is not modelled.
 */
module RiskManagement {
  import opened Numerics
  import opened OptionTypes
  import opened AnalyticBs
  import opened Stats
  import opened Text

  /** A position: `quantity` options of one strike and expiry, or shares when the strike is 0. */
  datatype Position = Position(strike: real, timeToExpiry: real, impliedVol: real, quantity: int, kind: OptionType)

  function AbsInt(i: int): nat { if i < 0 then -i else i }

  /**
   * `Position::description`: "Long" for a positive quantity and "Short"
   * otherwise, then the size, the type and the strike truncated to an integer.
   */
  function Description(p: Position): (d: string)
    ensures p.quantity > 0 ==> StartsWith(d, "Long ")
    ensures p.quantity <= 0 ==> StartsWith(d, "Short ")
  {
    var typeStr := if p.kind == Call then "Call" else "Put";
    var posStr := if p.quantity > 0 then "Long" else "Short";
    posStr + " " + IntToString(AbsInt(p.quantity)) + " " + typeStr + " " + IntToString(Trunc(p.strike))
  }

  /** The size in a description is the digits of the absolute quantity, and reads back as it. */
  lemma DescriptionSize(p: Position)
    ensures var d := Description(p);
            var start := if p.quantity > 0 then 5 else 6;
            var digits := NatToString(AbsInt(p.quantity));
            start + |digits| < |d| && d[start..start + |digits|] == digits && d[start + |digits|] == ' ' &&
            DecimalValue(d[start..start + |digits|]) == AbsInt(p.quantity)
  {
    var typeStr := if p.kind == Call then "Call" else "Put";
    var posStr := if p.quantity > 0 then "Long" else "Short";
    var digits := NatToString(AbsInt(p.quantity));
    var rest := " " + typeStr + " " + IntToString(Trunc(p.strike));
    assert IntToString(AbsInt(p.quantity)) == digits;
    assert Description(p) == (posStr + " ") + digits + rest;
    assert |posStr + " "| == if p.quantity > 0 then 5 else 6;
    MiddleOfConcat(posStr + " ", digits, rest);
    NatToStringRoundTrip(AbsInt(p.quantity));
  }

  lemma MiddleOfConcat(a: string, b: string, c: string)
    requires |c| > 0
    ensures (a + b + c)[|a|..|a| + |b|] == b && (a + b + c)[|a| + |b|] == c[0]
  {}

  // ---------------------------------------------------------------------
  // Greeks of positions and portfolios
  // ---------------------------------------------------------------------

  /** The six figures of `PortfolioGreeks`, as a value. */
  datatype Greeks = Greeks(delta: real, gamma: real, vega: real, theta: real, rho: real, value: real)

  const NoGreeks: Greeks := Greeks(0.0, 0.0, 0.0, 0.0, 0.0, 0.0)

  /** Field-wise sum. */
  function Plus(g: Greeks, h: Greeks): Greeks
  {
    Greeks(g.delta + h.delta, g.gamma + h.gamma, g.vega + h.vega, g.theta + h.theta, g.rho + h.rho, g.value + h.value)
  }

  /** Field-wise scaling. */
  function Scaled(g: Greeks, f: real): Greeks
  {
    Greeks(g.delta * f, g.gamma * f, g.vega * f, g.theta * f, g.rho * f, g.value * f)
  }

  /** `PortfolioGreeks`: six accumulators, all 0 on construction. */
  class PortfolioGreeks {
    var delta: real
    var gamma: real
    var vega: real
    var theta: real
    var rho: real
    var value: real

    function Snapshot(): Greeks
      reads this
    {
      Greeks(delta, gamma, vega, theta, rho, value)
    }

    constructor ()
      ensures Snapshot() == NoGreeks
    {
      delta, gamma, vega, theta, rho, value := 0.0, 0.0, 0.0, 0.0, 0.0, 0.0;
    }

    /** `add`: every figure grows by the other's. */
    method Add(other: Greeks)
      modifies this
      ensures Snapshot() == Plus(old(Snapshot()), other)
    {
      delta := delta + other.delta;
      gamma := gamma + other.gamma;
      vega := vega + other.vega;
      theta := theta + other.theta;
      rho := rho + other.rho;
      value := value + other.value;
    }

    /** `scale`: every figure is multiplied by the factor. */
    method Scale(factor: real)
      modifies this
      ensures Snapshot() == Scaled(old(Snapshot()), factor)
    {
      delta := delta * factor;
      gamma := gamma * factor;
      vega := vega * factor;
      theta := theta * factor;
      rho := rho * factor;
      value := value * factor;
    }
  }

  /** Scaling distributes over the sum, so adding then scaling is scaling then adding. */
  lemma ScaleAfterAdd(g: Greeks, h: Greeks, f: real)
    ensures Scaled(Plus(g, h), f) == Plus(Scaled(g, f), Scaled(h, f))
  {
    Distribute(g.delta, h.delta, f);
    Distribute(g.gamma, h.gamma, f);
    Distribute(g.vega, h.vega, f);
    Distribute(g.theta, h.theta, f);
    Distribute(g.rho, h.rho, f);
    Distribute(g.value, h.value, f);
  }

  /** The Black-Scholes price and Greeks of one unit of the position. */
  function UnitGreeks(m: Math, pos: Position, S0: real, r: real): Greeks
    requires Priceable(pos.strike, pos.timeToExpiry, pos.impliedVol)
  {
    var K, T, vol := pos.strike, pos.timeToExpiry, pos.impliedVol;
    Greeks(BsDelta(m, S0, K, r, T, vol, pos.kind), BsGamma(m, S0, K, r, T, vol), BsVega(m, S0, K, r, T, vol),
           BsTheta(m, S0, K, r, T, vol, pos.kind), BsRho(m, S0, K, r, T, vol, pos.kind),
           BsPrice(m, S0, K, r, T, vol, pos.kind))
  }

  /** `calculate_position_greeks`: the per-unit figures times the quantity. */
  function PositionGreeks(m: Math, pos: Position, S0: real, r: real): (g: Greeks)
    requires Priceable(pos.strike, pos.timeToExpiry, pos.impliedVol)
    ensures pos.quantity == 0 ==> g == NoGreeks
  {
    Scaled(UnitGreeks(m, pos, S0, r), pos.quantity as real)
  }

  /** The Greeks of `q1 + q2` units are those of `q1` units plus those of `q2` units. */
  lemma PositionGreeksAdditive(m: Math, pos: Position, q1: int, q2: int, S0: real, r: real)
    requires Priceable(pos.strike, pos.timeToExpiry, pos.impliedVol)
    ensures PositionGreeks(m, pos.(quantity := q1 + q2), S0, r)
            == Plus(PositionGreeks(m, pos.(quantity := q1), S0, r), PositionGreeks(m, pos.(quantity := q2), S0, r))
  {
    var u := UnitGreeks(m, pos, S0, r);
    assert UnitGreeks(m, pos.(quantity := q1 + q2), S0, r) == u;
    assert UnitGreeks(m, pos.(quantity := q1), S0, r) == u;
    assert UnitGreeks(m, pos.(quantity := q2), S0, r) == u;
    ScaleAcrossQuantities(u, q1 as real, q2 as real);
  }

  lemma ScaleAcrossQuantities(u: Greeks, a: real, b: real)
    ensures Scaled(u, a + b) == Plus(Scaled(u, a), Scaled(u, b))
  {
    Distribute(a, b, u.delta);
    Distribute(a, b, u.gamma);
    Distribute(a, b, u.vega);
    Distribute(a, b, u.theta);
    Distribute(a, b, u.rho);
    Distribute(a, b, u.value);
  }

  /**
   * A live option position on a positive spot is long gamma and long vega
   * exactly when it is long the option.
   */
  lemma LongOptionsLongGamma(m: Math, pos: Position, S0: real, r: real)
    requires Regular(pos.timeToExpiry, pos.impliedVol) && pos.strike != 0.0 && 0.0 < S0
    ensures var g := PositionGreeks(m, pos, S0, r);
            (0.0 < g.gamma <==> 0 < pos.quantity) && (0.0 < g.vega <==> 0 < pos.quantity)
  {
    BsGammaVegaPositive(m, S0, pos.strike, r, pos.timeToExpiry, pos.impliedVol);
    var u := UnitGreeks(m, pos, S0, r);
    var q := pos.quantity as real;
    SignOfProduct(u.gamma, q);
    SignOfProduct(u.vega, q);
  }

  lemma SignOfProduct(x: real, q: real)
    requires 0.0 < x
    ensures 0.0 < x * q <==> 0.0 < q
  {
    if 0.0 < q {
      ScalePositive(x, q);
    } else {
      ScaleNonNegative(x, -q);
    }
  }

  /**
   * What one position adds to the portfolio total: shares add their
   * quantity to delta and their market value to value; options add their
   * position Greeks.
   */
  function Contribution(m: Math, pos: Position, S0: real, r: real): Greeks
  {
    if pos.strike == 0.0 then Greeks(pos.quantity as real, 0.0, 0.0, 0.0, 0.0, S0 * pos.quantity as real)
    else PositionGreeks(m, pos, S0, r)
  }

  lemma ContributionOfShares(m: Math, pos: Position, S0: real, r: real)
    requires pos.strike == 0.0
    ensures Contribution(m, pos, S0, r) == Greeks(pos.quantity as real, 0.0, 0.0, 0.0, 0.0, S0 * pos.quantity as real)
  {}

  /** The contributions of a book, position by position. */
  function Contributions(m: Math, ps: seq<Position>, S0: real, r: real): (cs: seq<Greeks>)
    ensures |cs| == |ps| && forall i :: 0 <= i < |ps| ==> cs[i] == Contribution(m, ps[i], S0, r)
  {
    seq(|ps|, i requires 0 <= i < |ps| => Contribution(m, ps[i], S0, r))
  }

  /** Greeks summed in sequence order, from `NoGreeks`. */
  function SumGreeks(cs: seq<Greeks>): Greeks
  {
    if cs == [] then NoGreeks else Plus(SumGreeks(cs[..|cs| - 1]), cs[|cs| - 1])
  }

  /** One more step of a running sum. */
  lemma AccumulateStep(cs: seq<Greeks>, k: nat, c: Greeks)
    requires k < |cs| && cs[k] == c
    ensures SumGreeks(cs[..k + 1]) == Plus(SumGreeks(cs[..k]), c)
  {
    assert cs[..k + 1][..k] == cs[..k];
  }

  /** Summing a concatenation sums the two sums. */
  lemma {:induction false} SumGreeksAppend(xs: seq<Greeks>, ys: seq<Greeks>)
    ensures SumGreeks(xs + ys) == Plus(SumGreeks(xs), SumGreeks(ys))
  {
    if ys == [] {
      assert xs + ys == xs;
    } else {
      var init, last := ys[..|ys| - 1], ys[|ys| - 1];
      assert (xs + ys)[..|xs + ys| - 1] == xs + init;
      SumGreeksAppend(xs, init);
      PlusAssociative(SumGreeks(xs), SumGreeks(init), last);
    }
  }

  lemma PlusAssociative(x: Greeks, y: Greeks, z: Greeks)
    ensures Plus(Plus(x, y), z) == Plus(x, Plus(y, z))
  {}

  /** The portfolio total: the contributions summed in position order. */
  function PortfolioTotal(m: Math, ps: seq<Position>, S0: real, r: real): Greeks
  {
    SumGreeks(Contributions(m, ps, S0, r))
  }

  /** `calculate_portfolio_greeks`. */
  method CalculatePortfolioGreeks(m: Math, ps: seq<Position>, S0: real, r: real) returns (g: Greeks)
    ensures g == PortfolioTotal(m, ps, S0, r)
  {
    ghost var cs := Contributions(m, ps, S0, r);
    var total := new PortfolioGreeks();
    for k := 0 to |ps|
      invariant total.Snapshot() == SumGreeks(cs[..k])
    {
      var pos := ps[k];
      ghost var c := Contribution(m, pos, S0, r);
      AccumulateStep(cs, k, c);
      if pos.strike == 0.0 {
        ContributionOfShares(m, pos, S0, r);
        total.value := total.value + S0 * pos.quantity as real;
        total.delta := total.delta + pos.quantity as real;
      } else {
        var pg := PositionGreeks(m, pos, S0, r);
        assert c == pg;
        total.Add(pg);
      }
    }
    assert cs[..|ps|] == cs;
    g := total.Snapshot();
  }

  /** The total of two books is the sum of their totals. */
  lemma PortfolioTotalAppend(m: Math, a: seq<Position>, b: seq<Position>, S0: real, r: real)
    ensures PortfolioTotal(m, a + b, S0, r) == Plus(PortfolioTotal(m, a, S0, r), PortfolioTotal(m, b, S0, r))
  {
    var ca, cb, cab := Contributions(m, a, S0, r), Contributions(m, b, S0, r), Contributions(m, a + b, S0, r);
    forall i | 0 <= i < |cab|
      ensures cab[i] == (ca + cb)[i]
    {
      if i < |a| {
        assert (a + b)[i] == a[i];
      } else {
        assert (a + b)[i] == b[i - |a|];
      }
    }
    assert cab == ca + cb;
    SumGreeksAppend(ca, cb);
  }

  /** Figures with no gamma, vega, theta or rho, worth their delta in spot. */
  predicate ShareLike(g: Greeks, S0: real)
  {
    g.gamma == 0.0 && g.vega == 0.0 && g.theta == 0.0 && g.rho == 0.0 && g.value == S0 * g.delta
  }

  lemma {:induction false} SumShareLike(cs: seq<Greeks>, S0: real)
    requires forall i :: 0 <= i < |cs| ==> ShareLike(cs[i], S0)
    ensures ShareLike(SumGreeks(cs), S0)
  {
    if cs != [] {
      SumShareLike(cs[..|cs| - 1], S0);
      var g, c := SumGreeks(cs[..|cs| - 1]), cs[|cs| - 1];
      assert S0 * g.delta + S0 * c.delta == S0 * (g.delta + c.delta);
    }
  }

  /** A book of shares only has no gamma, vega, theta or rho, and is worth its delta in spot. */
  lemma SharesOnly(m: Math, ps: seq<Position>, S0: real, r: real)
    requires forall i :: 0 <= i < |ps| ==> ps[i].strike == 0.0
    ensures ShareLike(PortfolioTotal(m, ps, S0, r), S0)
  {
    SumShareLike(Contributions(m, ps, S0, r), S0);
  }

  // ---------------------------------------------------------------------
  // Scenario analysis
  // ---------------------------------------------------------------------

  /** The remaining time of a position after the time decay, floored at 0.001 years. */
  function ScenarioTime(T: real, decayDays: real): (t: real)
    ensures 0.001 <= t && T - decayDays / 365.0 <= t
    ensures 0.001 <= T - decayDays / 365.0 ==> t == T - decayDays / 365.0
  {
    Max(0.001, T - decayDays / 365.0)
  }

  /** A stress scenario: spot change and volatility change in percent, and days of decay. */
  datatype Scenario = Scenario(spotPct: real, volPct: real, decayDays: real)

  /** The ten scenarios of `scenario_analysis`, in its order. */
  const StressScenarios: seq<Scenario> := [
    Scenario(0.0, 0.0, 0.0), Scenario(5.0, 0.0, 1.0), Scenario(-5.0, 0.0, 1.0), Scenario(0.0, 20.0, 1.0),
    Scenario(0.0, -20.0, 1.0), Scenario(2.0, 10.0, 7.0), Scenario(-2.0, 10.0, 7.0), Scenario(0.0, -50.0, 7.0),
    Scenario(10.0, 0.0, 7.0), Scenario(-10.0, 0.0, 7.0)]

  /**
   * One position repriced under a scenario: shares at the new spot; options
   * at the new spot, scaled volatility and decayed time, with delta, gamma,
   * vega and value (theta and rho are not recomputed).
   */
  function ScenarioContribution(m: Math, pos: Position, S0: real, r: real, sc: Scenario): Greeks
  {
    var q := pos.quantity as real;
    if pos.strike == 0.0 then Greeks(q, 0.0, 0.0, 0.0, 0.0, ScenarioSpot(S0, sc) * q)
    else
      Repriced(UnitGreeks(m, ScenarioShift(pos, sc), ScenarioSpot(S0, sc), r), q)
  }

  /** A repriced position: delta, gamma, vega and value times the quantity; theta and rho 0. */
  function Repriced(u: Greeks, q: real): (g: Greeks)
    ensures Agree(g, Scaled(u, q)) && g.theta == 0.0 && g.rho == 0.0
  {
    Greeks(u.delta * q, u.gamma * q, u.vega * q, 0.0, 0.0, u.value * q)
  }

  /** The spot of a scenario. */
  function ScenarioSpot(S0: real, sc: Scenario): real
  {
    S0 * (1.0 + sc.spotPct / 100.0)
  }

  /** An option under a scenario: decayed time, scaled volatility. */
  function ScenarioShift(pos: Position, sc: Scenario): (p: Position)
    ensures p.strike == pos.strike && p.kind == pos.kind && p.quantity == pos.quantity
  {
    pos.(timeToExpiry := ScenarioTime(pos.timeToExpiry, sc.decayDays),
         impliedVol := pos.impliedVol * (1.0 + sc.volPct / 100.0))
  }

  function ScenarioContributions(m: Math, ps: seq<Position>, S0: real, r: real, sc: Scenario): (cs: seq<Greeks>)
    ensures |cs| == |ps| && forall i :: 0 <= i < |ps| ==> cs[i] == ScenarioContribution(m, ps[i], S0, r, sc)
  {
    seq(|ps|, i requires 0 <= i < |ps| => ScenarioContribution(m, ps[i], S0, r, sc))
  }

  function ScenarioTotal(m: Math, ps: seq<Position>, S0: real, r: real, sc: Scenario): Greeks
  {
    SumGreeks(ScenarioContributions(m, ps, S0, r, sc))
  }

  /** The P&L of a scenario: its portfolio value minus today's. */
  function ScenarioPnl(m: Math, ps: seq<Position>, S0: real, r: real, sc: Scenario): real
  {
    ScenarioTotal(m, ps, S0, r, sc).value - PortfolioTotal(m, ps, S0, r).value
  }

  /** The repricing loop of one scenario, accumulating into a `PortfolioGreeks`. */
  method ScenarioGreeks(m: Math, ps: seq<Position>, S0: real, r: real, sc: Scenario) returns (g: Greeks)
    ensures g == ScenarioTotal(m, ps, S0, r, sc)
  {
    ghost var cs := ScenarioContributions(m, ps, S0, r, sc);
    var total := new PortfolioGreeks();
    for k := 0 to |ps|
      invariant total.Snapshot() == SumGreeks(cs[..k])
    {
      var c := ScenarioContribution(m, ps[k], S0, r, sc);
      AccumulateStep(cs, k, c);
      total.Add(c);
    }
    assert cs[..|ps|] == cs;
    g := total.Snapshot();
  }

  /** `scenario_analysis` without its report: the P&L of every stress scenario, in order. */
  method ScenarioAnalysis(m: Math, ps: seq<Position>, S0: real, r: real) returns (pnls: seq<real>)
    ensures |pnls| == |StressScenarios|
    ensures forall i :: 0 <= i < |pnls| ==> pnls[i] == ScenarioPnl(m, ps, S0, r, StressScenarios[i])
  {
    var base := CalculatePortfolioGreeks(m, ps, S0, r);
    pnls := [];
    for k := 0 to |StressScenarios|
      invariant |pnls| == k
      invariant forall i :: 0 <= i < k ==> pnls[i] == ScenarioPnl(m, ps, S0, r, StressScenarios[i])
    {
      var g := ScenarioGreeks(m, ps, S0, r, StressScenarios[k]);
      pnls := pnls + [g.value - base.value];
    }
  }

  /** Two sets of figures with the same value, delta, gamma and vega. */
  predicate Agree(x: Greeks, y: Greeks)
  {
    x.value == y.value && x.delta == y.delta && x.gamma == y.gamma && x.vega == y.vega
  }

  lemma {:induction false} SumGreeksAgree(xs: seq<Greeks>, ys: seq<Greeks>)
    requires |xs| == |ys| && forall i :: 0 <= i < |xs| ==> Agree(xs[i], ys[i])
    ensures Agree(SumGreeks(xs), SumGreeks(ys))
  {
    if xs != [] {
      SumGreeksAgree(xs[..|xs| - 1], ys[..|ys| - 1]);
    }
  }

  /**
   * The base case reprices every position as today, so its value, delta,
   * gamma and vega are today's when every option has at least 0.001 years
   * left.
   */
  lemma BaseScenarioUnchanged(m: Math, ps: seq<Position>, S0: real, r: real)
    requires forall i :: 0 <= i < |ps| && ps[i].strike != 0.0 ==> 0.001 <= ps[i].timeToExpiry
    ensures Agree(ScenarioTotal(m, ps, S0, r, StressScenarios[0]), PortfolioTotal(m, ps, S0, r))
  {
    assert StressScenarios[0] == Scenario(0.0, 0.0, 0.0);
    var xs, ys := ScenarioContributions(m, ps, S0, r, StressScenarios[0]), Contributions(m, ps, S0, r);
    forall i | 0 <= i < |ps|
      ensures Agree(xs[i], ys[i])
    {
      BaseContribution(m, ps[i], S0, r, StressScenarios[0]);
    }
    SumGreeksAgree(xs, ys);
  }

  /** One position in the base case: the same value, delta, gamma and vega as today. */
  lemma BaseContribution(m: Math, pos: Position, S0: real, r: real, sc: Scenario)
    requires sc == Scenario(0.0, 0.0, 0.0)
    requires pos.strike != 0.0 ==> 0.001 <= pos.timeToExpiry
    ensures Agree(ScenarioContribution(m, pos, S0, r, sc), Contribution(m, pos, S0, r))
  {
    assert ScenarioSpot(S0, sc) == S0;
    if pos.strike != 0.0 {
      assert ScenarioShift(pos, sc) == pos;
      var u, q := UnitGreeks(m, pos, S0, r), pos.quantity as real;
      assert ScenarioContribution(m, pos, S0, r, sc) == Repriced(u, q);
      assert Contribution(m, pos, S0, r) == Scaled(u, q);
    }
  }

  /** The base case's P&L is 0. */
  lemma BaseScenarioNoPnl(m: Math, ps: seq<Position>, S0: real, r: real)
    requires forall i :: 0 <= i < |ps| && ps[i].strike != 0.0 ==> 0.001 <= ps[i].timeToExpiry
    ensures ScenarioPnl(m, ps, S0, r, StressScenarios[0]) == 0.0
  {
    BaseScenarioUnchanged(m, ps, S0, r);
  }

  // ---------------------------------------------------------------------
  // Value at risk
  // ---------------------------------------------------------------------

  const VolUnderlying: real := 0.25
  const VolOfVol: real := 0.3
  const OneDay: real := 1.0 / 365.0

  /** The spot after one day's log-normal shock `z1`; positive for a positive spot. */
  function ShockedSpot(m: Math, S0: real, z1: real): (s: real)
    ensures 0.0 < S0 ==> 0.0 < s
  {
    var g := m.exp(-0.5 * VolUnderlying * VolUnderlying * OneDay + VolUnderlying * m.sqrt(OneDay) * z1);
    ScalePositive(S0, g);
    S0 * g
  }

  /** An option's volatility after the shock, floored at 0.05. */
  function ShockedVol(vol: real, volShock: real): (v: real)
    ensures 0.05 <= v && vol + volShock <= v
  {
    Max(0.05, vol + volShock)
  }

  /** An option's time after one day, floored at 0.001 years. */
  function ShockedTime(T: real): (t: real)
    ensures 0.001 <= t && T - OneDay <= t
  {
    Max(0.001, T - OneDay)
  }

  /** One position's value after the shocks. */
  function ShockedPositionValue(m: Math, pos: Position, r: real, spot: real, volShock: real): real
  {
    if pos.strike == 0.0 then spot * pos.quantity as real
    else
      BsPrice(m, spot, pos.strike, r, ShockedTime(pos.timeToExpiry), ShockedVol(pos.impliedVol, volShock), pos.kind)
      * pos.quantity as real
  }

  lemma ShockedShareValue(m: Math, pos: Position, r: real, spot: real, volShock: real)
    requires pos.strike == 0.0
    ensures ShockedPositionValue(m, pos, r, spot, volShock) == spot * pos.quantity as real
  {}

  lemma ShockedOptionValue(m: Math, pos: Position, r: real, spot: real, volShock: real)
    requires pos.strike != 0.0
    ensures ShockedPositionValue(m, pos, r, spot, volShock)
            == BsPrice(m, spot, pos.strike, r, ShockedTime(pos.timeToExpiry), ShockedVol(pos.impliedVol, volShock), pos.kind)
               * pos.quantity as real
  {}

  function ShockedValues(m: Math, ps: seq<Position>, r: real, spot: real, volShock: real): (vs: seq<real>)
    ensures |vs| == |ps| && forall i :: 0 <= i < |ps| ==> vs[i] == ShockedPositionValue(m, ps[i], r, spot, volShock)
  {
    seq(|ps|, i requires 0 <= i < |ps| => ShockedPositionValue(m, ps[i], r, spot, volShock))
  }

  function ShockedValue(m: Math, ps: seq<Position>, r: real, spot: real, volShock: real): real
  {
    Sum(ShockedValues(m, ps, r, spot, volShock))
  }

  lemma RunningSumStep(vs: seq<real>, k: nat, v: real)
    requires k < |vs| && vs[k] == v
    ensures Sum(vs[..k + 1]) == Sum(vs[..k]) + v
  {
    assert vs[..k + 1][..k] == vs[..k];
  }

  /** The one-day volatility shock of draw `z2`. */
  function VolShock(m: Math, z2: real): real
  {
    VolOfVol * m.sqrt(OneDay) * z2
  }

  /** The P&L of one simulated day with draws `z1` (spot) and `z2` (volatility). */
  function SimulatedPnl(m: Math, ps: seq<Position>, S0: real, r: real, baseValue: real, z1: real, z2: real): real
  {
    ShockedValue(m, ps, r, ShockedSpot(m, S0, z1), VolShock(m, z2)) - baseValue
  }

  /** The repricing of the book under one day's shocks. */
  method PortfolioValueUnderShock(m: Math, ps: seq<Position>, r: real, spot: real, volShock: real)
    returns (value: real)
    ensures value == ShockedValue(m, ps, r, spot, volShock)
  {
    ghost var vs := ShockedValues(m, ps, r, spot, volShock);
    value := 0.0;
    for k := 0 to |ps|
      invariant value == Sum(vs[..k])
    {
      var pos := ps[k];
      var v;
      if pos.strike == 0.0 {
        v := spot * pos.quantity as real;
        ShockedShareValue(m, pos, r, spot, volShock);
      } else {
        v := BsPrice(m, spot, pos.strike, r, ShockedTime(pos.timeToExpiry), ShockedVol(pos.impliedVol, volShock), pos.kind)
             * pos.quantity as real;
        ShockedOptionValue(m, pos, r, spot, volShock);
      }
      assert vs[k] == ShockedPositionValue(m, pos, r, spot, volShock);
      RunningSumStep(vs, k, v);
      value := value + v;
    }
    assert vs[..|ps|] == vs;
  }

  /** The simulation loop of `calculate_var`: one P&L per pair of draws, in draw order. */
  method SimulatePnl(m: Math, ps: seq<Position>, S0: real, r: real, baseValue: real, draws: seq<(real, real)>)
    returns (pnl: seq<real>)
    ensures |pnl| == |draws|
    ensures forall i :: 0 <= i < |draws| ==> pnl[i] == SimulatedPnl(m, ps, S0, r, baseValue, draws[i].0, draws[i].1)
  {
    pnl := [];
    for i := 0 to |draws|
      invariant |pnl| == i
      invariant forall j :: 0 <= j < i ==> pnl[j] == SimulatedPnl(m, ps, S0, r, baseValue, draws[j].0, draws[j].1)
    {
      var (z1, z2) := draws[i];
      var newSpot := ShockedSpot(m, S0, z1);
      var volShock := VolShock(m, z2);
      var value := PortfolioValueUnderShock(m, ps, r, newSpot, volShock);
      pnl := pnl + [value - baseValue];
    }
  }

  /** `static_cast<int>(fraction * n)` for a fraction in [0, 1]. */
  function TailCount(fraction: real, n: nat): (k: nat)
    requires 0.0 <= fraction <= 1.0
    ensures k <= n && k as real <= fraction * n as real < k as real + 1.0
  {
    ScaleNonNegative(fraction, n as real);
    ScaleNonNegative(1.0 - fraction, n as real);
    (fraction * n as real).Floor
  }

  /** The value at index `k` of the sorted P&L; out of range (no draws) gives nothing. */
  function QuantileAt(t: seq<real>, k: nat): (v: Option<real>)
    ensures v.Some? <==> k < |t|
  {
    if k < |t| then Some(t[k]) else None
  }

  /** The mean of the `k` smallest values; `k = 0` divides by zero. */
  function TailMean(t: seq<real>, k: nat): (v: Option<real>)
    requires k <= |t|
    ensures v.Some? <==> 0 < k
  {
    if k == 0 then None else Some(Mean(t[..k]))
  }

  function CountPositive(t: seq<real>): (c: nat)
    ensures c <= |t|
  {
    if t == [] then 0 else CountPositive(t[..|t| - 1]) + (if t[|t| - 1] > 0.0 then 1 else 0)
  }

  /** The percentage of draws with a profit; no draws divides by zero. */
  function ProfitShare(t: seq<real>): (v: Option<real>)
    ensures v.Some? <==> 0 < |t|
  {
    if t == [] then None else Some(CountPositive(t) as real / |t| as real * 100.0)
  }

  /** The figures `calculate_var` reports from the sorted P&L. */
  datatype RiskReport = RiskReport(meanPnl: real, stdPnl: real,
                                   var95: Option<real>, var99: Option<real>, es95: Option<real>, es99: Option<real>,
                                   probProfit: Option<real>)

  function ReportOfSorted(m: Math, t: seq<real>): RiskReport
  {
    var k95, k99 := TailCount(0.05, |t|), TailCount(0.01, |t|);
    RiskReport(Mean(t), StandardDeviation(m, t),
               QuantileAt(t, k95), QuantileAt(t, k99), TailMean(t, k95), TailMean(t, k99), ProfitShare(t))
  }

  /** The read-off of `calculate_var`: sort, index, average the tails, take the moments, count the profits. */
  method TailStatistics(m: Math, pnl: seq<real>) returns (report: RiskReport, ghost sorted: seq<real>)
    ensures IsSortedPermutation(sorted, pnl) && report == ReportOfSorted(m, sorted)
  {
    var a := SortedCopy(pnl);
    sorted := a[..];
    var n := a.Length;
    var k95 := TailCount(0.05, n);
    var k99 := TailCount(0.01, n);
    var var95 := if k95 < n then Some(a[k95]) else None;
    var var99 := if k99 < n then Some(a[k99]) else None;
    var es95 := TailAverage(a, k95);
    var es99 := TailAverage(a, k99);
    var count := CountProfits(a);
    var prob := if n == 0 then None else Some(count as real / n as real * 100.0);
    assert var95 == QuantileAt(sorted, k95) && var99 == QuantileAt(sorted, k99);
    assert prob == ProfitShare(sorted);
    report := RiskReport(Mean(a[..]), StandardDeviation(m, a[..]), var95, var99, es95, es99, prob);
  }

  /** The `count_if` of `calculate_var`: the number of draws with a profit. */
  method CountProfits(a: array<real>) returns (count: nat)
    ensures count == CountPositive(a[..])
  {
    count := 0;
    for i := 0 to a.Length
      invariant count == CountPositive(a[..i])
    {
      assert a[..i + 1][..i] == a[..i];
      if a[i] > 0.0 {
        count := count + 1;
      }
    }
    assert a[..a.Length] == a[..];
  }

  /** The expected-shortfall loop: the sum of the first `k` sorted values over `k`. */
  method TailAverage(a: array<real>, k: nat) returns (es: Option<real>)
    requires k <= a.Length
    ensures es == TailMean(a[..], k)
  {
    var sum := 0.0;
    for i := 0 to k
      invariant sum == Sum(a[..i])
    {
      assert a[..i + 1] == a[..i] + [a[i]];
      SumAppend(a[..i], a[i]);
      sum := sum + a[i];
    }
    assert a[..k] == a[..][..k];
    es := if k == 0 then None else Some(sum / k as real);
  }

  /**
   * With at least 100 draws every figure is defined; with fewer than 100
   * (and at least one) the 99% shortfall divides by zero.
   */
  lemma ReportDefined(m: Math, t: seq<real>)
    ensures 100 <= |t| ==> var rep := ReportOfSorted(m, t);
              rep.var95.Some? && rep.var99.Some? && rep.es95.Some? && rep.es99.Some? && rep.probProfit.Some?
    ensures 0 < |t| < 100 ==> ReportOfSorted(m, t).es99.None? && ReportOfSorted(m, t).var99.Some?
  {
    var k99 := TailCount(0.01, |t|);
    var k95 := TailCount(0.05, |t|);
    if 100 <= |t| {
      assert 1.0 <= 0.01 * |t| as real;
      assert 1.0 <= 0.05 * |t| as real;
    }
  }

  /** The shortfall is never above the value-at-risk quantile it averages below. */
  lemma ShortfallBelowQuantile(t: seq<real>, k: nat)
    requires Sorted(t) && 0 < k < |t|
    ensures TailMean(t, k).value <= QuantileAt(t, k).value
  {
    MeanBetween(t[..k], t[0], t[k]);
  }

  /** The probability of profit is a percentage. */
  lemma ProfitShareRange(t: seq<real>)
    requires t != []
    ensures 0.0 <= ProfitShare(t).value <= 100.0
  {
    var c, n := CountPositive(t) as real, |t| as real;
    DivideBounds(c, n, 0.0, 1.0);
  }
}
