/**
 * `examples/option_chain_analysis.cpp`: the quote helpers of `OptionData`,
 * the loader that turns each raw strike row into a call and a put quote,
 * and `analyze_option`, which solves the implied volatility from the mid
 * price, prices the option and its Greeks at that volatility (or at a
 * fallback volatility when the solver fails) and flags quotes that are
 * cheap against the theoretical price.
 *
 * A division by zero (a zero mid price, a zero theoretical price) gives an
 * infinity or NaN in double arithmetic; it is `None` here.
 */
module OptionChain {
  import opened Numerics
  import opened OptionTypes
  import opened AnalyticBs
  import opened IvSolve

  /** One market quote. */
  datatype OptionData = OptionData(strike: real, bid: real, ask: real, last: real, volume: real,
                                   openInterest: real, ivMarket: real, kind: OptionType)

  /** `mid_price`: halfway between bid and ask. */
  function MidPrice(o: OptionData): (mid: real)
    ensures mid - o.bid == o.ask - mid
    ensures Min(o.bid, o.ask) <= mid <= Max(o.bid, o.ask)
  {
    (o.bid + o.ask) / 2.0
  }

  /** `spread`: how far the ask lies above the bid. */
  function Spread(o: OptionData): (s: real)
    ensures o.bid + s == o.ask
  {
    o.ask - o.bid
  }

  /**
   * `spread_pct`: the spread as a percentage of the mid price; undefined
   * for a zero mid price.
   */
  function SpreadPct(o: OptionData): (pct: Option<real>)
    ensures pct.Some? <==> MidPrice(o) != 0.0
    ensures pct.Some? ==> pct.value * MidPrice(o) == Spread(o) * 100.0
  {
    if MidPrice(o) == 0.0 then None else Some(Spread(o) / MidPrice(o) * 100.0)
  }

  /** A spread is twice the distance from the bid to the mid. */
  lemma SpreadIsTwiceHalfSpread(o: OptionData)
    ensures Spread(o) == 2.0 * (MidPrice(o) - o.bid)
  {}

  // ---------------------------------------------------------------------
  // Loading the chain
  // ---------------------------------------------------------------------

  /** One row of the raw table: a strike with its call and its put quote. */
  datatype RawRow = RawRow(strike: real,
                           callBid: real, callAsk: real, callLast: real, callVol: real, callOi: real, callIv: real,
                           putBid: real, putAsk: real, putLast: real, putVol: real, putOi: real, putIv: real)

  /** A side of a row is loaded when its bid or its ask exceeds 0.01. */
  predicate Quoted(bid: real, ask: real)
  {
    bid > 0.01 || ask > 0.01
  }

  /** The call quote of a row, with its volatility converted from percent. */
  function CallOf(row: RawRow): (o: OptionData)
    ensures o.kind == Call && o.strike == row.strike && o.ivMarket * 100.0 == row.callIv
  {
    OptionData(row.strike, row.callBid, row.callAsk, row.callLast, row.callVol, row.callOi,
               row.callIv / 100.0, Call)
  }

  /** The put quote of a row, with its volatility converted from percent. */
  function PutOf(row: RawRow): (o: OptionData)
    ensures o.kind == Put && o.strike == row.strike && o.ivMarket * 100.0 == row.putIv
  {
    OptionData(row.strike, row.putBid, row.putAsk, row.putLast, row.putVol, row.putOi,
               row.putIv / 100.0, Put)
  }

  /** What one row contributes: its call if quoted, then its put if quoted. */
  function RowOptions(row: RawRow): seq<OptionData>
  {
    (if Quoted(row.callBid, row.callAsk) then [CallOf(row)] else [])
    + (if Quoted(row.putBid, row.putAsk) then [PutOf(row)] else [])
  }

  /** The loaded chain: the rows' contributions in row order. */
  function Chain(rows: seq<RawRow>): seq<OptionData>
  {
    if |rows| == 0 then [] else Chain(rows[..|rows| - 1]) + RowOptions(rows[|rows| - 1])
  }

  /**
   * Every loaded quote is the call or the put of some row whose side was
   * quoted, and every quoted side of every row is loaded.
   */
  lemma {:induction false} ChainMembers(rows: seq<RawRow>, o: OptionData)
    ensures o in Chain(rows) <==>
            exists row :: row in rows &&
              ((Quoted(row.callBid, row.callAsk) && o == CallOf(row)) ||
               (Quoted(row.putBid, row.putAsk) && o == PutOf(row)))
  {
    if |rows| > 0 {
      var init, last := rows[..|rows| - 1], rows[|rows| - 1];
      assert rows == init + [last];
      ChainMembers(init, o);
      if o in Chain(rows) && o !in Chain(init) {
        assert o in RowOptions(last);
      }
    }
  }

  /** A row yields at most two quotes. */
  lemma {:induction false} ChainLength(rows: seq<RawRow>)
    ensures |Chain(rows)| <= 2 * |rows|
  {
    if |rows| > 0 {
      ChainLength(rows[..|rows| - 1]);
    }
  }

  /** Every loaded quote has a bid or an ask above 0.01. */
  lemma {:induction false} ChainQuoted(rows: seq<RawRow>)
    ensures forall i :: 0 <= i < |Chain(rows)| ==> Quoted(Chain(rows)[i].bid, Chain(rows)[i].ask)
  {
    if |rows| > 0 {
      ChainQuoted(rows[..|rows| - 1]);
    }
  }

  /** `load_option_chain_data`: the loop that pushes each row's quotes. */
  method LoadOptionChainData(rows: seq<RawRow>) returns (options: seq<OptionData>)
    ensures options == Chain(rows)
  {
    options := [];
    for k := 0 to |rows|
      invariant options == Chain(rows[..k])
    {
      var data := rows[k];
      assert rows[..k + 1][..k] == rows[..k];
      if data.callBid > 0.01 || data.callAsk > 0.01 {
        options := options + [CallOf(data)];
      }
      if data.putBid > 0.01 || data.putAsk > 0.01 {
        options := options + [PutOf(data)];
      }
    }
    assert rows[..|rows|] == rows;
  }

  // ---------------------------------------------------------------------
  // Analysing one quote
  // ---------------------------------------------------------------------

  /** The result of `analyze_option`. */
  datatype OptionAnalysis = OptionAnalysis(marketData: OptionData, theoreticalPrice: real, impliedVol: real,
                                           priceDiscrepancy: real, priceDiscrepancyPct: Option<real>,
                                           delta: real, gamma: real, vega: real, theta: real, rho: real,
                                           arbitrageOpportunity: bool, profitPotential: real)

  /** The Black-Scholes price of the quote as a function of volatility. */
  function PriceCurve(m: Math, o: OptionData, S0: real, r: real, T: real): PriceFn
    requires o.strike != 0.0
  {
    (vol: real) => Some(BsPrice(m, S0, o.strike, r, T, vol, o.kind))
  }

  /** The implied volatility of the mid price, with the solver's default settings. */
  function SolvedVol(m: Math, o: OptionData, S0: real, r: real, T: real): Option<real>
    requires o.strike != 0.0
  {
    ImpliedVolOf(PriceCurve(m, o, S0, r, T), MidPrice(o), DefaultLo, DefaultHi, DefaultMaxIter, DefaultTol)
  }

  /**
   * The volatility the analysis prices at: the solved one when it is a
   * positive number, otherwise the market volatility floored at 0.1.
   */
  function VolatilityUsed(solved: Option<real>, ivMarket: real): (v: real)
    ensures 0.0 < v
    ensures solved.Some? && 0.0 < solved.value ==> v == solved.value
    ensures !(solved.Some? && 0.0 < solved.value) ==> 0.1 <= v && ivMarket <= v && (v == 0.1 || v == ivMarket)
  {
    if solved.Some? && 0.0 < solved.value then solved.value else Max(0.1, ivMarket)
  }

  /** `(price_discrepancy / theoretical_price) * 100`, undefined for a zero price. */
  function RelativeDiscrepancy(diff: real, theoretical: real): (pct: Option<real>)
    ensures pct.Some? <==> theoretical != 0.0
    ensures pct.Some? ==> pct.value * theoretical == diff * 100.0
  {
    if theoretical == 0.0 then None else Some(diff / theoretical * 100.0)
  }

  /** The arbitrage test: the mid price more than 5% below the theoretical price. */
  predicate Cheap(mid: real, theoretical: real)
  {
    mid < theoretical * 0.95
  }

  /** `analyze_option`. */
  function AnalyzeOption(m: Math, o: OptionData, S0: real, r: real, T: real): (a: OptionAnalysis)
    requires o.strike != 0.0
    ensures a.marketData == o && 0.0 < a.impliedVol
    ensures a.theoreticalPrice == BsPrice(m, S0, o.strike, r, T, a.impliedVol, o.kind)
    ensures a.priceDiscrepancy == MidPrice(o) - a.theoreticalPrice
    ensures a.arbitrageOpportunity <==> MidPrice(o) < 0.95 * a.theoreticalPrice
    ensures a.arbitrageOpportunity ==> a.profitPotential == a.theoreticalPrice - o.ask
    ensures !a.arbitrageOpportunity ==> a.profitPotential == 0.0
    ensures o.kind == Call ==> 0.0 <= a.delta <= 1.0
    ensures o.kind == Put ==> -1.0 <= a.delta <= 0.0
  {
    var mid := MidPrice(o);
    var vol := VolatilityUsed(SolvedVol(m, o, S0, r, T), o.ivMarket);
    var theoretical := BsPrice(m, S0, o.strike, r, T, vol, o.kind);
    var diff := mid - theoretical;
    var cheap := Cheap(mid, theoretical);
    OptionAnalysis(o, theoretical, vol, diff, RelativeDiscrepancy(diff, theoretical),
                   BsDelta(m, S0, o.strike, r, T, vol, o.kind),
                   BsGamma(m, S0, o.strike, r, T, vol),
                   BsVega(m, S0, o.strike, r, T, vol),
                   BsTheta(m, S0, o.strike, r, T, vol, o.kind),
                   BsRho(m, S0, o.strike, r, T, vol, o.kind),
                   cheap, if cheap then theoretical - o.ask else 0.0)
  }

  /**
   * Against a positive theoretical price, the arbitrage test is exactly a
   * relative discrepancy below -5%: the flag `AnalyzeOption` sets and the
   * percentage it reports agree.
   */
  lemma CheapIffDeepDiscount(mid: real, th: real)
    requires 0.0 < th
    ensures Cheap(mid, th) <==> RelativeDiscrepancy(mid - th, th).value < -5.0
  {
    var pct := RelativeDiscrepancy(mid - th, th).value;
    if pct < -5.0 {
      assert pct * th < -5.0 * th;
    } else {
      assert pct * th >= -5.0 * th;
    }
  }

  /**
   * When the solver converges on a positive volatility, the analysis prices
   * at it and the theoretical price lies within the solver's tolerance of
   * the mid price.
   */
  lemma ConvergedAnalysisMatchesMid(m: Math, o: OptionData, S0: real, r: real, T: real)
    requires o.strike != 0.0
    requires var e := ImpliedVolExit(PriceCurve(m, o, S0, r, T), MidPrice(o), DefaultLo, DefaultHi, DefaultMaxIter, DefaultTol);
             e.Some? && e.value.kind == Converged && 0.0 < e.value.x
    ensures var a := AnalyzeOption(m, o, S0, r, T);
            a.impliedVol == SolvedVol(m, o, S0, r, T).value && Abs(a.priceDiscrepancy) < DefaultTol
  {
    var f := PriceCurve(m, o, S0, r, T);
    ImpliedVolSound(f, MidPrice(o), DefaultLo, DefaultHi, DefaultMaxIter, DefaultTol);
    var x := ImpliedVolExit(f, MidPrice(o), DefaultLo, DefaultHi, DefaultMaxIter, DefaultTol).value.x;
    assert f(x) == Some(BsPrice(m, S0, o.strike, r, T, x, o.kind));
  }

  /**
   * When the solver gives up (NaN) the analysis prices at the market
   * volatility floored at 0.1.
   */
  lemma FailedSolveFallsBack(m: Math, o: OptionData, S0: real, r: real, T: real)
    requires o.strike != 0.0 && SolvedVol(m, o, S0, r, T).None?
    ensures AnalyzeOption(m, o, S0, r, T).impliedVol == Max(0.1, o.ivMarket)
  {}

  /**
   * The analysis's Greeks, for a live option on a positive spot: gamma and
   * vega are positive, and a put's delta is the call's minus one.
   */
  lemma AnalysisGreeks(m: Math, o: OptionData, S0: real, r: real, T: real)
    requires o.strike != 0.0 && 0.0 < T && 0.0 < S0
    ensures var a := AnalyzeOption(m, o, S0, r, T);
            0.0 < a.gamma && 0.0 < a.vega &&
            (o.kind == Put ==> a.delta == BsDelta(m, S0, o.strike, r, T, a.impliedVol, Call) - 1.0)
  {
    var a := AnalyzeOption(m, o, S0, r, T);
    BsGammaVegaPositive(m, S0, o.strike, r, T, a.impliedVol);
    BsDeltaParity(m, S0, o.strike, r, T, a.impliedVol);
  }
}
