/**
 * The option-chain analyzer script: cleaning and parsing of price and
 * percentage cells, the rows of an exchange option-chain export, the spot
 * estimate from the strikes, the comparison of market with theoretical
 * prices, the portfolio summary, and the CSV rendering of the results.
 *
 * Python's `float()` on a cleaned cell, the rendering of numbers by `str`,
 * and the days to expiry (which depend on today's date) are parameters.
 */
module OptionPricingAnalyzer {
  import opened Numerics
  import opened Text
  import opened OptionTypes
  import Stats

  /** Python's `float()`: `None` where it raises `ValueError`. */
  datatype FloatParser = FloatParser(parse: string -> Option<real>)

  function ToFloat(f: FloatParser, s: string): Option<real> { f.parse(s) }

  // -------------------------------------------------------------- cells

  /** A cell without its thousands separators and quotes, and without surrounding whitespace. */
  function CleanPrice(cell: string): string
  {
    Trim(Without(Without(cell, ','), '"'), Whitespace)
  }

  /** `float()` of a cleaned cell; nothing left after cleaning reads as no price. */
  function ParseCleaned(f: FloatParser, clean: string): Option<real>
  {
    if clean == "" then None else ToFloat(f, clean)
  }

  /** A price cell: `None` for an empty cell, "-", nothing left after cleaning, or a cell `float()` refuses. */
  function ParsePrice(f: FloatParser, cell: string): (p: Option<real>)
    ensures cell == "" || cell == "-" ==> p.None?
    ensures p.Some? ==> CleanPrice(cell) != "" && ToFloat(f, CleanPrice(cell)) == p
  {
    if cell == "" || cell == "-" then None else ParseCleaned(f, CleanPrice(cell))
  }

  /** A percentage as a fraction. */
  function Hundredth(p: Option<real>): Option<real>
  {
    match p
    case None => None
    case Some(x) => Some(x / 100.0)
  }

  /** A percentage cell: as a price cell, also without '%' signs, and divided by 100. */
  function ParsePercentage(f: FloatParser, cell: string): (p: Option<real>)
    ensures cell == "" || cell == "-" ==> p.None?
  {
    if cell == "" || cell == "-" then None else Hundredth(ParseCleaned(f, CleanPrice(Without(cell, '%'))))
  }

  /** Without a '%' sign a percentage cell reads as the same price cell divided by 100. */
  lemma PercentageIsHundredthOfPrice(f: FloatParser, cell: string)
    requires forall i :: 0 <= i < |cell| ==> cell[i] != '%'
    ensures ParsePrice(f, cell).None? <==> ParsePercentage(f, cell).None?
    ensures ParsePrice(f, cell).Some? ==> ParsePercentage(f, cell).value == ParsePrice(f, cell).value / 100.0
  {
    assert Without(cell, '%') == cell;
  }

  /** A cell's digits: none of the characters the cleaning drops or the percentage form uses. */
  predicate PlainDigits(s: string)
  {
    forall i :: 0 <= i < |s| ==> s[i] != ',' && s[i] != '"' && s[i] != '%' && s[i] !in Whitespace
  }

  /**
   * Thousands separators and quotes never reach `float()`: a quoted cell
   * `"a,b"` reads as the number `ab`.
   */
  lemma SeparatorsAndQuotesDropped(f: FloatParser, a: string, b: string)
    requires a + b != []
    requires PlainDigits(a) && PlainDigits(b)
    ensures ParsePrice(f, "\"" + a + "," + b + "\"") == ToFloat(f, a + b)
  {
    PlainDigitsAppend(a, b);
    PriceOfQuotedDigits(f, a, b);
  }

  lemma PlainDigitsAppend(a: string, b: string)
    requires PlainDigits(a) && PlainDigits(b)
    ensures PlainDigits(a + b)
  {
    var digits := a + b;
    forall i | 0 <= i < |digits| ensures digits[i] != ',' && digits[i] != '"' && digits[i] != '%' && digits[i] !in Whitespace {
      if i >= |a| {
        assert digits[i] == b[i - |a|];
      }
    }
  }

  lemma PriceOfQuotedDigits(f: FloatParser, a: string, b: string)
    requires a + b != [] && PlainDigits(a) && PlainDigits(b) && PlainDigits(a + b)
    ensures ParsePrice(f, "\"" + a + "," + b + "\"") == ToFloat(f, a + b)
  {
    var cell := "\"" + a + "," + b + "\"";
    assert |cell| >= 3;
    QuotedCellCleans(a, b);
    assert CleanPrice(cell) == a + b;
  }

  lemma QuotedCellCleans(a: string, b: string)
    requires PlainDigits(a) && PlainDigits(b) && PlainDigits(a + b)
    ensures CleanPrice("\"" + a + "," + b + "\"") == a + b
  {
    SeparatorDropped(a, b);
    QuotesDropped(a + b);
    TrimUntouched(a + b, Whitespace);
  }

  lemma SeparatorDropped(a: string, b: string)
    requires PlainDigits(a) && PlainDigits(b)
    ensures Without("\"" + a + "," + b + "\"", ',') == "\"" + (a + b) + "\""
  {
    var left, right := "\"" + a, b + "\"";
    assert "\"" + a + "," + b + "\"" == left + [','] + right;
    forall i | 0 <= i < |left| ensures left[i] != ',' {
      if i > 0 {
        assert left[i] == a[i - 1];
      }
    }
    forall i | 0 <= i < |right| ensures right[i] != ',' {
      if i < |b| {
        assert right[i] == b[i];
      }
    }
    WithoutSeparator(left, right, ',');
  }

  lemma QuotesDropped(digits: string)
    requires PlainDigits(digits)
    ensures Without("\"" + digits + "\"", '"') == digits
  {
    var quote := "\"";
    WithoutAppend(quote, digits + quote, '"');
    assert quote == [] + ['"'] + [];
    WithoutSeparator([], [], '"');
    assert digits + quote == digits + ['"'] + [];
    WithoutSeparator(digits, [], '"');
    assert quote + digits + quote == quote + (digits + quote);
  }

  /** A percentage cell `d%` reads as a hundredth of the number `d`. */
  lemma PercentOfPlainDigits(f: FloatParser, digits: string)
    requires digits != [] && PlainDigits(digits)
    ensures ParsePercentage(f, digits + "%") == (if ToFloat(f, digits).Some? then Some(ToFloat(f, digits).value / 100.0) else None)
  {
    var percent := digits + "%";
    assert |percent| >= 2;
    PercentCellCleans(digits);
    assert percent != "" && percent != "-";
  }

  lemma PercentCellCleans(digits: string)
    requires PlainDigits(digits)
    ensures CleanPrice(Without(digits + "%", '%')) == digits
  {
    assert digits + "%" == digits + ['%'] + [];
    WithoutSeparator(digits, [], '%');
    assert digits + [] == digits;
    assert Without(Without(digits, ','), '"') == digits;
    TrimUntouched(digits, Whitespace);
  }

  // ------------------------------------------------------ option chain

  /** An option quote taken from one side of an option-chain row. */
  datatype ChainOption = ChainOption(
    symbol: string,
    strike: real,
    optionType: OptionType,
    marketPrice: real,
    impliedVolatility: real,
    expiryDays: int)

  /** Rows with fewer cells are incomplete. */
  const MinRowCells: nat := 23
  const CallIvColumn: nat := 4
  const CallLtpColumn: nat := 5
  const StrikeColumn: nat := 11
  const PutLtpColumn: nat := 17
  const PutIvColumn: nat := 18
  /** The volatility a quote gets when its IV cell is missing or zero. */
  const DefaultIv: real := 0.20

  /** `iv or 0.20`: a missing or zero volatility falls back to 20%. */
  function IvOrDefault(iv: Option<real>): (v: real)
    ensures v != 0.0
  {
    if iv.None? || iv.value == 0.0 then DefaultIv else iv.value
  }

  /** The strike cell without separators and quotes (it is not stripped). */
  function StrikeText(row: seq<string>): string
    requires |row| >= MinRowCells
  {
    Without(Without(row[StrikeColumn], ','), '"')
  }

  /** The row's strike; `None` makes the row be skipped. */
  function RowStrike(f: FloatParser, row: seq<string>): Option<real>
    requires |row| >= MinRowCells
  {
    var text := StrikeText(row);
    if text == "" || text == "-" then None else ToFloat(f, text)
  }

  function LtpColumn(t: OptionType): nat { if t == Call then CallLtpColumn else PutLtpColumn }
  function IvColumn(t: OptionType): nat { if t == Call then CallIvColumn else PutIvColumn }

  /** The side of a row holds a tradable quote: its last traded price parses and is positive. */
  predicate Quoted(f: FloatParser, row: seq<string>, t: OptionType)
    requires |row| >= MinRowCells
  {
    var ltp := ParsePrice(f, row[LtpColumn(t)]);
    ltp.Some? && ltp.value > 0.0
  }

  /** The quote of one side of a row with a strike. */
  function Leg(f: FloatParser, row: seq<string>, strike: real, t: OptionType, expiryDays: int): ChainOption
    requires |row| >= MinRowCells && Quoted(f, row, t)
  {
    ChainOption("NIFTY", strike, t, ParsePrice(f, row[LtpColumn(t)]).value,
                IvOrDefault(ParsePercentage(f, row[IvColumn(t)])), expiryDays)
  }

  /** The quotes one row yields: nothing for an incomplete row or one without a strike, else the call then the put. */
  function RowOptions(f: FloatParser, row: seq<string>, expiryDays: int): seq<ChainOption>
  {
    if |row| < MinRowCells then []
    else
      var strike := RowStrike(f, row);
      if strike.None? then []
      else
        (if Quoted(f, row, Call) then [Leg(f, row, strike.value, Call, expiryDays)] else []) +
        (if Quoted(f, row, Put) then [Leg(f, row, strike.value, Put, expiryDays)] else [])
  }

  /** The quotes of all data rows, in row order. */
  function ChainOptions(f: FloatParser, rows: seq<seq<string>>, expiryDays: int): seq<ChainOption>
  {
    if rows == [] then []
    else ChainOptions(f, rows[..|rows| - 1], expiryDays) + RowOptions(f, rows[|rows| - 1], expiryDays)
  }

  /** The option-chain parser over the rows after the header. */
  method ParseOptionChain(f: FloatParser, rows: seq<seq<string>>, expiryDays: int) returns (options: seq<ChainOption>)
    ensures options == ChainOptions(f, rows, expiryDays)
  {
    options := [];
    for r := 0 to |rows|
      invariant options == ChainOptions(f, rows[..r], expiryDays)
    {
      assert rows[..r + 1][..r] == rows[..r];
      var row := rows[r];
      var rowOptions := ParseRow(f, row, expiryDays);
      options := options + rowOptions;
    }
    assert rows[..|rows|] == rows;
  }

  /** The quotes of one data row, as the loop body reads them. */
  method ParseRow(f: FloatParser, row: seq<string>, expiryDays: int) returns (rowOptions: seq<ChainOption>)
    ensures rowOptions == RowOptions(f, row, expiryDays)
  {
    rowOptions := [];
    if |row| < MinRowCells {
      return;
    }
    var strikeText := StrikeText(row);
    if strikeText == "" || strikeText == "-" {
      return;
    }
    var strike := ToFloat(f, strikeText);
    if strike.None? {
      return;
    }
    assert RowStrike(f, row) == strike;
    var callLtp := ParsePrice(f, row[CallLtpColumn]);
    var callIv := ParsePercentage(f, row[CallIvColumn]);
    var putLtp := ParsePrice(f, row[PutLtpColumn]);
    var putIv := ParsePercentage(f, row[PutIvColumn]);
    var call: seq<ChainOption> := [];
    if callLtp.Some? && callLtp.value > 0.0 {
      call := [ChainOption("NIFTY", strike.value, Call, callLtp.value, IvOrDefault(callIv), expiryDays)];
      assert call == [Leg(f, row, strike.value, Call, expiryDays)];
    }
    var put: seq<ChainOption> := [];
    if putLtp.Some? && putLtp.value > 0.0 {
      put := [ChainOption("NIFTY", strike.value, Put, putLtp.value, IvOrDefault(putIv), expiryDays)];
      assert put == [Leg(f, row, strike.value, Put, expiryDays)];
    }
    rowOptions := call + put;
  }

  /**
   * A side of a row becomes a quote exactly when the row is complete, has a
   * strike, and that side's price is positive; the call comes before the put.
   */
  lemma RowQuoteIff(f: FloatParser, row: seq<string>, t: OptionType, expiryDays: int)
    ensures (exists k :: 0 <= k < |RowOptions(f, row, expiryDays)| && RowOptions(f, row, expiryDays)[k].optionType == t)
        <==> |row| >= MinRowCells && RowStrike(f, row).Some? && Quoted(f, row, t)
    ensures |RowOptions(f, row, expiryDays)| <= 2
    ensures |RowOptions(f, row, expiryDays)| == 2 ==>
              RowOptions(f, row, expiryDays)[0].optionType == Call && RowOptions(f, row, expiryDays)[1].optionType == Put
  {
    var os := RowOptions(f, row, expiryDays);
    if |row| >= MinRowCells && RowStrike(f, row).Some? && Quoted(f, row, t) {
      var strike := RowStrike(f, row).value;
      if t == Call {
        assert os[0] == Leg(f, row, strike, Call, expiryDays);
      } else {
        assert os[|os| - 1] == Leg(f, row, strike, Put, expiryDays);
      }
    }
  }

  /** Every parsed quote is a NIFTY option with a positive price and a non-zero volatility. */
  predicate WellFormedQuote(o: ChainOption)
  {
    o.symbol == "NIFTY" && o.marketPrice > 0.0 && o.impliedVolatility != 0.0
  }

  lemma {:induction false} ChainOptionsWellFormed(f: FloatParser, rows: seq<seq<string>>, expiryDays: int)
    ensures |ChainOptions(f, rows, expiryDays)| <= 2 * |rows|
    ensures forall k :: 0 <= k < |ChainOptions(f, rows, expiryDays)| ==> WellFormedQuote(ChainOptions(f, rows, expiryDays)[k])
  {
    if rows != [] {
      var row := rows[|rows| - 1];
      ChainOptionsWellFormed(f, rows[..|rows| - 1], expiryDays);
      RowQuoteIff(f, row, Call, expiryDays);
    }
  }

  // --------------------------------------------------------- spot price

  /** The spot assumed when the chain does not show both calls and puts. */
  const DefaultSpot: real := 23000.0

  predicate HasType(options: seq<ChainOption>, t: OptionType)
  {
    exists k :: 0 <= k < |options| && options[k].optionType == t
  }

  function Strikes(options: seq<ChainOption>): (s: seq<real>)
    ensures |s| == |options|
    ensures forall k :: 0 <= k < |options| ==> s[k] == options[k].strike
  {
    seq(|options|, k requires 0 <= k < |options| => options[k].strike)
  }

  /** The mean strike when the chain has both calls and puts, 23000 otherwise. */
  function EstimateSpotPrice(options: seq<ChainOption>): real
  {
    if options == [] then DefaultSpot
    else if !HasType(options, Call) || !HasType(options, Put) then DefaultSpot
    else Stats.Mean(Strikes(options))
  }

  /** The estimate lies within the strikes' range, and without both sides it is the default. */
  lemma SpotWithinStrikes(options: seq<ChainOption>, lo: real, hi: real)
    requires forall k :: 0 <= k < |options| ==> lo <= options[k].strike <= hi
    ensures HasType(options, Call) && HasType(options, Put) ==> lo <= EstimateSpotPrice(options) <= hi
    ensures !(HasType(options, Call) && HasType(options, Put)) ==> EstimateSpotPrice(options) == DefaultSpot
  {
    if HasType(options, Call) && HasType(options, Put) {
      Stats.MeanBetween(Strikes(options), lo, hi);
    }
  }

  // ------------------------------------------------- market comparison

  /** The market price against the theoretical one, where the option has a market price. */
  datatype Comparison = NoMarketPrice | Compared(difference: real, differencePct: real)

  function MarketComparison(marketPrice: Option<real>, theoreticalPrice: real): Comparison
  {
    if marketPrice.None? then NoMarketPrice
    else
      var difference := marketPrice.value - theoreticalPrice;
      Compared(difference, if theoreticalPrice > 0.0 then difference / theoreticalPrice * 100.0 else 0.0)
  }

  /** Over a positive theoretical price the percentage has the sign of the difference; otherwise it is 0. */
  lemma ComparisonSign(marketPrice: real, theoreticalPrice: real)
    ensures var c := MarketComparison(Some(marketPrice), theoreticalPrice);
            c.difference == marketPrice - theoreticalPrice &&
            (theoreticalPrice > 0.0 ==> (c.differencePct > 0.0 <==> c.difference > 0.0) &&
                                         (c.differencePct < 0.0 <==> c.difference < 0.0)) &&
            (theoreticalPrice <= 0.0 ==> c.differencePct == 0.0)
  {
    var d := marketPrice - theoreticalPrice;
    if theoreticalPrice > 0.0 {
      if d > 0.0 { ScalePositive(d, 1.0 / theoreticalPrice); }
      if d < 0.0 { ScalePositive(-d, 1.0 / theoreticalPrice); }
      assert d / theoreticalPrice == d * (1.0 / theoreticalPrice);
    }
  }

  // ------------------------------------------------------------ summary

  /**
   * `expiry_days` as the parser stored it: a whole number of days for an
   * option-chain quote, and `float(expiry) * 365`, a float, for a row of a
   * portfolio file.
   */
  datatype ExpiryDays = WholeDays(whole: int) | FloatDays(days: real)

  /**
   * One analysed option: its inputs, the pricer's answer, and the market
   * comparison. The option type is the text the parser stored: "call" or
   * "put" for a chain quote, the lower-cased cell of a portfolio row.
   */
  datatype PricedOption = PricedOption(
    symbol: string,
    optionType: string,
    strike: real,
    spotPrice: real,
    expiryDays: ExpiryDays,
    impliedVolatility: real,
    marketPrice: Option<real>,
    position: Option<real>,
    theoreticalPrice: real,
    delta: real,
    gamma: real,
    vega: real,
    theta: real,
    calculationSuccess: bool)

  /**
   * The price difference fields of a result: present exactly when it has a
   * market price, from that price and the theoretical one.
   */
  function ComparisonOf(r: PricedOption): (c: Comparison)
    ensures c.Compared? <==> r.marketPrice.Some?
    ensures c.Compared? ==> c.difference == r.marketPrice.value - r.theoreticalPrice
  {
    MarketComparison(r.marketPrice, r.theoreticalPrice)
  }

  /** `position` defaults to 1 when the option has none (option-chain quotes). */
  function Weight(r: PricedOption): real
  {
    if r.position.None? then 1.0 else r.position.value
  }

  datatype Measure = Value | Delta | Gamma | Vega | Theta

  function MeasureOf(r: PricedOption, m: Measure): real
  {
    match m
    case Value => r.theoreticalPrice
    case Delta => r.delta
    case Gamma => r.gamma
    case Vega => r.vega
    case Theta => r.theta
  }

  /** The options the pricer handled, in order. */
  function Successful(results: seq<PricedOption>): (s: seq<PricedOption>)
    ensures |s| <= |results|
    ensures forall k :: 0 <= k < |s| ==> s[k].calculationSuccess
  {
    if results == [] then []
    else Successful(results[..|results| - 1]) + (if results[|results| - 1].calculationSuccess then [results[|results| - 1]] else [])
  }

  /** The position-weighted sum of one measure, added up left to right. */
  function PositionSum(rs: seq<PricedOption>, m: Measure): real
  {
    if rs == [] then 0.0 else PositionSum(rs[..|rs| - 1], m) + MeasureOf(rs[|rs| - 1], m) * Weight(rs[|rs| - 1])
  }

  /** The options with a market price. */
  function WithMarketPrice(rs: seq<PricedOption>): (s: seq<PricedOption>)
    ensures |s| <= |rs|
    ensures forall k :: 0 <= k < |s| ==> s[k].marketPrice.Some?
  {
    if rs == [] then []
    else WithMarketPrice(rs[..|rs| - 1]) + (if rs[|rs| - 1].marketPrice.Some? then [rs[|rs| - 1]] else [])
  }

  /** The filter keeps exactly the results with a market price (`market_price is not None`). */
  lemma {:induction false} WithMarketPriceMembers(rs: seq<PricedOption>, x: PricedOption)
    ensures x in WithMarketPrice(rs) <==> x in rs && x.marketPrice.Some?
  {
    if rs != [] {
      WithMarketPriceMembers(rs[..|rs| - 1], x);
      assert rs == rs[..|rs| - 1] + [rs[|rs| - 1]];
    }
  }

  function AbsPctSum(rs: seq<PricedOption>): (s: real)
    requires forall k :: 0 <= k < |rs| ==> rs[k].marketPrice.Some?
    ensures 0.0 <= s
  {
    if rs == [] then 0.0 else AbsPctSum(rs[..|rs| - 1]) + Abs(ComparisonOf(rs[|rs| - 1]).differencePct)
  }

  /** How many compared options have a difference of the given strict sign (`above` for positive). */
  function CountSign(rs: seq<PricedOption>, above: bool): nat
    requires forall k :: 0 <= k < |rs| ==> rs[k].marketPrice.Some?
  {
    if rs == [] then 0
    else
      var d := ComparisonOf(rs[|rs| - 1]).difference;
      CountSign(rs[..|rs| - 1], above) + (if (above && d > 0.0) || (!above && d < 0.0) then 1 else 0)
  }

  function CountZero(rs: seq<PricedOption>): nat
    requires forall k :: 0 <= k < |rs| ==> rs[k].marketPrice.Some?
  {
    if rs == [] then 0 else CountZero(rs[..|rs| - 1]) + (if ComparisonOf(rs[|rs| - 1]).difference == 0.0 then 1 else 0)
  }

  datatype Summary =
    | NoSuccessfulCalculations
    | Summary(
        totalValue: real, netDelta: real, netGamma: real, netVega: real, netTheta: real,
        deltaAdjustedValue: real,
        optionsWithMarketPrices: nat, avgPriceDifferencePct: real, overpricedCount: nat, underpricedCount: nat,
        deltaRisk: real, gammaRisk: real, vegaRisk: real, thetaDecay: real)

  /** The portfolio, market and risk figures over the options the pricer handled. */
  function GenerateSummary(results: seq<PricedOption>, spotPrice: real): (s: Summary)
    ensures s.Summary? ==> 0.0 <= s.avgPriceDifferencePct && 0.0 <= s.vegaRisk
    ensures s.Summary? && 0.0 <= spotPrice ==> 0.0 <= s.deltaRisk && 0.0 <= s.gammaRisk
    ensures s.Summary? ==> s.overpricedCount + s.underpricedCount <= s.optionsWithMarketPrices
  {
    var ok := Successful(results);
    if ok == [] then NoSuccessfulCalculations
    else
      var totalDelta := PositionSum(ok, Delta);
      var totalGamma := PositionSum(ok, Gamma);
      var totalVega := PositionSum(ok, Vega);
      var totalTheta := PositionSum(ok, Theta);
      var portfolioValue := PositionSum(ok, Value);
      var priced := WithMarketPrice(ok);
      var avg := if priced == [] then 0.0 else AbsPctSum(priced) / |priced| as real;
      CountsPartitionCompared(priced);
      Summary(
        portfolioValue, totalDelta, totalGamma, totalVega, totalTheta,
        portfolioValue + totalDelta * spotPrice * 0.01,
        |priced|, avg, CountSign(priced, true), CountSign(priced, false),
        RiskOfDelta(totalDelta, spotPrice), RiskOfGamma(totalGamma, spotPrice), Abs(totalVega) * 0.01, totalTheta)
  }

  function RiskOfDelta(totalDelta: real, spotPrice: real): (r: real)
    ensures 0.0 <= spotPrice ==> 0.0 <= r
  {
    Abs(totalDelta) * spotPrice * 0.01
  }

  function RiskOfGamma(totalGamma: real, spotPrice: real): (r: real)
    ensures 0.0 <= spotPrice ==> 0.0 <= r
  {
    Abs(totalGamma) * spotPrice * spotPrice * 0.0001
  }

  /** Each compared option counts as overpriced, underpriced, or neither when its difference is exactly 0. */
  lemma {:induction false} CountsPartitionCompared(rs: seq<PricedOption>)
    requires forall k :: 0 <= k < |rs| ==> rs[k].marketPrice.Some?
    ensures CountSign(rs, true) + CountSign(rs, false) + CountZero(rs) == |rs|
  {
    if rs != [] {
      CountsPartitionCompared(rs[..|rs| - 1]);
    }
  }

  /** The summary is an error exactly when no option was priced successfully. */
  lemma {:induction false} SummaryErrorIff(results: seq<PricedOption>, spotPrice: real)
    ensures GenerateSummary(results, spotPrice).NoSuccessfulCalculations? <==>
              forall k :: 0 <= k < |results| ==> !results[k].calculationSuccess
  {
    if results != [] {
      SummaryErrorIff(results[..|results| - 1], spotPrice);
      var ok := Successful(results);
      if results[|results| - 1].calculationSuccess {
        assert ok[|ok| - 1] == results[|results| - 1];
      }
    }
  }

  lemma {:induction false} SuccessfulAppend(a: seq<PricedOption>, b: seq<PricedOption>)
    ensures Successful(a + b) == Successful(a) + Successful(b)
    decreases |b|
  {
    if b == [] {
      assert a + b == a;
    } else {
      var b' := b[..|b| - 1];
      assert (a + b)[..|a + b| - 1] == a + b';
      SuccessfulAppend(a, b');
    }
  }

  lemma {:induction false} PositionSumAppend(a: seq<PricedOption>, b: seq<PricedOption>, m: Measure)
    ensures PositionSum(a + b, m) == PositionSum(a, m) + PositionSum(b, m)
    decreases |b|
  {
    if b == [] {
      assert a + b == a;
    } else {
      var b' := b[..|b| - 1];
      assert (a + b)[..|a + b| - 1] == a + b';
      PositionSumAppend(a, b', m);
    }
  }

  /** Portfolio value and net Greeks add up over two lists of results analysed together. */
  lemma TotalsAdd(a: seq<PricedOption>, b: seq<PricedOption>, m: Measure)
    ensures PositionSum(Successful(a + b), m) == PositionSum(Successful(a), m) + PositionSum(Successful(b), m)
  {
    SuccessfulAppend(a, b);
    PositionSumAppend(Successful(a), Successful(b), m);
  }

  // ----------------------------------------------------------------- CSV

  /** How Python's `str` renders a number; `None` prints as "None". */
  datatype Renderer = Renderer(number: real -> string)

  function Show(r: Renderer, x: real): string { r.number(x) }

  function ShowOption(r: Renderer, x: Option<real>): string
  {
    if x.None? then "None" else Show(r, x.value)
  }

  /** Whole days print as an integer, float days as Python's `str` of a float ("365.0", "182.5"). */
  function ShowDays(r: Renderer, d: ExpiryDays): string
  {
    match d
    case WholeDays(n) => IntToString(n)
    case FloatDays(x) => Show(r, x)
  }

  const CsvColumns: seq<string> :=
    ["symbol", "option_type", "strike", "expiry_days", "implied_volatility", "market_price", "theoretical_price",
     "price_difference", "price_difference_pct", "delta", "gamma", "vega", "theta", "position"]

  /** The header line: the column names separated by commas. */
  const CsvHeader: string := JoinWith(CsvColumns, ",")

  /** The fourteen cells of an option's CSV line; absent comparison fields are empty. */
  function CsvCells(r: Renderer, o: PricedOption): (cells: seq<string>)
    ensures |cells| == 14
  {
    [o.symbol, o.optionType, Show(r, o.strike), ShowDays(r, o.expiryDays), Show(r, o.impliedVolatility),
     ShowOption(r, o.marketPrice), Show(r, o.theoreticalPrice),
     if o.marketPrice.Some? then Show(r, ComparisonOf(o).difference) else "",
     if o.marketPrice.Some? then PctCell(r, o) else "",
     Show(r, o.delta), Show(r, o.gamma), Show(r, o.vega), Show(r, o.theta),
     if o.position.None? then "1" else Show(r, o.position.value)]
  }

  /** The percentage difference is the integer 0 over a theoretical price that is not positive. */
  function PctCell(r: Renderer, o: PricedOption): string
    requires o.marketPrice.Some?
  {
    if o.theoreticalPrice > 0.0 then Show(r, ComparisonOf(o).differencePct) else "0"
  }

  function CsvLines(r: Renderer, options: seq<PricedOption>): (lines: seq<string>)
    ensures |lines| == |options|
  {
    if options == [] then []
    else CsvLines(r, options[..|options| - 1]) + [JoinWith(CsvCells(r, options[|options| - 1]), ",")]
  }

  /** The analysis outcome the CSV writer receives. */
  datatype Analysis = Failed(error: string) | Analyzed(options: seq<PricedOption>)

  /** "Error,<message>" for a failed analysis, else the header and one line per option. */
  function FormatAsCsv(r: Renderer, analysis: Analysis): string
  {
    match analysis
    case Failed(error) => "Error," + error
    case Analyzed(options) => JoinWith([CsvHeader] + CsvLines(r, options), "\n")
  }

  /** No rendered cell of any option holds the character `c`. */
  predicate CellsAvoid(r: Renderer, options: seq<PricedOption>, c: char)
  {
    forall k, j, i :: 0 <= k < |options| && 0 <= j < 14 && 0 <= i < |CsvCells(r, options[k])[j]| ==>
      CsvCells(r, options[k])[j][i] != c
  }

  lemma {:induction false} CsvLinesAvoid(r: Renderer, options: seq<PricedOption>, c: char)
    requires c != ',' && CellsAvoid(r, options, c)
    ensures forall k, i :: 0 <= k < |options| && 0 <= i < |CsvLines(r, options)[k]| ==> CsvLines(r, options)[k][i] != c
  {
    if options != [] {
      var init := options[..|options| - 1];
      CsvLinesAvoid(r, init, c);
      var cells := CsvCells(r, options[|options| - 1]);
      JoinWithCount(cells, c);
      var line := JoinWith(cells, ",");
      forall i | 0 <= i < |line| ensures line[i] != c {
        JoinedAvoids(cells, ",", c);
      }
    }
  }

  /** Joining parts free of `c` with a separator free of `c` gives text free of `c`. */
  lemma {:induction false} JoinedAvoids(parts: seq<string>, sep: string, c: char)
    requires forall k, i :: 0 <= k < |parts| && 0 <= i < |parts[k]| ==> parts[k][i] != c
    requires forall i :: 0 <= i < |sep| ==> sep[i] != c
    ensures forall i :: 0 <= i < |JoinWith(parts, sep)| ==> JoinWith(parts, sep)[i] != c
  {
    if |parts| > 1 {
      JoinedAvoids(parts[..|parts| - 1], sep, c);
    }
  }

  /** Where no cell holds a line break, the CSV text has one line for the header and one per option. */
  lemma CsvLineCount(r: Renderer, options: seq<PricedOption>)
    requires CellsAvoid(r, options, '\n')
    ensures CountOf(FormatAsCsv(r, Analyzed(options)), '\n') == |options|
  {
    var lines := [CsvHeader] + CsvLines(r, options);
    CsvLinesAvoid(r, options, '\n');
    HeaderIsOneLine();
    JoinWithCount(lines, '\n');
  }

  /** The header holds no line break. */
  lemma HeaderIsOneLine()
    ensures forall i :: 0 <= i < |CsvHeader| ==> CsvHeader[i] != '\n'
  {
    assert forall k, i :: 0 <= k < |CsvColumns| && 0 <= i < |CsvColumns[k]| ==> CsvColumns[k][i] != '\n';
    JoinedAvoids(CsvColumns, ",", '\n');
  }

  /** Where no cell holds a comma, every option line has exactly fourteen fields. */
  lemma CsvFieldCount(r: Renderer, o: PricedOption)
    requires CellsAvoid(r, [o], ',')
    ensures CountOf(JoinWith(CsvCells(r, o), ","), ',') == 13
  {
    var cells := CsvCells(r, o);
    assert [o][0] == o;
    forall k, i | 0 <= k < |cells| && 0 <= i < |cells[k]| ensures cells[k][i] != ',' {
      assert CsvCells(r, [o][0])[k][i] != ',';
    }
    JoinWithCount(cells, ',');
  }
}
