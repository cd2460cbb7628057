/**
 * The volatility-surface prototype: a surface of (strike, expiry, implied
 * volatility, confidence) points with its nearest-point lookup and quality
 * metrics, the constant-volatility predictor, the market-regime heuristic,
 * the calibration of the SABR predictor's parameters, and the weighted
 * ensemble of predictors.
 */
module MlVolatility {
  import opened Numerics
  import Stats

  /** One point of a volatility surface. */
  datatype VolatilityPoint = VolatilityPoint(strike: real, timeToExpiry: real, impliedVol: real, confidence: real)

  /** A surface is the list of points it was built from; it never changes afterwards. */
  datatype VolatilitySurface = VolatilitySurface(points: seq<VolatilityPoint>)

  /** The volatility a lookup returns when it has nothing better. */
  const DefaultVol: real := 0.2

  // ------------------------------------------------------- nearest point

  /**
   * The squared distance from a point to (strike, expiry). The lookup
   * compares Euclidean distances; the square root is increasing, so
   * squared distances order the points the same way.
   */
  function SquaredDistance(p: VolatilityPoint, strike: real, timeToExpiry: real): (d: real)
    ensures 0.0 <= d
  {
    Square(p.strike - strike) + Square(p.timeToExpiry - timeToExpiry)
  }

  /** The first of the first `n` points that lies nearest to (strike, expiry). */
  function NearestIndex(points: seq<VolatilityPoint>, strike: real, timeToExpiry: real, n: nat): (i: nat)
    requires 0 < n <= |points|
    ensures i < n
  {
    if n == 1 then 0
    else
      var best := NearestIndex(points, strike, timeToExpiry, n - 1);
      if SquaredDistance(points[n - 1], strike, timeToExpiry) < SquaredDistance(points[best], strike, timeToExpiry)
      then n - 1 else best
  }

  /** The nearest point is no farther than any point, and strictly nearer than every point before it. */
  lemma {:induction false} NearestIsFirstMinimum(points: seq<VolatilityPoint>, strike: real, timeToExpiry: real, n: nat)
    requires 0 < n <= |points|
    ensures var i := NearestIndex(points, strike, timeToExpiry, n);
            (forall j :: 0 <= j < n ==>
               SquaredDistance(points[i], strike, timeToExpiry) <= SquaredDistance(points[j], strike, timeToExpiry)) &&
            (forall j :: 0 <= j < i ==>
               SquaredDistance(points[i], strike, timeToExpiry) < SquaredDistance(points[j], strike, timeToExpiry))
  {
    if n > 1 {
      NearestIsFirstMinimum(points, strike, timeToExpiry, n - 1);
    }
  }

  /** The volatility the surface gives at (strike, expiry): that of the nearest point, 0.2 on an empty surface. */
  function Interpolated(surface: VolatilitySurface, strike: real, timeToExpiry: real): real
  {
    if surface.points == [] then DefaultVol
    else surface.points[NearestIndex(surface.points, strike, timeToExpiry, |surface.points|)].impliedVol
  }

  method InterpolateVolatility(surface: VolatilitySurface, strike: real, timeToExpiry: real) returns (vol: real)
    ensures vol == Interpolated(surface, strike, timeToExpiry)
  {
    var points := surface.points;
    if |points| == 0 {
      return DefaultVol;
    }
    var found := false;
    var minDistance := 0.0;
    var resultVol := DefaultVol;
    ghost var best: nat := 0;
    for k := 0 to |points|
      invariant found <==> 0 < k
      invariant 0 < k ==> best == NearestIndex(points, strike, timeToExpiry, k) &&
                          minDistance == SquaredDistance(points[best], strike, timeToExpiry) &&
                          resultVol == points[best].impliedVol
    {
      var distance := SquaredDistance(points[k], strike, timeToExpiry);
      if !found || distance < minDistance {
        found := true;
        minDistance := distance;
        resultVol := points[k].impliedVol;
        best := k;
      }
    }
    vol := resultVol;
  }

  // ---------------------------------------------------- quality metrics

  /** The summed absolute change of implied volatility between neighbouring points among the first `n`. */
  function TotalVariation(points: seq<VolatilityPoint>, n: nat): (tv: real)
    requires 0 < n <= |points|
    ensures 0.0 <= tv
  {
    if n == 1 then 0.0
    else TotalVariation(points, n - 1) + Abs(points[n - 1].impliedVol - points[n - 2].impliedVol)
  }

  /** `1 / (1 + total variation)`, and 1 for fewer than two points. */
  function Smoothness(surface: VolatilitySurface): (s: real)
  {
    if |surface.points| < 2 then 1.0 else 1.0 / (1.0 + TotalVariation(surface.points, |surface.points|))
  }

  method SurfaceSmoothness(surface: VolatilitySurface) returns (s: real)
    ensures s == Smoothness(surface)
  {
    var points := surface.points;
    if |points| < 2 {
      return 1.0;
    }
    var totalVariation := 0.0;
    for i := 1 to |points|
      invariant totalVariation == TotalVariation(points, i)
    {
      totalVariation := totalVariation + Abs(points[i].impliedVol - points[i - 1].impliedVol);
    }
    s := 1.0 / (1.0 + totalVariation);
  }

  /** All of the first `n` points carry the same implied volatility. */
  predicate FlatUpTo(points: seq<VolatilityPoint>, n: nat)
    requires n <= |points|
  {
    forall i :: 0 < i < n ==> points[i].impliedVol == points[i - 1].impliedVol
  }

  lemma {:induction false} TotalVariationZeroIffFlat(points: seq<VolatilityPoint>, n: nat)
    requires 0 < n <= |points|
    ensures TotalVariation(points, n) == 0.0 <==> FlatUpTo(points, n)
  {
    if n > 1 {
      TotalVariationZeroIffFlat(points, n - 1);
    }
  }

  /** Smoothness lies in (0, 1], and is exactly 1 when all points share one implied volatility. */
  lemma SmoothnessOneIffFlat(surface: VolatilitySurface)
    ensures 0.0 < Smoothness(surface) <= 1.0
    ensures Smoothness(surface) == 1.0 <==> FlatUpTo(surface.points, |surface.points|)
  {
    var points := surface.points;
    if |points| >= 2 {
      var tv := TotalVariation(points, |points|);
      TotalVariationZeroIffFlat(points, |points|);
      assert 1.0 / (1.0 + tv) * (1.0 + tv) == 1.0;
    }
  }

  function Confidences(points: seq<VolatilityPoint>): (c: seq<real>)
    ensures |c| == |points|
    ensures forall i :: 0 <= i < |points| ==> c[i] == points[i].confidence
  {
    seq(|points|, i requires 0 <= i < |points| => points[i].confidence)
  }

  /** The mean confidence of the points, 0 on an empty surface. */
  method AverageConfidence(surface: VolatilitySurface) returns (c: real)
    ensures c == Stats.Mean(Confidences(surface.points))
  {
    var points := surface.points;
    if |points| == 0 {
      return 0.0;
    }
    ghost var cs := Confidences(points);
    var sumConfidence := 0.0;
    for i := 0 to |points|
      invariant sumConfidence == Sum(cs[..i])
    {
      assert cs[..i + 1] == cs[..i] + [points[i].confidence];
      SumAppend(cs[..i], points[i].confidence);
      sumConfidence := sumConfidence + points[i].confidence;
    }
    assert cs[..|points|] == cs;
    c := sumConfidence / |points| as real;
  }

  /** With every confidence in [0, 1] so is their average. */
  lemma AverageConfidenceInUnitInterval(surface: VolatilitySurface)
    requires surface.points != []
    requires forall i :: 0 <= i < |surface.points| ==> 0.0 <= surface.points[i].confidence <= 1.0
    ensures 0.0 <= Stats.Mean(Confidences(surface.points)) <= 1.0
  {
    Stats.MeanBetween(Confidences(surface.points), 0.0, 1.0);
  }

  // -------------------------------------------------- constant predictor

  /** The row of points the constant predictor makes for one strike. */
  function ConstantRow(vol: real, strike: real, expiries: seq<real>): (row: seq<VolatilityPoint>)
    ensures |row| == |expiries|
    ensures forall j :: 0 <= j < |expiries| ==> row[j] == VolatilityPoint(strike, expiries[j], vol, 1.0)
  {
    if expiries == [] then []
    else ConstantRow(vol, strike, expiries[..|expiries| - 1]) + [VolatilityPoint(strike, expiries[|expiries| - 1], vol, 1.0)]
  }

  /** The constant predictor's points, strike by strike. */
  function ConstantGrid(vol: real, strikes: seq<real>, expiries: seq<real>): seq<VolatilityPoint>
  {
    if strikes == [] then []
    else ConstantGrid(vol, strikes[..|strikes| - 1], expiries) + ConstantRow(vol, strikes[|strikes| - 1], expiries)
  }

  /** The surface of the constant predictor: one point per strike and expiry, each with its volatility and full confidence. */
  method PredictConstantSurface(constantVol: real, strikes: seq<real>, expiries: seq<real>)
    returns (surface: VolatilitySurface)
    ensures surface.points == ConstantGrid(constantVol, strikes, expiries)
  {
    var points: seq<VolatilityPoint> := [];
    for i := 0 to |strikes|
      invariant points == ConstantGrid(constantVol, strikes[..i], expiries)
    {
      assert strikes[..i + 1][..i] == strikes[..i];
      for j := 0 to |expiries|
        invariant points == ConstantGrid(constantVol, strikes[..i], expiries) + ConstantRow(constantVol, strikes[i], expiries[..j])
      {
        assert expiries[..j + 1][..j] == expiries[..j];
        var point := VolatilityPoint(strikes[i], expiries[j], constantVol, 1.0);
        points := points + [point];
      }
      assert expiries[..|expiries|] == expiries;
    }
    assert strikes[..|strikes|] == strikes;
    surface := VolatilitySurface(points);
  }

  /** The position of strike `i`, expiry `j` in a strike-major grid `width` expiries wide. */
  function GridIndex(i: nat, j: nat, width: nat): nat
  {
    i * width + j
  }

  /** A grid `rows` strikes high holds the positions of its points, the last row's after all others. */
  lemma GridIndexInRange(i: nat, j: nat, rows: nat, width: nat)
    requires i < rows && j < width
    ensures GridIndex(i, j, width) < rows * width
    ensures i + 1 < rows ==> GridIndex(i, j, width) < (rows - 1) * width
    ensures i + 1 == rows ==> GridIndex(i, j, width) == (rows - 1) * width + j
  {
    var m := rows - (i + 1);
    assert rows * width == (i + 1) * width + m * width;
    assert (i + 1) * width == i * width + width;
    if i + 1 < rows {
      assert (rows - 1) * width == (i + 1) * width + (m - 1) * width;
    }
  }

  lemma {:induction false} ConstantGridLength(vol: real, strikes: seq<real>, expiries: seq<real>)
    ensures |ConstantGrid(vol, strikes, expiries)| == |strikes| * |expiries|
  {
    if strikes != [] {
      var n := |strikes|;
      ConstantGridLength(vol, strikes[..n - 1], expiries);
      assert (n - 1) * |expiries| + |expiries| == n * |expiries|;
    }
  }

  /** Point `i·|expiries| + j` of the grid is made of strike `i` and expiry `j`. */
  lemma {:induction false} ConstantGridAt(vol: real, strikes: seq<real>, expiries: seq<real>, i: nat, j: nat)
    requires i < |strikes| && j < |expiries|
    ensures GridIndex(i, j, |expiries|) < |ConstantGrid(vol, strikes, expiries)|
    ensures ConstantGrid(vol, strikes, expiries)[GridIndex(i, j, |expiries|)]
         == VolatilityPoint(strikes[i], expiries[j], vol, 1.0)
  {
    var n := |strikes|;
    var init := strikes[..n - 1];
    var k := GridIndex(i, j, |expiries|);
    GridIndexInRange(i, j, n, |expiries|);
    ConstantGridLength(vol, strikes, expiries);
    ConstantGridLength(vol, init, expiries);
    var front := ConstantGrid(vol, init, expiries);
    var row := ConstantRow(vol, strikes[n - 1], expiries);
    assert ConstantGrid(vol, strikes, expiries) == front + row;
    if i < n - 1 {
      ConstantGridAt(vol, init, expiries, i, j);
      assert GridIndex(i, j, |expiries|) == k;
      assert front[k] == VolatilityPoint(init[i], expiries[j], vol, 1.0);
    } else {
      assert k == |front| + j;
    }
  }

  /** The grid holds |strikes|·|expiries| points in strike-major order. */
  lemma ConstantGridShape(vol: real, strikes: seq<real>, expiries: seq<real>)
    ensures |ConstantGrid(vol, strikes, expiries)| == |strikes| * |expiries|
    ensures forall i, j :: 0 <= i < |strikes| && 0 <= j < |expiries| ==>
              GridIndex(i, j, |expiries|) < |ConstantGrid(vol, strikes, expiries)| &&
              ConstantGrid(vol, strikes, expiries)[GridIndex(i, j, |expiries|)]
              == VolatilityPoint(strikes[i], expiries[j], vol, 1.0)
  {
    ConstantGridLength(vol, strikes, expiries);
    forall i, j | 0 <= i < |strikes| && 0 <= j < |expiries|
      ensures GridIndex(i, j, |expiries|) < |ConstantGrid(vol, strikes, expiries)| &&
              ConstantGrid(vol, strikes, expiries)[GridIndex(i, j, |expiries|)]
              == VolatilityPoint(strikes[i], expiries[j], vol, 1.0)
    {
      ConstantGridAt(vol, strikes, expiries, i, j);
    }
  }

  /** Every point of the constant grid has the constant volatility and confidence 1. */
  lemma {:induction false} ConstantGridIsFlat(vol: real, strikes: seq<real>, expiries: seq<real>)
    ensures forall k :: 0 <= k < |ConstantGrid(vol, strikes, expiries)| ==>
              ConstantGrid(vol, strikes, expiries)[k].impliedVol == vol &&
              ConstantGrid(vol, strikes, expiries)[k].confidence == 1.0
  {
    if strikes != [] {
      ConstantGridIsFlat(vol, strikes[..|strikes| - 1], expiries);
    }
  }

  /**
   * The constant predictor's surface looks up its volatility everywhere,
   * is perfectly smooth, and has average confidence 1.
   */
  lemma ConstantSurfaceIsConstant(vol: real, strikes: seq<real>, expiries: seq<real>, strike: real, timeToExpiry: real)
    requires strikes != [] && expiries != []
    ensures Interpolated(VolatilitySurface(ConstantGrid(vol, strikes, expiries)), strike, timeToExpiry) == vol
    ensures Smoothness(VolatilitySurface(ConstantGrid(vol, strikes, expiries))) == 1.0
    ensures Stats.Mean(Confidences(ConstantGrid(vol, strikes, expiries))) == 1.0
  {
    var g := ConstantGrid(vol, strikes, expiries);
    ConstantGridAt(vol, strikes, expiries, 0, 0);
    assert GridIndex(0, 0, |expiries|) == 0;
    ConstantGridIsFlat(vol, strikes, expiries);
    SmoothnessOneIffFlat(VolatilitySurface(g));
    Stats.MeanBetween(Confidences(g), 1.0, 1.0);
  }

  // ------------------------------------------------------ market regimes

  datatype MarketRegime = LowVolatility | HighVolatility | Trending | MeanReverting | Crisis

  /** The market inputs of a prediction. */
  datatype MarketFeatures = MarketFeatures(
    spotPrice: real,
    realizedVol1d: real,
    realizedVol5d: real,
    realizedVol21d: real,
    vixLevel: real,
    termStructureSlope: real,
    skewLevel: real,
    volumeRatio: real,
    timeOfDay: real,
    dayOfWeek: int,
    regime: MarketRegime)

  /** The regime heuristic: VIX above 30 is high, below 15 low, else a steep skew is a crisis. */
  function ClassifyRegime(features: MarketFeatures): (regime: MarketRegime)
    ensures regime != Trending
  {
    if features.vixLevel > 30.0 then HighVolatility
    else if features.vixLevel < 15.0 then LowVolatility
    else if Abs(features.skewLevel) > 0.1 then Crisis
    else MeanReverting
  }

  /** Each regime the heuristic returns corresponds to exactly one band of VIX and skew. */
  lemma RegimeBands(features: MarketFeatures)
    ensures ClassifyRegime(features) == HighVolatility <==> features.vixLevel > 30.0
    ensures ClassifyRegime(features) == LowVolatility <==> features.vixLevel < 15.0
    ensures ClassifyRegime(features) == Crisis <==>
              15.0 <= features.vixLevel <= 30.0 && (features.skewLevel > 0.1 || features.skewLevel < -0.1)
    ensures ClassifyRegime(features) == MeanReverting <==>
              15.0 <= features.vixLevel <= 30.0 && -0.1 <= features.skewLevel <= 0.1
  {
  }

  // ------------------------------------------------------ SABR predictor

  function ImpliedVols(points: seq<VolatilityPoint>): (v: seq<real>)
    ensures |v| == |points|
    ensures forall i :: 0 <= i < |points| ==> v[i] == points[i].impliedVol
  {
    seq(|points|, i requires 0 <= i < |points| => points[i].impliedVol)
  }

  /** The SABR predictor's parameters, which calibration overwrites. */
  class SabrPredictor {
    var alpha: real
    var beta: real
    var rho: real
    var nu: real

    constructor(alpha: real, beta: real, rho: real, nu: real)
      ensures this.alpha == alpha && this.beta == beta && this.rho == rho && this.nu == nu
    {
      this.alpha := alpha;
      this.beta := beta;
      this.rho := rho;
      this.nu := nu;
    }

    /** The confidence the SABR predictor reports. */
    function ModelConfidence(): real { 0.75 }

    /**
     * On non-empty market data: alpha becomes the mean implied volatility and
     * beta, rho and nu the defaults 0.5, -0.3 and 0.3. Empty data changes nothing.
     */
    method Calibrate(marketData: seq<VolatilityPoint>)
      modifies this
      ensures marketData == [] ==> alpha == old(alpha) && beta == old(beta) && rho == old(rho) && nu == old(nu)
      ensures marketData != [] ==>
                alpha == Stats.Mean(ImpliedVols(marketData)) && beta == 0.5 && rho == -0.3 && nu == 0.3
    {
      if |marketData| == 0 {
        return;
      }
      ghost var vols := ImpliedVols(marketData);
      var avgVol := 0.0;
      for i := 0 to |marketData|
        invariant avgVol == Sum(vols[..i])
      {
        assert vols[..i + 1] == vols[..i] + [marketData[i].impliedVol];
        SumAppend(vols[..i], marketData[i].impliedVol);
        avgVol := avgVol + marketData[i].impliedVol;
      }
      assert vols[..|marketData|] == vols;
      alpha := avgVol / |marketData| as real;
      beta := 0.5;
      rho := -0.3;
      nu := 0.3;
    }
  }

  /** The calibrated alpha lies between the smallest and largest market volatility. */
  lemma CalibratedAlphaWithinMarket(marketData: seq<VolatilityPoint>, lo: real, hi: real)
    requires marketData != []
    requires forall i :: 0 <= i < |marketData| ==> lo <= marketData[i].impliedVol <= hi
    ensures lo <= Stats.Mean(ImpliedVols(marketData)) <= hi
  {
    Stats.MeanBetween(ImpliedVols(marketData), lo, hi);
  }

  // ---------------------------------------------------------- ensemble

  /** The members an ensemble combines, with what each reports as its confidence. */
  datatype Predictor =
    | ConstantVolatility(vol: real)
    | Sabr(alpha: real, beta: real, rho: real, nu: real)
    | MachineLearning(modelPath: string)

  function PredictorConfidence(p: Predictor): real
  {
    match p
    case ConstantVolatility(_) => 0.5
    case Sabr(_, _, _, _) => 0.75
    case MachineLearning(_) => 0.9
  }

  function PredictorConfidences(ps: seq<Predictor>): (c: seq<real>)
    ensures |c| == |ps|
    ensures forall i :: 0 <= i < |ps| ==> c[i] == PredictorConfidence(ps[i])
  {
    seq(|ps|, i requires 0 <= i < |ps| => PredictorConfidence(ps[i]))
  }

  /** The weight of member `i`: its own weight, or 1 when the weight list is shorter. */
  function WeightOf(weights: seq<real>, i: nat): real
  {
    if i < |weights| then weights[i] else 1.0
  }

  function WeightedSum(values: seq<real>, weights: seq<real>, n: nat): real
    requires n <= |values|
  {
    if n == 0 then 0.0 else WeightedSum(values, weights, n - 1) + values[n - 1] * WeightOf(weights, n - 1)
  }

  function TotalWeight(weights: seq<real>, n: nat): real
  {
    if n == 0 then 0.0 else TotalWeight(weights, n - 1) + WeightOf(weights, n - 1)
  }

  /** The weighted mean of the members' values; `fallback` without members or without positive total weight. */
  function WeightedAverage(values: seq<real>, weights: seq<real>, fallback: real): real
  {
    if values == [] then fallback
    else if TotalWeight(weights, |values|) > 0.0 then WeightedSum(values, weights, |values|) / TotalWeight(weights, |values|)
    else fallback
  }

  /** `|predictors|` copies of `1 / |predictors|`. */
  function EqualWeights(n: nat): (w: seq<real>)
    requires 0 < n
    ensures |w| == n
    ensures forall i :: 0 <= i < n ==> w[i] == 1.0 / n as real
  {
    seq(n, i => 1.0 / n as real)
  }

  class EnsemblePredictor {
    var predictors: seq<Predictor>
    var weights: seq<real>

    constructor()
      ensures predictors == [] && weights == []
    {
      predictors := [];
      weights := [];
    }

    method AddPredictor(predictor: Predictor, weight: real)
      modifies this
      ensures predictors == old(predictors) + [predictor]
      ensures weights == old(weights) + [weight]
    {
      predictors := predictors + [predictor];
      weights := weights + [weight];
    }

    /**
     * The ensemble's volatility from its members' predictions at one strike
     * and expiry: their weighted mean, 0.2 without members or positive total weight.
     */
    method PredictVolatility(predictions: seq<real>) returns (vol: real)
      requires |predictions| == |predictors|
      ensures vol == WeightedAverage(predictions, weights, DefaultVol)
    {
      vol := Combine(predictions, weights, DefaultVol);
    }

    /** The members' confidences, weighted likewise, 0.5 without members or positive total weight. */
    method ModelConfidence() returns (confidence: real)
      ensures confidence == WeightedAverage(PredictorConfidences(predictors), weights, 0.5)
    {
      var cs := PredictorConfidences(predictors);
      confidence := Combine(cs, weights, 0.5);
    }

    /** With members and validation data, every member gets the weight 1/|members|. */
    method OptimizeWeights(validationData: seq<VolatilityPoint>)
      modifies this
      ensures predictors == old(predictors)
      ensures old(predictors) == [] || validationData == [] ==> weights == old(weights)
      ensures old(predictors) != [] && validationData != [] ==> weights == EqualWeights(|predictors|)
    {
      if |predictors| == 0 || |validationData| == 0 {
        return;
      }
      weights := EqualWeights(|predictors|);
    }
  }

  /** The accumulation loop the ensemble runs over its members. */
  method Combine(values: seq<real>, weights: seq<real>, fallback: real) returns (r: real)
    ensures r == WeightedAverage(values, weights, fallback)
  {
    if |values| == 0 {
      return fallback;
    }
    var weightedSum := 0.0;
    var totalWeight := 0.0;
    for i := 0 to |values|
      invariant weightedSum == WeightedSum(values, weights, i)
      invariant totalWeight == TotalWeight(weights, i)
    {
      var weight := if i < |weights| then weights[i] else 1.0;
      weightedSum := weightedSum + values[i] * weight;
      totalWeight := totalWeight + weight;
    }
    r := if totalWeight > 0.0 then weightedSum / totalWeight else fallback;
  }

  lemma {:induction false} WeightedSumOfUnanimous(values: seq<real>, weights: seq<real>, v: real, n: nat)
    requires n <= |values|
    requires forall i :: 0 <= i < n ==> values[i] == v
    ensures WeightedSum(values, weights, n) == v * TotalWeight(weights, n)
  {
    if n > 0 {
      WeightedSumOfUnanimous(values, weights, v, n - 1);
    }
  }

  /** When all members predict the same value the ensemble predicts it too, whatever the weights. */
  lemma UnanimousMembersAgree(values: seq<real>, weights: seq<real>, v: real, fallback: real)
    requires values != [] && TotalWeight(weights, |values|) > 0.0
    requires forall i :: 0 <= i < |values| ==> values[i] == v
    ensures WeightedAverage(values, weights, fallback) == v
  {
    WeightedSumOfUnanimous(values, weights, v, |values|);
    var t := TotalWeight(weights, |values|);
    assert v * t / t == v;
  }

  lemma {:induction false} WeightedSumBounds(values: seq<real>, weights: seq<real>, lo: real, hi: real, n: nat)
    requires n <= |values|
    requires forall i :: 0 <= i < n ==> lo <= values[i] <= hi && 0.0 <= WeightOf(weights, i)
    ensures lo * TotalWeight(weights, n) <= WeightedSum(values, weights, n) <= hi * TotalWeight(weights, n)
  {
    if n > 0 {
      WeightedSumBounds(values, weights, lo, hi, n - 1);
      var w := WeightOf(weights, n - 1);
      ScaleBetween(values[n - 1], w, lo, hi);
    }
  }

  lemma ScaleBetween(x: real, w: real, lo: real, hi: real)
    requires lo <= x <= hi && 0.0 <= w
    ensures lo * w <= x * w <= hi * w
  {
  }

  /** With non-negative weights the ensemble's value lies between its members' smallest and largest. */
  lemma WeightedAverageBetween(values: seq<real>, weights: seq<real>, lo: real, hi: real, fallback: real)
    requires values != [] && TotalWeight(weights, |values|) > 0.0
    requires forall i :: 0 <= i < |values| ==> lo <= values[i] <= hi && 0.0 <= WeightOf(weights, i)
    ensures lo <= WeightedAverage(values, weights, fallback) <= hi
  {
    var t := TotalWeight(weights, |values|);
    WeightedSumBounds(values, weights, lo, hi, |values|);
    Stats.DivideBounds(WeightedSum(values, weights, |values|), t, lo, hi);
  }

  /** An ensemble's confidence lies between 0.5 and 0.9 when its weights are non-negative. */
  lemma EnsembleConfidenceBounds(predictors: seq<Predictor>, weights: seq<real>)
    requires predictors != [] && TotalWeight(weights, |predictors|) > 0.0
    requires forall i :: 0 <= i < |predictors| ==> 0.0 <= WeightOf(weights, i)
    ensures 0.5 <= WeightedAverage(PredictorConfidences(predictors), weights, 0.5) <= 0.9
  {
    WeightedAverageBetween(PredictorConfidences(predictors), weights, 0.5, 0.9, 0.5);
  }

  lemma {:induction false} EqualWeightSums(values: seq<real>, n: nat, k: nat)
    requires 0 < n && k <= n && k <= |values|
    ensures WeightedSum(values, EqualWeights(n), k) == Sum(values[..k]) * (1.0 / n as real)
    ensures TotalWeight(EqualWeights(n), k) == k as real * (1.0 / n as real)
  {
    if k > 0 {
      EqualWeightSums(values, n, k - 1);
      var u := 1.0 / n as real;
      var front, x := values[..k - 1], values[k - 1];
      assert WeightOf(EqualWeights(n), k - 1) == u;
      assert values[..k] == front + [x];
      SumAppend(front, x);
      Distribute(Sum(front), x, u);
      Distribute((k - 1) as real, 1.0, u);
    }
  }

  /** After weight optimisation the ensemble's value is the plain mean of its members' values. */
  lemma EqualWeightsGiveMean(values: seq<real>)
    requires values != []
    ensures WeightedAverage(values, EqualWeights(|values|), DefaultVol) == Stats.Mean(values)
  {
    var n := |values|;
    EqualWeightSums(values, n, n);
    assert values[..n] == values;
    var u := 1.0 / n as real;
    assert n as real * u == 1.0;
    assert Sum(values) * u / (n as real * u) == Sum(values) / n as real;
  }
}
