/**
 * The decision logic of the performance utilities: the thread count and
 * hyperthreading advice per workload kind, the memory estimate per pricing
 * method, the comparison of a benchmark run with a baseline, regression
 * detection against the benchmark history, the performance score, and the
 * line-by-line loader of the benchmark history file.
 *
 * The hardware core counts, the lines of the history file, and the library
 * conversions `std::stoll`, `std::stod` and the clock are parameters.
 */
module PerformanceUtils {
  import opened Numerics
  import opened Text
  import Stats

  // ---------------------------------------------------------------- threads

  /** The workload kinds for which hyperthreading pays off. */
  predicate IsHyperthreadingBeneficial(workload: string)
  {
    workload == "memory" || workload == "io" || workload == "mixed"
  }

  /**
   * The number of threads to run a workload with on a machine with
   * `physical` cores and `logical` hardware threads.
   */
  function OptimalThreadCount(workload: string, physical: int, logical: int): (n: int)
    ensures 0 <= physical <= logical ==> physical <= n <= logical
    ensures workload == "memory" || workload == "io" ==> n == logical
  {
    if workload == "compute" || workload == "cpu" then physical
    else if workload == "memory" || workload == "io" then logical
    else if workload == "mixed" then CDiv(physical + logical, 2)
    else physical
  }

  /**
   * Where hyperthreading is not beneficial the thread count is the number of
   * physical cores whatever the number of hardware threads; where it is, a
   * machine with two extra hardware threads gets more threads than cores.
   */
  lemma ThreadCountFollowsHyperthreadingAdvice(workload: string, physical: nat, logical: int)
    ensures !IsHyperthreadingBeneficial(workload) ==> OptimalThreadCount(workload, physical, logical) == physical
    ensures IsHyperthreadingBeneficial(workload) ==> OptimalThreadCount(workload, physical, physical + 2) > physical
  {
  }

  // ----------------------------------------------------------------- memory

  const LongMin: int := -0x8000_0000_0000_0000
  const LongMax: int := 0x7FFF_FFFF_FFFF_FFFF
  const IntMin: int := -0x8000_0000
  const IntMax: int := 0x7FFF_FFFF
  /** `size_t` arithmetic is modulo 2^64. */
  const SizeModulus: nat := 0x1_0000_0000_0000_0000
  const MiB: nat := 1024 * 1024

  predicate InLong(x: int) { LongMin <= x <= LongMax }
  predicate InInt(x: int) { IntMin <= x <= IntMax }

  /** Conversion of a signed value to `size_t`. */
  function ToSize(x: int): (z: nat)
    ensures z < SizeModulus
    ensures 0 <= x < SizeModulus ==> z == x
  {
    x % SizeModulus
  }

  /**
   * The casts and products of the estimate stay inside their C++ types
   * (`long` for paths and steps, `int` for `S_steps`), as the source needs
   * for a defined result.
   */
  predicate EstimateDefined(pricing: string, parameters: map<string, real>)
  {
    && (pricing == "monte_carlo" && "paths" in parameters ==>
          InLong(Trunc(parameters["paths"]) * 8))
    && (pricing == "pde" && "S_steps" in parameters && "T_steps" in parameters ==>
          InInt(Trunc(parameters["S_steps"]) * 24))
    && (pricing == "slv" && "paths" in parameters && "steps" in parameters ==>
          InLong(Trunc(parameters["paths"])) && InLong(Trunc(parameters["steps"])) &&
          InLong(Trunc(parameters["paths"]) * Trunc(parameters["steps"]) * 16))
  }

  /** Bytes the Monte Carlo payoffs take, before the control-variate doubling. */
  function MonteCarloBytes(parameters: map<string, real>): int
    requires "paths" in parameters
  {
    Trunc(parameters["paths"]) * 8
  }

  predicate UsesControlVariate(parameters: map<string, real>)
  {
    "control_variate" in parameters && parameters["control_variate"] > 0.0
  }

  /** Bytes of the three PDE arrays. */
  function PdeBytes(parameters: map<string, real>): int
    requires "S_steps" in parameters
  {
    Trunc(parameters["S_steps"]) * 3 * 8
  }

  /** Bytes of the stored spot and variance paths of the SLV simulation. */
  function SlvBytes(parameters: map<string, real>): int
    requires "paths" in parameters && "steps" in parameters
  {
    Trunc(parameters["paths"]) * Trunc(parameters["steps"]) * 2 * 8
  }

  /** The memory a pricing run needs, in MiB, as a `size_t`. */
  function EstimateMemoryRequirement(pricing: string, parameters: map<string, real>): (mb: nat)
    requires EstimateDefined(pricing, parameters)
    ensures mb < SizeModulus
    ensures pricing != "monte_carlo" && pricing != "pde" && pricing != "slv" ==> mb == 0
    ensures pricing == "monte_carlo" && "paths" !in parameters ==> mb == 0
    ensures pricing == "pde" && ("S_steps" !in parameters || "T_steps" !in parameters) ==> mb == 0
    ensures pricing == "slv" && ("paths" !in parameters || "steps" !in parameters) ==> mb == 0
  {
    if pricing == "monte_carlo" then
      if "paths" in parameters then
        var base := ToSize(CDiv(MonteCarloBytes(parameters), MiB));
        if UsesControlVariate(parameters) then ToSize(base * 2) else base
      else 0
    else if pricing == "pde" then
      if "S_steps" in parameters && "T_steps" in parameters then ToSize(CDiv(PdeBytes(parameters), MiB)) else 0
    else if pricing == "slv" then
      if "paths" in parameters && "steps" in parameters then ToSize(CDiv(SlvBytes(parameters), MiB)) else 0
    else 0
  }

  /** For a non-negative byte count the truncated quotient is the whole MiB it covers. */
  lemma WholeMebibytes(bytes: int)
    requires 0 <= bytes <= LongMax
    ensures ToSize(CDiv(bytes, MiB)) * MiB <= bytes < (ToSize(CDiv(bytes, MiB)) + 1) * MiB
  {
    assert CDiv(bytes, MiB) == bytes / MiB;
  }

  /**
   * With a non-negative number of paths the Monte Carlo estimate is the
   * whole MiB the payoffs take, doubled for a control variate.
   */
  lemma MonteCarloEstimateCoversPayoffs(parameters: map<string, real>)
    requires EstimateDefined("monte_carlo", parameters)
    requires "paths" in parameters && 0.0 <= parameters["paths"]
    ensures var mb := EstimateMemoryRequirement("monte_carlo", parameters);
            var factor := if UsesControlVariate(parameters) then 2 else 1;
            var bytes := MonteCarloBytes(parameters);
            mb * MiB <= factor * bytes < mb * MiB + factor * MiB
  {
    var bytes := MonteCarloBytes(parameters);
    WholeMebibytes(bytes);
    var base := ToSize(CDiv(bytes, MiB));
    assert base * MiB <= bytes;
    assert base * 2 < SizeModulus;
  }

  /** More paths never give a smaller Monte Carlo estimate, with the same control-variate choice. */
  lemma MonteCarloEstimateMonotone(parameters: map<string, real>, morePaths: real)
    requires EstimateDefined("monte_carlo", parameters)
    requires "paths" in parameters && 0.0 <= parameters["paths"] <= morePaths
    requires EstimateDefined("monte_carlo", parameters["paths" := morePaths])
    ensures EstimateMemoryRequirement("monte_carlo", parameters)
         <= EstimateMemoryRequirement("monte_carlo", parameters["paths" := morePaths])
  {
    var more := parameters["paths" := morePaths];
    assert UsesControlVariate(more) == UsesControlVariate(parameters);
    var a, b := MonteCarloBytes(parameters), MonteCarloBytes(more);
    assert Trunc(parameters["paths"]) <= Trunc(morePaths);
    QuotientMonotone(a, b);
  }

  lemma QuotientMonotone(a: int, b: int)
    requires 0 <= a <= b <= LongMax
    ensures ToSize(CDiv(a, MiB)) <= ToSize(CDiv(b, MiB))
    ensures ToSize(CDiv(b, MiB)) * 2 < SizeModulus
  {
    WholeMebibytes(a);
    WholeMebibytes(b);
  }

  /**
   * A negative path count of at least 2^17 in magnitude makes the truncated
   * quotient negative, and the conversion to `size_t` turns it into an
   * estimate of more than 2^63 MiB.
   */
  lemma NegativePathsWrapAround(parameters: map<string, real>)
    requires EstimateDefined("monte_carlo", parameters)
    requires "paths" in parameters && parameters["paths"] <= -131072.0
    requires !UsesControlVariate(parameters)
    ensures EstimateMemoryRequirement("monte_carlo", parameters) > LongMax
  {
    var bytes := MonteCarloBytes(parameters);
    assert bytes <= -1048576;
    var q := CDiv(bytes, MiB);
    assert q == -((-bytes) / MiB);
    assert LongMin <= bytes;
    assert -0x800_0000_0000 <= q < 0;
  }

  /** With non-negative step counts the PDE and SLV estimates never exceed their byte counts in MiB. */
  lemma GridEstimatesCoverArrays(pricing: string, parameters: map<string, real>)
    requires pricing == "pde" || pricing == "slv"
    requires EstimateDefined(pricing, parameters)
    requires pricing == "pde" ==> "S_steps" in parameters && "T_steps" in parameters && 0.0 <= parameters["S_steps"]
    requires pricing == "slv" ==>
               "paths" in parameters && "steps" in parameters && 0.0 <= parameters["paths"] && 0.0 <= parameters["steps"]
    ensures var bytes := if pricing == "pde" then PdeBytes(parameters) else SlvBytes(parameters);
            var mb := EstimateMemoryRequirement(pricing, parameters);
            mb * MiB <= bytes < (mb + 1) * MiB
  {
    if pricing == "pde" {
      var bytes := PdeBytes(parameters);
      assert 0 <= bytes <= IntMax;
      WholeMebibytes(bytes);
    } else {
      var p, s := Trunc(parameters["paths"]), Trunc(parameters["steps"]);
      assert 0 <= p && 0 <= s;
      ProductNonNegativeInt(p, s);
      var bytes := SlvBytes(parameters);
      assert bytes == p * s * 16;
      WholeMebibytes(bytes);
    }
  }

  lemma ProductNonNegativeInt(a: int, b: int)
    requires 0 <= a && 0 <= b
    ensures 0 <= a * b
  {
  }

  // ------------------------------------------------------------- benchmarks

  /** One benchmark measurement. */
  datatype BenchmarkResult = BenchmarkResult(
    testName: string,
    executionTimeMs: real,
    throughput: real,
    accuracyVsReference: real,
    memoryUsedMb: nat,
    customMetrics: map<string, real>)

  /** The time ratio of test `i`, counted only over a positive baseline time. */
  function TimeRatio(current: seq<BenchmarkResult>, baseline: seq<BenchmarkResult>, i: nat): real
    requires i < |current| && i < |baseline|
  {
    if baseline[i].executionTimeMs > 0.0 then current[i].executionTimeMs / baseline[i].executionTimeMs else 0.0
  }

  /** The sum of the first `n` time ratios. */
  function RatioSum(current: seq<BenchmarkResult>, baseline: seq<BenchmarkResult>, n: nat): real
    requires n <= |current| && n <= |baseline|
  {
    if n == 0 then 0.0 else RatioSum(current, baseline, n - 1) + TimeRatio(current, baseline, n - 1)
  }

  /**
   * The mean time ratio of a run against a baseline run: 0 when the runs
   * have different lengths, and `None` (the quiet NaN of 0/0) for two empty runs.
   */
  function BaselineComparison(current: seq<BenchmarkResult>, baseline: seq<BenchmarkResult>): Option<real>
  {
    if |current| != |baseline| then Some(0.0)
    else if |current| == 0 then None
    else Some(RatioSum(current, baseline, |current|) / |current| as real)
  }

  method CompareToBaseline(current: seq<BenchmarkResult>, baseline: seq<BenchmarkResult>) returns (r: Option<real>)
    ensures r == BaselineComparison(current, baseline)
  {
    if |current| != |baseline| {
      return Some(0.0);
    }
    var totalRatio := 0.0;
    for i := 0 to |current|
      invariant totalRatio == RatioSum(current, baseline, i)
    {
      if baseline[i].executionTimeMs > 0.0 {
        totalRatio := totalRatio + current[i].executionTimeMs / baseline[i].executionTimeMs;
      }
    }
    if |current| == 0 {
      return None;
    }
    r := Some(totalRatio / |current| as real);
  }

  predicate PositiveTimes(run: seq<BenchmarkResult>)
  {
    forall i :: 0 <= i < |run| ==> run[i].executionTimeMs > 0.0
  }

  /** Each of the first `n` ratios lies in [0, 1] when no test got slower. */
  lemma {:induction false} RatioSumAtMost(current: seq<BenchmarkResult>, baseline: seq<BenchmarkResult>, n: nat)
    requires n <= |current| && n <= |baseline|
    requires forall i :: 0 <= i < n ==> 0.0 <= current[i].executionTimeMs <= baseline[i].executionTimeMs
    ensures 0.0 <= RatioSum(current, baseline, n) <= n as real
  {
    if n > 0 {
      RatioSumAtMost(current, baseline, n - 1);
      var c, b := current[n - 1].executionTimeMs, baseline[n - 1].executionTimeMs;
      if b > 0.0 {
        assert c / b * b == c;
        assert 0.0 <= c / b <= 1.0;
      }
    }
  }

  /** Over a run no test of which got slower, the comparison lies in [0, 1]. */
  lemma NoSlowdownComparesAtMostOne(current: seq<BenchmarkResult>, baseline: seq<BenchmarkResult>)
    requires |current| == |baseline| > 0
    requires forall i :: 0 <= i < |current| ==> 0.0 <= current[i].executionTimeMs <= baseline[i].executionTimeMs
    ensures BaselineComparison(current, baseline).Some?
    ensures 0.0 <= BaselineComparison(current, baseline).value <= 1.0
  {
    var n := |current|;
    RatioSumAtMost(current, baseline, n);
    Stats.DivideBounds(RatioSum(current, baseline, n), n as real, 0.0, 1.0);
  }

  lemma {:induction false} RatioSumOfItself(run: seq<BenchmarkResult>, n: nat)
    requires n <= |run| && PositiveTimes(run)
    ensures RatioSum(run, run, n) == n as real
  {
    if n > 0 {
      RatioSumOfItself(run, n - 1);
      var t := run[n - 1].executionTimeMs;
      assert t / t == 1.0;
    }
  }

  /** A non-empty run with positive times compared with itself gives exactly 1. */
  lemma ComparisonWithItselfIsOne(run: seq<BenchmarkResult>)
    requires |run| > 0 && PositiveTimes(run)
    ensures BaselineComparison(run, run) == Some(1.0)
  {
    var n := |run| as real;
    RatioSumOfItself(run, |run|);
    assert n / n == 1.0;
  }

  /** The throughputs of a run, in order. */
  function Throughputs(results: seq<BenchmarkResult>): (t: seq<real>)
    ensures |t| == |results|
    ensures forall i :: 0 <= i < |results| ==> t[i] == results[i].throughput
  {
    seq(|results|, i requires 0 <= i < |results| => results[i].throughput)
  }

  /** The performance score: the mean throughput, 0 for no results. */
  method CalculatePerformanceScore(results: seq<BenchmarkResult>) returns (score: real)
    ensures score == Stats.Mean(Throughputs(results))
  {
    if |results| == 0 {
      return 0.0;
    }
    ghost var t := Throughputs(results);
    var totalScore := 0.0;
    for i := 0 to |results|
      invariant totalScore == Sum(t[..i])
    {
      assert t[..i + 1] == t[..i] + [results[i].throughput];
      SumAppend(t[..i], results[i].throughput);
      totalScore := totalScore + results[i].throughput;
    }
    assert t[..|results|] == t;
    score := totalScore / |results| as real;
  }

  /** The score of a non-empty run lies between its smallest and largest throughput. */
  lemma ScoreBetweenThroughputs(results: seq<BenchmarkResult>, lo: real, hi: real)
    requires |results| > 0
    requires forall i :: 0 <= i < |results| ==> lo <= results[i].throughput <= hi
    ensures lo <= Stats.Mean(Throughputs(results)) <= hi
  {
    Stats.MeanBetween(Throughputs(results), lo, hi);
  }

  // ------------------------------------------------------------ regressions

  /**
   * A stored run of the benchmark suite. `performanceScore` is `None` while
   * the field holds the indeterminate value of a default-initialised
   * `double`; `timestamp` is seconds since the epoch.
   */
  datatype RegressionTracker = RegressionTracker(
    version: string,
    timestamp: int,
    results: seq<BenchmarkResult>,
    performanceScore: Option<real>,
    hardwareFingerprint: string)

  /**
   * A reported regression: the test name and its relative slowdown; the
   * message the source builds from them is
   * `name + ": " + std::to_string(100 * slowdown) + "% slower"`.
   */
  datatype Regression = Regression(testName: string, slowdown: real)

  /** Test `i` got slower than its positive baseline by more than the threshold. */
  predicate Regressed(current: seq<BenchmarkResult>, baseline: seq<BenchmarkResult>, threshold: real, i: nat)
    requires i < |current| && i < |baseline|
  {
    baseline[i].executionTimeMs > 0.0 && Slowdown(current, baseline, i) > threshold
  }

  function Slowdown(current: seq<BenchmarkResult>, baseline: seq<BenchmarkResult>, i: nat): real
    requires i < |current| && i < |baseline| && baseline[i].executionTimeMs > 0.0
  {
    (current[i].executionTimeMs - baseline[i].executionTimeMs) / baseline[i].executionTimeMs
  }

  function Report(current: seq<BenchmarkResult>, baseline: seq<BenchmarkResult>, i: nat): Regression
    requires i < |current| && i < |baseline| && baseline[i].executionTimeMs > 0.0
  {
    Regression(current[i].testName, Slowdown(current, baseline, i))
  }

  /** The regressions among the first `n` tests, in test order. */
  function RegressionsUpTo(current: seq<BenchmarkResult>, baseline: seq<BenchmarkResult>, threshold: real, n: nat): seq<Regression>
    requires n <= |current| && n <= |baseline|
  {
    if n == 0 then []
    else
      var earlier := RegressionsUpTo(current, baseline, threshold, n - 1);
      if Regressed(current, baseline, threshold, n - 1) then earlier + [Report(current, baseline, n - 1)] else earlier
  }

  /** The number of tests the current run and the latest baseline have in common. */
  function Compared(current: seq<BenchmarkResult>, history: seq<RegressionTracker>): nat
    requires history != []
  {
    IMin(|current|, |history[|history| - 1].results|)
  }

  /** Regressions of a run against the latest stored run; none without history. */
  function Regressions(current: seq<BenchmarkResult>, history: seq<RegressionTracker>, threshold: real): seq<Regression>
  {
    if history == [] then []
    else RegressionsUpTo(current, history[|history| - 1].results, threshold, Compared(current, history))
  }

  method DetectRegressions(current: seq<BenchmarkResult>, history: seq<RegressionTracker>, threshold: real)
    returns (regressions: seq<Regression>)
    ensures regressions == Regressions(current, history, threshold)
  {
    regressions := [];
    if history == [] {
      return;
    }
    var latestBaseline := history[|history| - 1].results;
    var n := Compared(current, history);
    for i := 0 to n
      invariant regressions == RegressionsUpTo(current, latestBaseline, threshold, i)
    {
      var currentTime := current[i].executionTimeMs;
      var baselineTime := latestBaseline[i].executionTimeMs;
      if baselineTime > 0.0 {
        var regression := (currentTime - baselineTime) / baselineTime;
        if regression > threshold {
          regressions := regressions + [Regression(current[i].testName, regression)];
        }
      }
    }
  }

  /**
   * Every reported regression is the report of a compared test that got
   * slower by more than the threshold, and every such test is reported.
   */
  lemma {:induction false} RegressionsExactlyTheSlowTests(
    current: seq<BenchmarkResult>, baseline: seq<BenchmarkResult>, threshold: real, n: nat)
    requires n <= |current| && n <= |baseline|
    ensures forall r :: r in RegressionsUpTo(current, baseline, threshold, n) ==>
              r.slowdown > threshold &&
              exists i :: 0 <= i < n && Regressed(current, baseline, threshold, i) && r == Report(current, baseline, i)
    ensures forall i :: 0 <= i < n && Regressed(current, baseline, threshold, i) ==>
              Report(current, baseline, i) in RegressionsUpTo(current, baseline, threshold, n)
  {
    if n > 0 {
      RegressionsExactlyTheSlowTests(current, baseline, threshold, n - 1);
    }
  }

  /** At most one regression per compared test. */
  lemma {:induction false} RegressionsAtMostCompared(
    current: seq<BenchmarkResult>, baseline: seq<BenchmarkResult>, threshold: real, n: nat)
    requires n <= |current| && n <= |baseline|
    ensures |RegressionsUpTo(current, baseline, threshold, n)| <= n
  {
    if n > 0 {
      RegressionsAtMostCompared(current, baseline, threshold, n - 1);
    }
  }

  // ------------------------------------------------------- history loading

  /** The library conversions the loader calls: `std::stoll`, `std::stod` (`None` when they throw) and the clock. */
  datatype Conversions = Conversions(stoll: string -> Option<int>, stod: string -> Option<real>, now: int)

  function ToLong(conv: Conversions, s: string): Option<int> { conv.stoll(s) }
  function ToDouble(conv: Conversions, s: string): Option<real> { conv.stod(s) }

  /** `s.find(pat, from)` with a `from` past the end read as "not found". */
  function Find(s: string, pat: string, from: nat): (r: Option<nat>)
    ensures r.Some? ==> from <= r.value && r.value + |pat| <= |s|
  {
    FindFrom(s, pat, from)
  }

  /** `npos + 1` wraps around to 0; any other position just moves on by one. */
  function AfterPosition(p: Option<nat>): nat
  {
    if p.None? then 0 else p.value + 1
  }

  /**
   * The quoted value after the first ':' of a line, as the loader extracts
   * it: `start = line.find("\"", colon + 1) + 1` wraps to 0 when there is no
   * quote, so the guard `start != npos` never fails and the text before the
   * line's first quote is taken instead.
   */
  function QuotedValueAsWritten(line: string): (v: Option<string>)
    ensures v.Some? ==> |v.value| <= |line|
  {
    var start := AfterPosition(Find(line, "\"", AfterPosition(Find(line, ":", 0))));
    if start <= |line| then
      var end := Find(line, "\"", start);
      if end.Some? then Some(line[start..end.value]) else None
    else None
  }

  /** The quoted value after the first ':' of a line: `None` unless both quotes are there. */
  function QuotedValue(line: string): (v: Option<string>)
    ensures v.Some? ==> |v.value| <= |line|
  {
    var quote := Find(line, "\"", AfterPosition(Find(line, ":", 0)));
    if quote.None? then None
    else
      var start := quote.value + 1;
      var end := Find(line, "\"", start);
      if end.Some? then Some(line[start..end.value]) else None
  }

  /** A value read between two quotes holds no quote itself. */
  lemma QuotedValueHasNoQuote(line: string)
    requires QuotedValue(line).Some?
    ensures forall k :: 0 <= k < |QuotedValue(line).value| ==> QuotedValue(line).value[k] != '"'
  {
    var quote := Find(line, "\"", AfterPosition(Find(line, ":", 0)));
    var start := quote.value + 1;
    var end := Find(line, "\"", start);
    var v := QuotedValue(line).value;
    assert v == line[start..end.value];
    forall k | 0 <= k < |v| ensures v[k] != '"' {
      assert !OccursAt(line, "\"", start + k);
      assert line[start + k..start + k + 1] == [line[start + k]];
    }
  }

  /** Whenever an opening quote follows the colon, both readings agree. */
  lemma QuotedValueAgreesWhenQuoted(line: string)
    requires Find(line, "\"", AfterPosition(Find(line, ":", 0))).Some?
    ensures QuotedValueAsWritten(line) == QuotedValue(line)
  {
  }

  /**
   * An unquoted version line: the line as written yields the empty string
   * (the text before its first quote), where no value was meant to be read.
   */
  lemma UnquotedVersionReadsEmpty()
    ensures QuotedValueAsWritten("\"version\": 3") == Some("")
    ensures QuotedValue("\"version\": 3") == None
  {
    var line := "\"version\": 3";
    assert line[9..10] == ":";
    assert Find(line, ":", 0) == Some(9) by {
      forall k | 0 <= k < 9 ensures !OccursAt(line, ":", k) {
        assert line[k..k + 1] == [line[k]];
      }
    }
    assert Find(line, "\"", 10) == None by {
      forall k | 10 <= k ensures !OccursAt(line, "\"", k) {
        if k < |line| { assert line[k..k + 1] == [line[k]]; }
      }
    }
    assert line[0..1] == "\"";
  }

  /**
   * An unquoted timestamp line, as the program's own writer never produces
   * it: the value read is the empty text before the line's first quote,
   * `std::stoll` rejects it, and the timestamp becomes the current time.
   */
  lemma UnquotedTimestampReadsNow(st: LoaderState, conv: Conversions)
    requires ToLong(conv, "") == None
    ensures LoadLine(st, "\"timestamp\": 1700000000,", conv).current.timestamp == conv.now
  {
    var line := "\"timestamp\": 1700000000,";
    UnquotedTimestampReadsEmpty();
    TimestampLineLacksVersion();
    assert OccursAt(line, "\"timestamp\":", 0) by {
      assert line[0..|"\"timestamp\":"|] == "\"timestamp\":";
    }
  }

  /** The unquoted timestamp line holds no version key: it has no letter `v`. */
  lemma TimestampLineLacksVersion()
    ensures !Contains("\"timestamp\": 1700000000,", "\"version\":")
  {
    var line := "\"timestamp\": 1700000000,";
    var a, b, c, d := "\"times", "tamp\": ", "170000", "0000,";
    assert forall k :: 0 <= k < |a| ==> a[k] != 'v';
    assert forall k :: 0 <= k < |b| ==> b[k] != 'v';
    assert forall k :: 0 <= k < |c| ==> c[k] != 'v';
    assert forall k :: 0 <= k < |d| ==> d[k] != 'v';
    assert line == a + b + c + d;
    AbsentCharNotFound(line, "\"version\":", 0, 1);
  }

  /** The unquoted timestamp line reads as the empty text before its first quote. */
  lemma UnquotedTimestampReadsEmpty()
    ensures QuotedValueAsWritten("\"timestamp\": 1700000000,") == Some("")
  {
    var line := "\"timestamp\": 1700000000,";
    assert line[11..12] == ":";
    assert Find(line, ":", 0) == Some(11) by {
      forall k | 0 <= k < 11 ensures !OccursAt(line, ":", k) {
        assert line[k..k + 1] == [line[k]];
      }
    }
    assert Find(line, "\"", 12) == None by {
      forall k | 12 <= k ensures !OccursAt(line, "\"", k) {
        if k < |line| { assert line[k..k + 1] == [line[k]]; }
      }
    }
    assert line[0..1] == "\"";
  }

  /** The loader's state between lines. */
  datatype LoaderState = LoaderState(history: seq<RegressionTracker>, current: RegressionTracker, inResults: bool)

  /** `RegressionTracker current_tracker;`: strings and results empty, the epoch, an indeterminate score. */
  const DefaultTracker: RegressionTracker := RegressionTracker("", 0, [], None, "")
  /** `RegressionTracker{}`: as the default, with a zero score. */
  const ResetTracker: RegressionTracker := RegressionTracker("", 0, [], Some(0.0), "")

  const InitialLoaderState: LoaderState := LoaderState([], DefaultTracker, false)

  /** The text after the first ':' up to the first ',' after it. */
  function ScoreText(line: string): string
  {
    var rest := line[AfterPosition(Find(line, ":", 0))..];
    var comma := Find(rest, ",", 0);
    if comma.None? then rest else rest[..comma.value]
  }

  /** How one trimmed line changes the loader's state: the first key the line contains decides. */
  function LoadLine(st: LoaderState, line: string, conv: Conversions): (next: LoaderState)
    ensures st.history <= next.history && |next.history| <= |st.history| + 1
  {
    var t := st.current;
    if Contains(line, "\"version\":") then
      var v := QuotedValueAsWritten(line);
      if v.Some? then st.(current := t.(version := v.value)) else st
    else if Contains(line, "\"timestamp\":") then
      var v := QuotedValueAsWritten(line);
      if v.Some? then
        var stamp := ToLong(conv, v.value);
        st.(current := t.(timestamp := if stamp.Some? then stamp.value else conv.now))
      else st
    else if Contains(line, "\"performance_score\":") then
      var score := ToDouble(conv, ScoreText(line));
      st.(current := t.(performanceScore := Some(if score.Some? then score.value else 1.0)))
    else if Contains(line, "\"hardware_fingerprint\":") then
      var v := QuotedValueAsWritten(line);
      if v.Some? then st.(current := t.(hardwareFingerprint := v.value)) else st
    else if Contains(line, "\"results\":") then
      st.(inResults := true, current := t.(results := []))
    else if Contains(line, "}") && !st.inResults then
      LoaderState(st.history + [t], ResetTracker, false)
    else if Contains(line, "]") && st.inResults then
      st.(inResults := false)
    else st
  }

  /** The loader's state after the given lines. */
  function LoadLines(lines: seq<string>, conv: Conversions): LoaderState
  {
    if lines == [] then InitialLoaderState
    else LoadLine(LoadLines(lines[..|lines| - 1], conv), Trim(lines[|lines| - 1], Blanks), conv)
  }

  /** The history a file with these lines loads to; a missing file reads as no lines. */
  function LoadedHistory(lines: seq<string>, conv: Conversions): seq<RegressionTracker>
  {
    LoadLines(lines, conv).history
  }

  method LoadBenchmarkHistory(lines: seq<string>, conv: Conversions) returns (history: seq<RegressionTracker>)
    ensures history == LoadedHistory(lines, conv)
  {
    history := [];
    var currentTracker := DefaultTracker;
    var inResultsArray := false;
    for k := 0 to |lines|
      invariant LoaderState(history, currentTracker, inResultsArray) == LoadLines(lines[..k], conv)
    {
      assert lines[..k + 1][..k] == lines[..k];
      var line := Trim(lines[k], Blanks);
      if Contains(line, "\"version\":") {
        var v := QuotedValueAsWritten(line);
        if v.Some? {
          currentTracker := currentTracker.(version := v.value);
        }
      } else if Contains(line, "\"timestamp\":") {
        var v := QuotedValueAsWritten(line);
        if v.Some? {
          var stamp := ToLong(conv, v.value);
          if stamp.Some? {
            currentTracker := currentTracker.(timestamp := stamp.value);
          } else {
            currentTracker := currentTracker.(timestamp := conv.now);
          }
        }
      } else if Contains(line, "\"performance_score\":") {
        var score := ToDouble(conv, ScoreText(line));
        if score.Some? {
          currentTracker := currentTracker.(performanceScore := Some(score.value));
        } else {
          currentTracker := currentTracker.(performanceScore := Some(1.0));
        }
      } else if Contains(line, "\"hardware_fingerprint\":") {
        var v := QuotedValueAsWritten(line);
        if v.Some? {
          currentTracker := currentTracker.(hardwareFingerprint := v.value);
        }
      } else if Contains(line, "\"results\":") {
        inResultsArray := true;
        currentTracker := currentTracker.(results := []);
      } else if Contains(line, "}") && !inResultsArray {
        history := history + [currentTracker];
        currentTracker := ResetTracker;
      } else if Contains(line, "]") && inResultsArray {
        inResultsArray := false;
      }
    }
    assert lines[..|lines|] == lines;
  }

  /** No tracker the loader builds ever holds results: the loader clears them and never adds one. */
  lemma {:induction false} LoadedTrackersHaveNoResults(lines: seq<string>, conv: Conversions)
    ensures NoResults(LoadLines(lines, conv))
    ensures forall i :: 0 <= i < |LoadedHistory(lines, conv)| ==> LoadedHistory(lines, conv)[i].results == []
  {
    if lines != [] {
      LoadedTrackersHaveNoResults(lines[..|lines| - 1], conv);
      LoadLineKeepsResultsEmpty(LoadLines(lines[..|lines| - 1], conv), Trim(lines[|lines| - 1], Blanks), conv);
    }
  }

  predicate NoResults(st: LoaderState)
  {
    st.current.results == [] && forall i :: 0 <= i < |st.history| ==> st.history[i].results == []
  }

  lemma LoadLineKeepsResultsEmpty(st: LoaderState, line: string, conv: Conversions)
    requires NoResults(st)
    ensures NoResults(LoadLine(st, line, conv))
  {
    var next := LoadLine(st, line, conv);
    if |next.history| != |st.history| {
      assert next.history == st.history + [st.current];
    }
  }

  /** A tracker is appended for each closing brace outside a results array, so the history never shrinks. */
  lemma {:induction false} HistoryGrowsByAppending(lines: seq<string>, more: seq<string>, conv: Conversions)
    ensures LoadedHistory(lines, conv) <= LoadedHistory(lines + more, conv)
    decreases |more|
  {
    if more == [] {
      assert lines + more == lines;
    } else {
      var init := lines + more[..|more| - 1];
      assert (lines + more)[..|lines + more| - 1] == init;
      HistoryGrowsByAppending(lines, more[..|more| - 1], conv);
    }
  }

  /** Regression detection against a loaded history never reports anything. */
  lemma NoRegressionsAgainstLoadedHistory(current: seq<BenchmarkResult>, lines: seq<string>, conv: Conversions, threshold: real)
    ensures Regressions(current, LoadedHistory(lines, conv), threshold) == []
  {
    var h := LoadedHistory(lines, conv);
    LoadedTrackersHaveNoResults(lines, conv);
    if h != [] {
      assert h[|h| - 1].results == [];
    }
  }
}
