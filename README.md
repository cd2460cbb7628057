# black-scholes-merton, modelled in Dafny

A model of the numerical core of the black-scholes-merton option-pricing
toolkit, with proofs of what the code promises. The model covers these parts:

- **Random-stream building blocks.** The SplitMix64 mixer, the 53-bit uniform, the indexed normals, the radical inverse, and the stateful and indexed Halton generators. Also correlated Gaussian pairs, `clamp`, `linear_interp`, the hashed uniform and the inverse normal CDF of the alternative header.
- **Estimator statistics.** Mean, variance, covariance and correlation; the in-place percentile, VaR and expected shortfall; the merging of Monte Carlo results and their confidence intervals.
- **Monte Carlo pricers.** The GBM pricer (control-variate pre-pass, antithetic pairs, pathwise delta and likelihood-ratio vega) and the stochastic-local-volatility pricer (truncated Euler and Andersen QE variance steps, log-Euler spot). Both are step loops over the generator's draws.
- **Volatility surfaces and calibration.** The CEV and smile local volatilities, the Dupire grid's bilinear interpolation, the in-place leverage sweep, the two model-implied volatility estimators and the sample grids.
- **Reference solvers.** The Black–Scholes price and Greeks, the bracketing implied-volatility solver, the Crank–Nicolson European and American grid solvers (Thomas algorithm and early-exercise projection), and the Longstaff–Schwartz American put (Gauss–Jordan elimination on the normal equations).
- **Smaller logic.** The option-chain example, portfolio Greeks, scenarios and tail statistics, the volatility-surface prototype, the command-line parser and table formatter, the benchmark bookkeeping and history loader, and the option-chain analyzer script.

There is one module per source file. The shared pieces are `Numerics` (the C math library as an abstract lawful record), `OptionTypes` (the payoff), `MonteCarlo` (the estimator epilogue) and `Text` (string helpers).

Loops the source writes become `method`s with loop invariants. Each is proved equal to a recursive function of its inputs, and the source's promises are proved about those functions as lemmas. Objects the source updates in place become classes:

- `Halton2D`;
- `LeverageGrid`;
- `PortfolioGreeks`;
- the predictors;
- `ArgumentParser`;
- `TableFormatter`.

Arrays the source works on in place stay arrays:

- the percentile's sort;
- the Thomas sweep;
- the elimination matrix;
- the early-exercise projection.

Double-precision arithmetic is modelled as `real`, so rounding is not modelled. A NaN result is `None`. The random generators are streams of draws passed in as parameters.

## Model

| member | source | states |
|---|---|---|
| OptionTypes.Payoff | include/option_types.hpp:5 | the vanilla payoff `max(ST - K, 0)` / `max(K - ST, 0)` that the pricers write out is non-negative and zero exactly out of the money |
| OptionTypes.PayoffParity | include/option_types.hpp:5 | call payoff minus put payoff is `ST - K` |
| OptionTypes.PayoffMonotone | include/option_types.hpp:5 | a call payoff rises with the terminal spot and a put payoff falls |
| Numerics.NormCdf | include/math_utils.hpp:11-13 | `0.5 (1 + erf(x / sqrt 2))` is a probability |
| Numerics.NormCdfSymmetric | include/math_utils.hpp:11-13 | `N(-x) = 1 - N(x)` |
| Numerics.NormPdf | src/analytic_bs.cpp:61 | the normal density `exp(-x^2/2) / sqrt(2 pi)` is positive |
| Numerics.Trunc | src/pde_cn.cpp:83 | `static_cast<int>` truncates toward zero: the result has the sign of `x` and lies within one of it in magnitude |
| MathUtils.UniOf | include/math_utils.hpp:24 | `RNG::uni` keeps a canonical variate below 1: the result never exceeds the variate, is below 1, is non-negative for a non-negative variate, and is the variate itself below the largest double under 1 |
| MathUtils.Rng.constructor | include/math_utils.hpp:21 | a seeded generator starts at the first draw of its engine |
| MathUtils.Rng.Gauss | include/math_utils.hpp:23 | returns the next normal draw of the stream and consumes exactly one draw |
| MathUtils.Rng.Uni | include/math_utils.hpp:24 | returns the clamped next canonical draw, consumes exactly one draw, and lies in [0, 1) when the distribution stays in [0, 1] |
| MathUtils.Correlate | include/math_utils.hpp:27-32 | the first output is the first draw; correlation 0 gives back the second draw, and correlation 1 or -1 gives plus or minus the first draw |
| MathUtils.CorrelatedGaussians | include/math_utils.hpp:27-32 | takes two draws, in order, from the generator and returns their correlated pair |
| MathUtils.Digits | include/math_utils.hpp:39-43 | the base-b digits of k are each below b, and the digit list is empty exactly for k = 0 |
| MathUtils.DigitLoopIsWeightedSum | include/math_utils.hpp:39-44 | the digit loop (remainder, weight, divide) adds exactly the digits of n weighted by the powers of 1/b |
| MathUtils.WeightedSumBounds | include/math_utils.hpp:39-44 | digits below b weighted from f on by the powers of 1/b sum to a value in [0, f b) |
| MathUtils.RadicalInverseInUnit | include/math_utils.hpp:35-46 | the radical inverse of 0 is 0 and every radical inverse lies in [0, 1) for a base of at least 2 |
| MathUtils.RadicalInverse | include/math_utils.hpp:35-46 | the loop returns the mirrored-digit radical inverse of n: 0 for n = 0 and a value in [0, 1) |
| MathUtils.EpsClamp | include/math_utils.hpp:61-73 | the clamp lands in [1e-12, 1 - 1e-12], leaves values already there unchanged, and maps values below or above to the nearer bound |
| MathUtils.HaltonCoordinate | include/math_utils.hpp:57-73 | a shifted, wrapped and clamped Halton coordinate lies in [1e-12, 1 - 1e-12] |
| MathUtils.Increment64IsModular | include/math_utils.hpp:59 | the 64-bit index increment is addition modulo 2^64 |
| MathUtils.Halton2D.constructor | include/math_utils.hpp:49-55 | a new generator starts at index 1 with the first two uniforms of `RNG(seed)` as shifts |
| MathUtils.Halton2D.Next | include/math_utils.hpp:56-74 | returns the base-2 and base-3 coordinates at the current index, both clamped into [1e-12, 1 - 1e-12], advances the index by exactly one (with 64-bit wrap) and keeps the shifts |
| MathUtils.BoxMullerRadius | include/math_utils.hpp:78 | the Box-Muller radius is non-negative for a uniform in (0, 1] |
| MathUtils.Mix64SplitMixOutputs | include/math_utils.hpp:85-91 | the mixing hash is the SplitMix64 output function: it maps 0 and the golden-ratio increment to the published first SplitMix64 outputs |
| MathUtils.U01FromU64 | include/math_utils.hpp:93-97 | the result is k / 2^53 for a whole number k, hence in [0, 1) |
| MathUtils.IndexUniforms | include/math_utils.hpp:100-103 | the two uniforms are the hashes of (seed, path, step) under the two published constant combinations, each floored at 1e-12, so both lie in [1e-12, 1) |
| MathUtils.NormalsFromIndex | include/math_utils.hpp:99-105 | the pair is a Box-Muller pair of two uniforms in [1e-12, 1), so the logarithm is never taken of 0; it is a function of (seed, path, step) alone |
| MathUtils.HashedShift | include/math_utils.hpp:108-109 | a shift hashed from a seed lies in [0, 1) |
| MathUtils.HaltonFromIndex | include/math_utils.hpp:107-125 | evaluates both coordinates at index i + 1 (wrapping at 2^64) with hashed shifts, clamped into [1e-12, 1 - 1e-12] |
| MathUtils.ShiftedCoordinate | include/math_utils.hpp:110-124 | radical inverse, shift, fractional part and clamp give the shared Halton coordinate |
| MathUtils.ClampAwayFromEnds | include/math_utils.hpp:112-124 | the two guards compute the ε-clamp |
| MathUtils.HaltonIndexAfter | include/math_utils.hpp:49-59 | the stateful generator's index after any number of calls stays a 64-bit value |
| MathUtils.HaltonCallIndex | include/math_utils.hpp:107-111 | the index-based generator's index i is the index the stateful generator uses on its (i+1)-th call, so the two agree for equal shifts |
| MathUtilsNew.ShiftedHaltonPoint | include/math_utils_new.hpp:279-280 | each coordinate of the shifted Halton point, the fractional part of radical inverse plus shift, lies in [0, 1) |
| MathUtilsNew.UnshiftedPointIsRadicalInverse | include/math_utils_new.hpp:279-280 | without shifts the point is the pair of base-2 and base-3 radical inverses (the `radical_inverse` of this header is the same digit loop as `MathUtils.RadicalInverse`) |
| MathUtilsNew.Halton2D.Unshifted | include/math_utils_new.hpp:255-262 | the default generator starts at index 1 with both shifts 0 |
| MathUtilsNew.Halton2D.Seeded | include/math_utils_new.hpp:268-272 | the seeded generator starts at index 1 with the first two uniforms of `RNG(seed)` as shifts |
| MathUtilsNew.Halton2D.Next | include/math_utils_new.hpp:278-283 | returns the unclamped shifted point at the current index, each coordinate in [0, 1), and advances the index by one modulo 2^64 |
| MathUtilsNew.Halton2D.Reset | include/math_utils_new.hpp:288 | the index is back at 1 |
| MathUtilsNew.Halton2D.Skip | include/math_utils_new.hpp:294 | the index moves on by the skip count modulo 2^64 |
| MathUtilsNew.HashUniform | include/math_utils_new.hpp:312-334 | the MurmurHash64A-style hash divided by 2^64 - 1 lies in the closed interval [0, 1] |
| MathUtilsNew.HashUniformReachesOne | include/math_utils_new.hpp:332-333 | index 0 with seed 0xa15ac5c27d2c5b48 hashes to 2^64 - 1, so the result is exactly 1, outside the documented [0, 1) |
| MathUtilsNew.HashUniformHalfOpen | include/math_utils_new.hpp:303-305 | the documented half-open uniform from the same hash: k / 2^53 for a whole k, in [0, 1) |
| MathUtilsNew.LinearInterp | include/math_utils_new.hpp:388-392 | returns y0 for nodes closer than 1e-12, and otherwise passes through (x0, y0) and (x1, y1) |
| MathUtilsNew.LinearInterpBetween | include/math_utils_new.hpp:388-392 | between two distinct nodes the interpolant lies between the two node values |
| MathUtilsNew.Clamp | include/math_utils_new.hpp:402-405 | lands in [min, max] when min <= max, is the identity on that range, and gives min when the bounds are crossed |
| MathUtilsNew.ClampIdempotent | include/math_utils_new.hpp:402-405 | clamping twice is clamping once |
| MathUtilsNew.NormInvCdf | include/math_utils_new.hpp:94-97 | minus infinity exactly for p <= 0 and plus infinity exactly for p >= 1 |
| MathUtilsNew.NormInvCdfAntisymmetric | include/math_utils_new.hpp:99-112 | over the reals the approximation is odd about 1/2: f(1 - p) = -f(p), through both the central and the tail formula |
| MathUtilsNew.CentralValueOdd | include/math_utils_new.hpp:104-105 | the central rational approximation is odd in u = p - 1/2 |
| MathUtilsNew.TailBranchOdd | include/math_utils_new.hpp:108-111 | the tail formula at 1 - p is minus the tail formula at p |
| AnalyticBs.Discount | src/analytic_bs.cpp:16 | the discount factor `exp(-rT)` is positive |
| AnalyticBs.BsPrice | src/analytic_bs.cpp:8-31 | an expired option is worth its intrinsic value; with no volatility it is worth the intrinsic value against the discounted strike; both degenerate prices are non-negative; at a zero spot with time and volatility the closed form's limit is a worthless call and a put worth K e^{-rT} |
| AnalyticBs.BsPriceParity | src/analytic_bs.cpp:8-31 | put-call parity: call minus put is S0 - K e^{-rT} while time is left, including the zero-spot limit, and S0 - K at expiry |
| AnalyticBs.ClosedFormParity | src/analytic_bs.cpp:26-30 | the two closed forms differ by S0 - K e^{-rT} because N(x) + N(-x) = 1 |
| AnalyticBs.BsDelta | src/analytic_bs.cpp:33-50 | a call delta lies in [0, 1] and a put delta in [-1, 0]; in the degenerate cases the call delta is 1 exactly when S0 > K (else 0) and the put delta is -1 exactly when S0 < K (else 0); at a zero spot on the closed-form branch the call delta is 0 and the put delta -1 |
| AnalyticBs.BsDeltaParity | src/analytic_bs.cpp:45-49 | put delta is call delta minus 1 on the closed-form branch |
| AnalyticBs.BsGamma | src/analytic_bs.cpp:52-64 | gamma is 0 for a non-positive volatility, an expired option or a non-positive spot |
| AnalyticBs.BsVega | src/analytic_bs.cpp:66-78 | vega is 0 for a non-positive volatility, an expired option or a non-positive spot |
| AnalyticBs.BsGammaVegaPositive | src/analytic_bs.cpp:57-77 | on the closed-form branch with a positive spot, gamma and vega are strictly positive (the same for calls and puts) |
| AnalyticBs.BsTheta | src/analytic_bs.cpp:80-103 | theta is 0 at expiry and -r e^{-rT} times the intrinsic value with no volatility; at a zero spot on the closed-form branch it is 0 for a call and r K e^{-rT} for a put |
| AnalyticBs.BsThetaParity | src/analytic_bs.cpp:98-102 | call theta minus put theta is -r K e^{-rT} on the closed-form branch |
| AnalyticBs.BsThetaDegenerateSign | src/analytic_bs.cpp:85-89 | with no volatility and a non-negative rate theta is at most 0 |
| AnalyticBs.BsRho | src/analytic_bs.cpp:105-124 | rho is 0 at expiry and T e^{-rT} times the intrinsic value with no volatility; at a zero spot on the closed-form branch it is 0 for a call and -K T e^{-rT} for a put |
| AnalyticBs.BsRhoParity | src/analytic_bs.cpp:116-123 | call rho minus put rho is K T e^{-rT} on the closed-form branch |
| AnalyticBs.BsRhoSign | src/analytic_bs.cpp:105-124 | for a non-negative strike call rho is non-negative; put rho is non-positive on the closed-form branch and non-negative in the degenerate cases |
| IvSolve.ExpandShape | include/iv_solve.hpp:12-16 | the expansion doubles hi at most ten times in all, stops early only once f(lo) f(hi) is no longer positive, and ends with the residual of the last hi it computed (or the initial one when no round ran) |
| IvSolve.ExpandEndsDoubled | include/iv_solve.hpp:14-15 | the expansion ends at hi doubled once per round it ran |
| IvSolve.DoubledIsPower | include/iv_solve.hpp:15 | hi doubled n times is hi times 2^n |
| IvSolve.TimesSigns | include/iv_solve.hpp:12-32 | f(lo) f(hi) > 0 holds exactly when both residuals are finite and of one strict sign, and a product <= 0 exactly when both are finite and not of one strict sign; the loops test these sign conditions |
| IvSolve.ExpandFails | include/iv_solve.hpp:12-17 | the expansion ends unbracketed exactly when f(lo) f(2^j hi) > 0 for every j from the current round to ten |
| IvSolve.SecantPoint | include/iv_solve.hpp:21-22 | the candidate is positive or it is the midpoint, and a flat secant (|fb - fa| <= 1e-14) always gives the midpoint |
| IvSolve.Keep | include/iv_solve.hpp:26-27 | keeping the bracket replaces exactly one end |
| IvSolve.KeepKeepsBracket | include/iv_solve.hpp:26-27 | an update of (a, fa) or (b, fb) by a finite residual preserves fa fb <= 0 |
| IvSolve.Iteration | include/iv_solve.hpp:21-34 | one round stops with a converged point only when |f(c)| < tol, never reports exhaustion, and stops narrowed only when the bracket is below tol (1 + |mid|) |
| IvSolve.IterationKeepsBracket | include/iv_solve.hpp:21-34 | with a finite price function a round that goes on, or ends narrowed, keeps the sign change |
| IvSolve.SolveFrom | include/iv_solve.hpp:20-36 | the solver loop ends in one of three ways: a point with |f(c)| < tol, the midpoint of a narrowed bracket, or the midpoint of the bracket after max_iter rounds |
| IvSolve.SolveFromKeepsBracket | include/iv_solve.hpp:20-36 | with a finite price function and an initial sign change, any exit other than a converged point is the midpoint of a bracket that still changes sign |
| IvSolve.ImpliedVolExit | include/iv_solve.hpp:9-11 | a NaN residual at lo or hi gives NaN |
| IvSolve.ImpliedVolNanIff | include/iv_solve.hpp:9-18 | the solver gives NaN exactly when f(lo) or f(hi) is NaN or when no doubling of hi up to ten brackets a sign change |
| IvSolve.ImpliedVolSound | include/iv_solve.hpp:19-36 | a numeric result is a point with residual below tol or the midpoint of the final bracket, and with a finite price function that bracket holds a sign change |
| IvSolve.ImpliedVol | include/iv_solve.hpp:7-37 | the imperative solver (expansion loop, solver loop, early returns) returns exactly the specified result |
| IvSolve.ExpandHi | include/iv_solve.hpp:14-16 | the doubling loop ends at the specified expansion |
| IvSolve.Solve | include/iv_solve.hpp:19-36 | the secant/bisection loop returns the specified exit point |
| IvSolve.Step | include/iv_solve.hpp:21-34 | one loop round computes the specified round |
| Dupire.UpperBound | include/dupire.hpp:23 | `std::upper_bound`: every entry before the returned index is at most the query, the entry at it exceeds the query, and on an ascending axis so does every later entry |
| Dupire.Bracket | include/dupire.hpp:24 | the bracketing pair (i1, i2) = (max(1, k) - 1, min(i1 + 1, n - 1)) lies in range, is at most one apart, starts at (0, 1) below the axis, and brackets the query inside it |
| Dupire.WeightInUnit | include/dupire.hpp:25 | for a query inside the axis the interpolation weight lies in [0, 1] |
| Dupire.Bilinear | include/dupire.hpp:18-46 | 0 when an axis is empty, and the corner values for a query at or before the first time (or at or after the last) and at or outside the spot range |
| Dupire.BilinearAtNode | include/dupire.hpp:18-46 | with strictly increasing axes the interpolation reproduces sigma[j][i] at every grid node |
| Dupire.SpotInterpAboveRange | include/dupire.hpp:39-41 | above the last spot a row reads its last entry |
| Dupire.BilinearFlatAboveSpots | include/dupire.hpp:36-45 | spots at or above the last spot all give the value at the last spot (flat extrapolation) |
| Dupire.SpotInterpBelowRange | include/dupire.hpp:39-41 | below the first spot the weight is negative and the row is extrapolated from its first two entries |
| Dupire.BilinearBelowSpots | include/dupire.hpp:18-46 | below the first spot (first two spots distinct) the spot weight is negative; at or before the first time the result is sigma[0][0], at or after the last time the last row's first entry, and strictly inside the time range it is the time-weighted mix of the two bracketing rows, each extrapolated along the line through its first two entries |
| Dupire.BilinearExtrapolatesBelowSpots | include/dupire.hpp:36-45 | on the surface t = [0, 1, 2], S = [1, 2] with every row [1, 2], the spot 0 reads 0 at the interior time 1 (below every node value) but 1 at the first time 0 |
| Dupire.SpotInterpBetween | include/dupire.hpp:39-43 | inside the spot range a row lies between its two bracketing entries |
| Dupire.BilinearInsideCell | include/dupire.hpp:36-45 | a query inside the grid rectangle is a convex combination of the four surrounding nodes, so it lies between their least and greatest value |
| Slv.DefaultHestonShape | include/slv.hpp:11-17 | the default Heston parameters (kappa 1.5, theta 0.04, xi 0.5, rho -0.7, v0 0.04) are positive where the QE step divides, a valid correlation, and violate the Feller condition, so the variance can reach 0 |
| Slv.CevSigma | include/slv.hpp:25-28 | with beta = 1 the CEV volatility is alpha at every spot, and a positive alpha gives a positive volatility |
| Slv.CevSigmaIgnoresTime | include/slv.hpp:25-28 | the CEV volatility does not depend on time |
| Slv.CevSigmaFlatWithoutReference | include/slv.hpp:26 | with a non-positive reference spot the ratio is 1, so the volatility is the same at every spot |
| Slv.CevToFn | include/slv.hpp:29-31 | the closure equals `sigma` at every (S, t) |
| Slv.TermFactor | include/slv.hpp:45 | the term factor `sqrt(max(1 + zeta t, 1e-12))` is defined and positive at every t, and 1 for zeta = 0 |
| Slv.SmileSigma | include/slv.hpp:41-48 | the smile volatility is never below sigma_min |
| Slv.SmileWithoutSlopesIsCev | include/slv.hpp:41-48 | with no smile slope and no term slope the smile volatility is the CEV volatility in absolute value, floored at sigma_min |
| Slv.SmileToFn | include/slv.hpp:49-51 | the closure equals `sigma` at every (S, t), and so is never below sigma_min |
| Leverage.LeverageGrid.constructor | include/slv_calibration.hpp:9-13 | a grid holds exactly the axes and leverage matrix it was built from |
| Leverage.CalibrateLeverageIterative | include/slv_calibration.hpp:17-30 | only `L` changes; for a positive count every node of the |t| x |S| block has been updated exactly `iterations` times with `L * sigma / max(sigma, 1e-6)` and every entry outside it is unchanged; a non-positive count changes nothing; the Heston parameters are not read |
| Leverage.SweepPass | include/slv_calibration.hpp:21-28 | one pass updates every node of the block once more, row by row |
| Leverage.SweepRow | include/slv_calibration.hpp:22-27 | one row of a pass updates the nodes of that row once more |
| Leverage.RowComplete | include/slv_calibration.hpp:21-22 | the end of row j of a pass is the start of row j + 1 |
| Leverage.PassComplete | include/slv_calibration.hpp:20-21 | the end of the last row of pass k is the start of pass k + 1 |
| Leverage.NodeKeptAboveFloor | include/slv_calibration.hpp:23-26 | a node whose target volatility is at least 1e-6 is unchanged by any number of sweeps |
| Leverage.SweepNodeBelowFloor | include/slv_calibration.hpp:26 | below the floor one update scales the node by sigma / 1e-6, a factor in [0, 1) |
| Leverage.NodeShrinksBelowFloor | include/slv_calibration.hpp:26 | below the floor a non-negative leverage never increases and stays non-negative |
| Leverage.SweepKeepsGridAboveFloor | include/slv_calibration.hpp:20-29 | when every target in the block is at least 1e-6 any number of sweeps leaves the grid as it was |
| SlvCalibration.FdImpliedVol | src/slv_calibration.cpp:10-42 | 0.2 at a time or spot at most 1e-6, and never below 1e-6 |
| SlvCalibration.FdReadsOnlyTheta | src/slv_calibration.cpp:14-32 | only the long-run variance of the Heston parameters is read, and the step dt not at all |
| SlvCalibration.FdMonotoneInLeverage | src/slv_calibration.cpp:28-41 | the estimate never falls as the leverage at (S, t) rises |
| SlvCalibration.EffectiveVolMonotone | src/slv_calibration.cpp:39 | the effective volatility never falls as the leverage rises |
| SlvCalibration.FdFloorsNonPositiveLeverage | src/slv_calibration.cpp:39-41 | away from the fallback a non-positive leverage gives the floor 1e-6 |
| SlvCalibration.CalibrationRun | src/slv_calibration.cpp:62-84 | both pricing runs price a call with the QE step and without antithetic paths, and satisfy the QE step's preconditions |
| SlvCalibration.VolFromDelta | src/slv_calibration.cpp:86-91 | the estimate is non-negative for a positive spot and NaN (None) without a price or at a zero spot |
| SlvCalibration.ClampVol | src/slv_calibration.cpp:93 | the clamp lands in [0.01, 2.0], is the identity there, and turns a NaN estimate into 2.0 (`std::min(2.0, NaN)` is 2.0) |
| SlvCalibration.McImpliedVol | src/slv_calibration.cpp:45-98 | 0.2 at or past expiry; every result lies in [0.01, 2.0] |
| SlvCalibration.McFallsBackOnSmallPrice | src/slv_calibration.cpp:69-71 | a base price at most 1e-6 gives the fallback 0.2 |
| SlvCalibration.McWithoutPathsSaturates | src/slv_calibration.cpp:62-93 | without paths both prices are NaN, the comparison with 1e-6 fails, and the clamp returns 2.0 |
| SlvCalibration.McTooFewPathsForBump | src/slv_calibration.cpp:79-84 | with one to three paths the bumped run gets no path, so the estimate is the fallback or 2.0 |
| SlvCalibration.McReadsTwoSeeds | src/slv_calibration.cpp:62-84 | the estimator draws only from the generators seeded 12345 and 12346 |
| SlvCalibration.SampleVol | src/slv_calibration.cpp:115-124 | every sample volatility is at least 0.05 |
| SlvCalibration.SampleAxesIncreasing | src/slv_calibration.cpp:105-108 | both sample axes are strictly increasing, as the surface interpolation needs |
| SlvCalibration.CreateSampleDupireSurface | src/slv_calibration.cpp:101-129 | a 5 x 5 surface on t = {0.25 .. 2.0} and S = {50 .. 150} whose every entry is the sample volatility at its node, so at least 0.05 |
| SlvCalibration.CreateSampleLeverageGrid | src/slv_calibration.cpp:132-144 | a new grid on the surface's axes with a |t| x |S| matrix of ones |
| SlvCalibration.CheckLeverage | src/slv_calibration.cpp:165-174 | the check passes exactly when every leverage of the block lies in [0.01, 10] |
| SlvCalibration.ValidateSlvCalibration | src/slv_calibration.cpp:147-179 | five sweeps against the sample surface leave every leverage at 1, so validation always returns true |
| SlvPricing.PositiveStep | src/slv.cpp:17 | with steps to take and positive maturity, dt = T / num_steps is positive |
| SlvPricing.EulerVariance | src/slv.cpp:48-53 | the truncated Euler variance after a step is max(v_next, 0), never negative |
| SlvPricing.Decay | src/slv.cpp:31 | `exp(-kappa dt)` lies strictly between 0 and 1 for positive kappa and dt |
| SlvPricing.QeMean | src/slv.cpp:31 | the QE conditional mean is a mix of theta and v, so positive |
| SlvPricing.QeSpread | src/slv.cpp:32-33 | the QE conditional variance is positive |
| SlvPricing.ReversionPart | src/slv.cpp:32 | the mean-reversion part of the conditional variance is non-negative |
| SlvPricing.LongRunPart | src/slv.cpp:33 | the long-run part of the conditional variance is positive |
| SlvPricing.QeMoments | src/slv.cpp:31-34 | the conditional mean and psi = s2 / m^2 are both positive |
| SlvPricing.QeUniform | src/slv.cpp:35-36 | the QE uniform is clamped into [1e-6, 1 - 1e-6] and is `0.5 (z2 + 1)` when that is already inside |
| SlvPricing.QeQuadratic | src/slv.cpp:37-42 | the quadratic branch (psi < 1.5) gives a non-negative variance |
| SlvPricing.QuadraticNonNegative | src/slv.cpp:42 | a positive multiple of a square is non-negative |
| SlvPricing.QeExponential | src/slv.cpp:43-46 | the exponential branch (psi >= 1.5) gives a non-negative variance: 0 unless U exceeds p, and otherwise minus a logarithm of a number in (0, 1] over a positive beta |
| SlvPricing.QeOutcome | src/slv.cpp:29-47 | given kappa, theta, xi > 0 and v >= 0 the QE variance is non-negative in both branches, and the step takes at most one extra normal draw |
| SlvPricing.SpotStep | src/slv.cpp:55-61 | the log-Euler step multiplies the spot by an exponential, so a positive spot stays positive |
| SlvPricing.Step | src/slv.cpp:26-61 | one step keeps the variance non-negative and a positive spot positive, and takes two draws (three on the QE quadratic branch) |
| SlvPricing.PathAfter | src/slv.cpp:24-62 | after k steps from S0 and max(v0, 1e-12) the variance is non-negative, a positive S0 gives a positive spot, and truncated Euler has taken exactly two draws per step |
| SlvPricing.PathPayoff | src/slv.cpp:22-64 | a path's payoff is non-negative, and under truncated Euler a path takes 2 num_steps draws |
| SlvPricing.Sample | src/slv.cpp:66-109 | a sample, the payoff or with antithetics the mean of a path and its negated partner, is non-negative |
| SlvPricing.Accumulate | src/slv.cpp:66-112 | the running sums of samples and of their squares are non-negative |
| SlvPricing.EulerDrawCount | src/slv.cpp:16-112 | under truncated Euler every sample takes the same number of draws from the one generator, so the i-th sample starts at a fixed position |
| SlvPricing.SlvPriceOf | src/slv.cpp:12-124 | the price is NaN (None) exactly without paths; otherwise price and standard error are non-negative and every other field keeps its default |
| SlvPricing.Estimate | src/slv.cpp:114-123 | the epilogue: NaN exactly at num_paths = 0, a non-negative price, a standard error from the variance clamped at 0, and default Greeks |
| SlvPricing.AccumulateNext | src/slv.cpp:110-111 | one more sample adds its payoff and its square to the sums |
| SlvPricing.AndersenQeStep | src/slv.cpp:29-47 | the imperative QE step computes the specified variance and draws the extra normal only on the quadratic branch |
| SlvPricing.SimulatePath | src/slv.cpp:22-64 | `one_path` returns the specified payoff and leaves the generator at the specified position |
| SlvPricing.RunSteps | src/slv.cpp:24-62 | the step loop ends in the specified state after num_steps steps |
| SlvPricing.AdvanceStep | src/slv.cpp:26-61 | one loop round moves from the state after n steps to the state after n + 1 |
| SlvPricing.TakeStep | src/slv.cpp:27-61 | the correlated draws, the variance update and the spot update compute the specified step |
| SlvPricing.DrawSample | src/slv.cpp:67-109 | one round of the path loop computes the specified sample |
| SlvPricing.SlvPrice | src/slv.cpp:12-124 | `mc_slv_price` from a fresh generator returns the specified result, a function of the inputs and the draw order alone |
| SlvPricing.RunPaths | src/slv.cpp:66-112 | the path loop ends with the specified sums |
| SlvPricing.AdvancePath | src/slv.cpp:67-111 | one round of the path loop moves the sums from i to i + 1 samples |
| SlvPricing.SlvMultiSeeds | src/slv.cpp:126-137 | one result per seed, in seed order, each equal to `mc_slv_price` with that seed |
| MonteCarlo.SampleMoments | src/monte_carlo_gbm.cpp:88-90 | the clamped variance is never negative, the mean times n is the sum, a non-negative sum over a positive count has a non-negative mean, and a negative count gives zeros |
| MonteCarlo.StandardErrorOf | src/monte_carlo_gbm.cpp:94 | `sqrt(var / n)` is non-negative for a positive count and 0 for a zero variance |
| MonteCarlo.DiscountedEstimateNonNegative | src/slv.cpp:114-121 | an estimator whose samples are non-negative has a non-negative discounted mean and standard error |
| MonteCarloGbm.Growth | src/monte_carlo_gbm.cpp:13-14 | the growth factor `exp(drift + volT Z)` is positive |
| MonteCarloGbm.Terminal | src/monte_carlo_gbm.cpp:66 | S_T is positive from a positive S0, 0 from S0 = 0, and otherwise S_T / S0 is the growth factor |
| MonteCarloGbm.PayoffSample | src/monte_carlo_gbm.cpp:67-71 | the payoff part of a sample, one payoff or the mean of the payoffs at Z and -Z, is never negative |
| MonteCarloGbm.CvAdjust | src/monte_carlo_gbm.cpp:72-75 | a zero beta, or S_T equal to its mean, leaves the sample unchanged |
| MonteCarloGbm.Sample | src/monte_carlo_gbm.cpp:66-75 | without the control variate, or with beta = 0, the sample is the payoff part, so never negative without the control variate |
| MonteCarloGbm.PathwiseDelta | src/monte_carlo_gbm.cpp:21-24 | 0 out of the money; from a positive S0, S_T / S0 >= 0 for a call and -S_T / S0 <= 0 for a put |
| MonteCarloGbm.VegaLr | src/monte_carlo_gbm.cpp:25-30 | the likelihood-ratio vega is 0 wherever the payoff is |
| MonteCarloGbm.GreekTerms | src/monte_carlo_gbm.cpp:79-84 | the delta a path contributes is never negative for a call and never positive for a put |
| MonteCarloGbm.DrawZ | src/monte_carlo_gbm.cpp:60-65 | the draw at the head of both loops is the next Gaussian, or the first Box-Muller output of the next Halton point, and advances that generator by one |
| MonteCarloGbm.PrePassSums | src/monte_carlo_gbm.cpp:36-45 | the pre-pass sums of X and of Y^2 are non-negative |
| MonteCarloGbm.PrePassStep | src/monte_carlo_gbm.cpp:41-44 | one pre-pass draw never lowers the sums of X and of Y^2 |
| MonteCarloGbm.BetaOf | src/monte_carlo_gbm.cpp:33-50 | beta is 0 unless the control variate and the two-pass estimate are both on, there is a path, and the pre-pass variance of S_T exceeds 1e-14 |
| MonteCarloGbm.ControlMean | src/monte_carlo_gbm.cpp:34 | `Ey = S0 exp(rT)` is positive from a positive S0, at least S0 when rT >= 0, and S0 when rT = 0 |
| MonteCarloGbm.PrePassNext | src/monte_carlo_gbm.cpp:38-44 | the pre-pass sums after one more draw |
| MonteCarloGbm.TraceOfPrePass | src/monte_carlo_gbm.cpp:36-45 | the record of the pre-pass starts from zero sums and follows it draw by draw |
| MonteCarloGbm.EstimateBeta | src/monte_carlo_gbm.cpp:35-50 | the pre-pass takes exactly min(num_paths, 200000) draws (none when it does not run) and computes the specified beta |
| MonteCarloGbm.RunPrePass | src/monte_carlo_gbm.cpp:37-45 | the pre-pass loop ends with the specified sums after count draws |
| MonteCarloGbm.AdvancePrePass | src/monte_carlo_gbm.cpp:38-44 | one round of the pre-pass loop moves the sums from i to i + 1 draws |
| MonteCarloGbm.AddPrePassDraw | src/monte_carlo_gbm.cpp:41-44 | the loop's update adds X = payoff(S_T) and Y = S_T to the four sums |
| MonteCarloGbm.PriceSums | src/monte_carlo_gbm.cpp:59-78 | the sum of squared samples is non-negative, and so is the sum of samples without the control variate |
| MonteCarloGbm.GreekSumsOf | src/monte_carlo_gbm.cpp:79-84 | the Greek sums depend on the market and the draws only; the delta sum has the sign of the option's delta and the sums of squares are non-negative |
| MonteCarloGbm.GbmEstimate | src/monte_carlo_gbm.cpp:87-104 | NaN (None) exactly without paths; all three standard errors non-negative; the price and delta keep the sign of their sums; with the Greeks off every field but price and standard error keeps its default |
| MonteCarloGbm.MeanSign | src/monte_carlo_gbm.cpp:97-99 | the sample mean keeps the sign of the sum |
| MonteCarloGbm.TraceOfSums | src/monte_carlo_gbm.cpp:59-85 | the record of the main loop starts from zero sums and follows it path by path |
| MonteCarloGbm.MainSumsNext | src/monte_carlo_gbm.cpp:60-84 | the sums after one more path with draw Z |
| MonteCarloGbm.GbmPriceOf | src/monte_carlo_gbm.cpp:8-105 | NaN exactly without paths; std_error, delta_se and vega_se are non-negative; without the control variate the price is non-negative; call delta is non-negative and put delta non-positive; with the Greeks off delta, delta_se, vega and vega_se keep their zero defaults |
| MonteCarloGbm.GbmPrice | src/monte_carlo_gbm.cpp:8-105 | the imperative pricer returns exactly the specified result |
| MonteCarloGbm.RunPaths | src/monte_carlo_gbm.cpp:59-85 | the main loop ends with the specified sums after num_paths paths |
| MonteCarloGbm.AdvancePath | src/monte_carlo_gbm.cpp:60-84 | one round of the main loop moves the sums from i to i + 1 paths |
| MonteCarloGbm.PathSample | src/monte_carlo_gbm.cpp:66-75 | the sample of one path is the specified sample |
| MonteCarloGbm.AntitheticAverages | src/monte_carlo_gbm.cpp:68-71 | with antithetics a sample is the mean of the plain samples at Z and -Z, hence the same at Z and -Z |
| MonteCarloGbm.ControlVariateUsesDirectPath | src/monte_carlo_gbm.cpp:72-75 | the control-variate term uses the Z path only, with or without antithetics |
| MonteCarloGbm.ZeroBetaSums | src/monte_carlo_gbm.cpp:72-77 | with beta = 0 the control variate changes nothing: the price sums equal those without it |
| MonteCarloGbm.ControlVariateNeedsTwoPass | src/monte_carlo_gbm.cpp:33-50 | the control variate without the two-pass estimate has beta = 0 and no pre-pass, so the result is that of the run without the control variate |
| Stats.IntervalZ | include/stats.hpp:50-52 | the z-score is 2.576 at level 0.99, 1.645 at 0.90 and 1.96 at every other level |
| Stats.ConfidenceInterval | include/stats.hpp:48-56 | the interval is symmetric about the price with half-width z times the standard error, and contains the price when the standard error is non-negative |
| Stats.IntervalsNest | include/stats.hpp:48-56 | the 99% interval contains the 95% one, which contains the 90% one |
| Stats.CriticalValue | include/stats.hpp:66-67 | the critical value is 1.96 at 0.05, 2.576 at 0.01 and 1.645 at every other level |
| Stats.IsSignificant | include/stats.hpp:63-69 | never significant without a positive standard error, and significance at any level needs |price| above 1.645 standard errors |
| Stats.SignificanceWeakens | include/stats.hpp:63-69 | significance at the 1% level implies significance at every level |
| Stats.Mean | include/stats.hpp:72-76 | 0 on empty input, and otherwise the mean times the count is the sum |
| Stats.SumBounds | include/stats.hpp:74 | samples in [lo, hi] bound the sum between n lo and n hi |
| Stats.MeanBetween | include/stats.hpp:72-76 | the mean of samples in [lo, hi] lies in [lo, hi] |
| Stats.SumSqDevNonNegative | include/stats.hpp:88-92 | a sum of squared deviations is non-negative |
| Stats.VarianceOf | include/stats.hpp:85-94 | the Bessel-corrected variance is non-negative, and 0 below two samples |
| Stats.Variance | include/stats.hpp:85-94 | the accumulator loop computes the specified variance |
| Stats.VarianceOfConstant | include/stats.hpp:85-94 | equal samples have zero variance |
| Stats.StandardDeviation | include/stats.hpp:102-104 | the standard deviation is non-negative, and 0 below two samples |
| Stats.StandardError | include/stats.hpp:112-115 | the standard error is non-negative, and 0 below two samples |
| Stats.CovarianceOf | include/stats.hpp:124-136 | the covariance is 0 when the sizes differ or there are fewer than two pairs |
| Stats.Covariance | include/stats.hpp:124-136 | the accumulator loop computes the specified covariance |
| Stats.CovarianceSymmetric | include/stats.hpp:124-136 | covariance is symmetric, and the covariance of a sample with itself is its variance |
| Stats.Correlation | include/stats.hpp:144-151 | the correlation is 0 when either standard deviation is 0, in particular below two samples |
| Stats.CorrelationSymmetric | include/stats.hpp:144-151 | correlation is symmetric |
| Stats.SeqMin | include/stats.hpp:162 | `min_element` returns an element that is at most every element |
| Stats.SeqMax | include/stats.hpp:163 | `max_element` returns an element that is at least every element |
| Stats.SortInPlace | include/stats.hpp:165 | `std::sort` leaves the array ascending and a permutation of what it held |
| Stats.InsertLast | include/stats.hpp:165 | one insertion step extends the sorted prefix by one and permutes the array |
| Stats.Rank | include/stats.hpp:166 | the fractional rank (p / 100)(n - 1) lies in [0, n - 1], below n - 1 for n > 1, and is 0 for one sample |
| Stats.LowerIndex | include/stats.hpp:167 | floor(rank) is an index of the sample, at most the rank |
| Stats.UpperIndex | include/stats.hpp:168 | ceil(rank) is an index at or after floor(rank) and at most one rank unit from it |
| Stats.PercentileBetween | include/stats.hpp:165-175 | on sorted data the percentile lies between the smallest and the largest sample |
| Stats.PercentileBetweenNeighbours | include/stats.hpp:170-175 | the percentile is a convex combination of the samples at floor(rank) and ceil(rank) |
| Stats.Percentile | include/stats.hpp:160-176 | 0 on empty input, the minimum (array untouched) for p <= 0, the maximum (array untouched) for p >= 100, and otherwise the array is sorted in place as a permutation and the result interpolates between its floor and ceil ranks; always between the minimum and the maximum |
| Stats.SortedPermutationEnds | include/stats.hpp:165 | a sorted rearrangement starts at the minimum and ends at the maximum |
| Stats.SortedCopy | include/stats.hpp:197-200 | the by-value copy is sorted and a permutation of the input |
| Stats.ValueAtRisk | include/stats.hpp:184-189 | 0 on empty input; otherwise minus the (1 - c) 100 percentile of a sorted copy, between minus the largest and minus the smallest P&L, with the percentile's end cases |
| Stats.ShortfallBetween | include/stats.hpp:203-210 | on sorted data minus the mean of the k smallest values lies between minus the largest and minus the smallest |
| Stats.Cutoff | include/stats.hpp:201 | the truncated tail count is at most n, is floor((1 - c) n) when that is non-negative, 0 when the product is below 1, and n when it reaches n |
| Stats.ExpectedShortfall | include/stats.hpp:197-211 | 0 on empty input; otherwise, on a sorted permutation, minus the mean of the cutoff smallest values, or minus the smallest when the cutoff is 0; between minus the largest and minus the smallest P&L |
| Stats.PrefixSum | include/stats.hpp:205-208 | the accumulator loop sums the first k entries |
| Stats.VarianceSumNonNegative | include/stats.hpp:232 | the weighted sum of squared standard errors is non-negative |
| Stats.Combined | include/stats.hpp:218-242 | the merged path count is the sum of the positive path counts, and the pooled standard error is non-negative |
| Stats.CombineMcResults | include/stats.hpp:218-242 | the loop computes the specified merge |
| Stats.AppendKeepsSums | include/stats.hpp:226-233 | later results do not change the sums over earlier ones |
| Stats.CombinedSkipsEmptyRuns | include/stats.hpp:227 | a result with no positive path count is skipped: appending it changes nothing |
| Stats.WeightedPriceAbove | include/stats.hpp:229-231 | kept prices at least lo put the weighted sum at least lo per path |
| Stats.WeightedPriceBelow | include/stats.hpp:229-231 | kept prices at most hi put the weighted sum at most hi per path |
| Stats.CombinedPriceBetween | include/stats.hpp:235-239 | the merged price is a path-weighted mean, so it lies between the kept results' prices |
| Lsm.NextSpot | src/lsm.cpp:21 | one GBM step `s * exp(drift + vol * Z)` keeps a positive spot positive |
| Lsm.StepDiscount | src/lsm.cpp:40 | the one-step discount factor `exp(-r dt)` is positive |
| Lsm.RowStartIsProduct | src/lsm.cpp:18-23 | row n of the path matrix consumes the normals with stream indices `start + (n-1) M` onwards: rows are filled in order, one draw per path |
| Lsm.SimulatePaths | src/lsm.cpp:14-23 | takes exactly `N * M` normals from the generator and fills rows 0..N so that row 0 is `S0` and each row is the GBM step of the previous one on the next `M` draws |
| Lsm.SimulateRow | src/lsm.cpp:19-22 | one time row: path `m` is the GBM step of the previous spot on the next draw, and `M` draws are consumed |
| Lsm.PathsExtend | src/lsm.cpp:18-23 | appending a correctly simulated row to a correctly simulated prefix gives a correctly simulated prefix one row longer |
| Lsm.PathsPositive | src/lsm.cpp:14-23 | with `S0 > 0` every simulated spot is positive |
| Lsm.SpotPositive | src/lsm.cpp:15-21 | the single-spot induction behind the previous row: spot `(n, j)` is positive |
| Lsm.MaturityCashflows | src/lsm.cpp:26-27 | the cashflow vector has one entry per path, each the put payoff `max(K - S_N, 0)` at maturity |
| Lsm.ItmPaths | src/lsm.cpp:31-33 | the selected indices are exactly the paths with `K - S > 0`, in increasing order (both directions) |
| Lsm.ExerciseValueFacts | src/lsm.cpp:76-81 | the exercise rule: out of the money keeps the cashflow, exercise when the payoff beats the continuation value, else discount the cashflow; a non-negative cashflow stays non-negative |
| Lsm.Exercise | src/lsm.cpp:75-82 | every path's cashflow becomes the exercise value of its old cashflow, its payoff and the fitted polynomial at its spot |
| Lsm.MeanCashflow | src/lsm.cpp:86-92 | the price is undefined (0/0) exactly when there are no paths, otherwise the mean of the cashflows, non-negative when they are |
| Lsm.BasisSize | src/lsm.cpp:36-37 | the basis has `max(1, poly_degree) + 1` columns: at least two, and more than the degree |
| Lsm.Basis | src/lsm.cpp:44-45 | the basis row is `1, s, s^2, ...` with one entry per column |
| Lsm.Picks | src/lsm.cpp:41-43 | the regression sample is the spots (and cashflows) of the in-the-money paths, in order |
| Lsm.GramSymmetric | src/lsm.cpp:48 | the accumulated `X^T X` is symmetric |
| Lsm.GramCounts | src/lsm.cpp:44-48 | the (0,0) entry of `X^T X` counts the in-the-money paths |
| Lsm.GramDiagonalNonNegative | src/lsm.cpp:48 | the diagonal of `X^T X` is a sum of squares |
| Lsm.GramAppend | src/lsm.cpp:48 | one more path adds `phi_i phi_j` to every entry of `X^T X` |
| Lsm.MomentAppend | src/lsm.cpp:43-47 | one more path adds `phi_i * CF * disc` to every entry of `X^T y` |
| Lsm.AddObservation | src/lsm.cpp:46-49 | the in-place update adds `phi_i phi_j` to `XtX[i,j]` and `phi_i y` to `Xty[i]` and nothing else |
| Lsm.AddPath | src/lsm.cpp:41-49 | after one more path the arrays hold the Gram matrix and moment vector of the longer sample |
| Lsm.NormalEquations | src/lsm.cpp:39-50 | the fresh arrays hold exactly `Gram(xs, i, j)` and `Moment(xs, cfs, disc, i)` of the in-the-money sample |
| Lsm.NormalEquationsRows | src/lsm.cpp:39-50 | the same arrays, read as a matrix and a vector, are the Gram matrix and moment vector |
| Lsm.SwapKeepsSolutions | src/lsm.cpp:56-59 | swapping two equations keeps the solution set |
| Lsm.PivotKeepsSolutions | src/lsm.cpp:62-69 | scaling the pivot row by `1/diag` and subtracting multiples of it from the other rows keeps the solution set when the columns left of the pivot are zero in the pivot row |
| Lsm.IdentitySolves | src/lsm.cpp:71-72 | once every column is a unit column the right-hand side is a solution, so `beta = Xty` |
| Lsm.PickPivot | src/lsm.cpp:54-55 | the pivot is the first row at or below `i` whose entry in column `i` has the largest magnitude |
| Lsm.SwapRows | src/lsm.cpp:56-59 | rows `i` and `piv` of the matrix and of the right-hand side are exchanged, all else kept |
| Lsm.ScaleRow | src/lsm.cpp:62-64 | row `i` from column `i` on and `Xty[i]` are multiplied by `invd`, all else kept |
| Lsm.SubtractRow | src/lsm.cpp:66-68 | row `row` from column `i` on loses `f` times row `i`, `Xty[row]` loses `f * Xty[i]` |
| Lsm.EliminateColumn | src/lsm.cpp:62-69 | with a pivot of magnitude at least 1e-14 column `i` becomes a unit column, the left columns are kept and every entry is the scaled or cleared value |
| Lsm.ClearColumn | src/lsm.cpp:65-69 | with a unit pivot every other row is cleared in column `i` and its right-hand side reduced accordingly |
| Lsm.PivotColumn | src/lsm.cpp:60-69 | one pivoting step makes column `i` a unit column and, when the pivot row is zero left of `i`, keeps the solutions of the system |
| Lsm.BringPivotUp | src/lsm.cpp:54-59 | after the partial-pivoting swap the diagonal entry dominates the column below it, earlier columns keep their status and the solutions are kept |
| Lsm.EliminationStep | src/lsm.cpp:52-70 | one pass of the column loop: the column becomes a unit column unless its pivot is below 1e-14 (then it is skipped with a negligible column), and solutions are kept |
| Lsm.Eliminate | src/lsm.cpp:52-72 | every column is either a unit column or skipped as negligible, and when no column was skipped the final right-hand side solves the original normal equations |
| Lsm.PolyIsHorner | src/lsm.cpp:79-80 | the power-sum continuation value equals its Horner form |
| Lsm.ContinuationValue | src/lsm.cpp:79-80 | the loop with a running power returns the fitted polynomial `sum beta_k s^k` |
| Lsm.BackwardStep | src/lsm.cpp:31-82 | one backward step: fewer than 5 in-the-money paths leave the cashflows alone; otherwise beta has one entry per basis column, solves the normal equations when no pivot was skipped, and each cashflow becomes its exercise value |
| Lsm.LsmAmericanPut | src/lsm.cpp:6-93 | no paths gives 0/0 (None); otherwise the price is non-negative, and with no steps it is the put payoff at `S0` |
| PdeCn.SpotStep | src/pde_cn.cpp:10-11 | the spot step `3K / num_S_steps` is non-zero whenever the solver runs (`K != 0`, at least one step) |
| PdeCn.GridSpansZeroToSMax | src/pde_cn.cpp:10-15 | the spot grid runs from 0 to `S_max = 3K` and is increasing for a positive strike |
| PdeCn.Coefficients | src/pde_cn.cpp:22-28 | the three coefficient vectors have one entry per node |
| PdeCn.ConstantRows | src/pde_cn.cpp:24-34 | on a constant vector the explicit operator scales by `1 - r dt/2` and the implicit one by `1 + r dt/2`: the Crank–Nicolson discount |
| PdeCn.EliminationStep | src/pde_cn.cpp:64-68 | the forward sweep's pivot `diag[i] - m sup[i-1]` and reduced right-hand side `d'[i] - m d'[i-1]` with `m = sub[i]/diag[i-1]` |
| PdeCn.BackStep | src/pde_cn.cpp:69-72 | back substitution: the last interior value is `d'/diag`, the others `(d' - sup V[i+1]) / diag` |
| PdeCn.ThomasSolves | src/pde_cn.cpp:63-72 | when no pivot is zero, the Thomas values satisfy every row `sub x[i-1] + diag x[i] + sup x[i+1] = rhs` of the tridiagonal system |
| PdeCn.DiscountedStrike | src/pde_cn.cpp:42-50 | the discounted strike `K e^{-r(T-t)}` lies in `(0, K]` for a positive strike, non-negative rate and `t <= T` |
| PdeCn.StepRhs | src/pde_cn.cpp:31-55 | the corrected right-hand side: `B V` plus only the implicit boundary term moved over (one entry per node) |
| PdeCn.SolveBandsSolvesCn | src/pde_cn.cpp:57-80 | whatever the coefficients, the corrected right-hand side's solution takes the new boundary values and satisfies `A W = B V` on every interior row |
| PdeCn.StepSolvesCn | src/pde_cn.cpp:30-80 | the corrected time step gives the boundary values of `t_j` and satisfies the Crank–Nicolson equations `A V^j = B V^{j+1}` on every interior row |
| PdeCn.AsWrittenCountsBoundaryTwice | src/pde_cn.cpp:45-54 | the step as written solves `A W = B V` plus the old boundary term `-c[N-1] V_N^{j+1}` (call) or `a[1] V_0^{j+1}` (put) once more on the row next to the boundary |
| PdeCn.AsWrittenDiffersWhenBoundaryLive | src/pde_cn.cpp:45-54 | whenever no pivot is zero and that extra term is non-zero, the as-written step and the corrected step disagree |
| PdeCn.WitnessStepRows | src/pde_cn.cpp:30-80 | for `K = 100, r = 0, T = 1, sigma = 0.2`, two spot steps and one time step, the corrected step gives `53/1.02` at the middle node and the as-written step `55/1.02` |
| PdeCn.AsWrittenStepDiffers | src/pde_cn.cpp:30-80 | on that input the as-written step differs from the corrected one |
| PdeCn.AsWrittenPriceDiffers | src/pde_cn.cpp:8-87 | on that input, at `S0 = 150`, the price as written differs from the corrected price |
| PdeCn.MarchStaysNone | src/pde_cn.cpp:30-81 | once a time step fails (a zero pivot) every earlier level fails too |
| PdeCn.BackwardStep | src/pde_cn.cpp:30-81 | the values at `t_j` are the step applied to the values at `t_{j+1}` |
| PdeCn.BackwardFrom | src/pde_cn.cpp:17-20 | at and after maturity (and for no time steps) the values are the terminal payoff |
| PdeCn.BackwardStaysNone | src/pde_cn.cpp:30-81 | a failure at any level means no price at `t = 0` |
| PdeCn.BackwardBoundaries | src/pde_cn.cpp:74-80 | in the corrected scheme, every level before maturity carries the call boundary `0` / `S_max - K e^{-r(T-t)}` or the put boundary `K e^{-r(T-t)}` / `0` |
| PdeCn.Terminal | src/pde_cn.cpp:18-20 | the terminal values have one entry per node |
| PdeCn.InterpolateBetweenNodes | src/pde_cn.cpp:83-86 | past the last node the price is `V[N]`; otherwise it is the linear interpolation between the two nodes bracketing `S0` and lies between their values |
| PdeCn.InterpolateAtNode | src/pde_cn.cpp:83-86 | at a grid node the interpolated price is that node's value |
| PdeCn.InterpolateMonotone | src/pde_cn.cpp:83-86 | a grid that is pointwise larger gives a larger interpolated price |
| PdeCn.SpotGrid | src/pde_cn.cpp:14-15 | node `i` of the spot array is `i dS` |
| PdeCn.TerminalValues | src/pde_cn.cpp:18-20 | the value array holds the call or put payoff at every node |
| PdeCn.FillCoefficients | src/pde_cn.cpp:22-28 | the arrays hold `a`, `b`, `c` of every interior node and 0 at the ends |
| PdeCn.BuildRhs | src/pde_cn.cpp:31-35 | the right-hand side array is the explicit product `B V` on the interior and 0 at the ends |
| PdeCn.AsWrittenRhsArray | src/pde_cn.cpp:31-55 | the right-hand side array with both boundary updates applied, exactly as the source builds it |
| PdeCn.SystemBands | src/pde_cn.cpp:57-59 | three fresh distinct arrays holding `-a`, `b`, `c` |
| PdeCn.ForwardSweep | src/pde_cn.cpp:64-68 | the sweep succeeds exactly when no pivot is zero, and then holds every pivot and reduced right-hand side |
| PdeCn.BackSubstitute | src/pde_cn.cpp:69-72 | the interior values are the Thomas solution; the ends are untouched |
| PdeCn.SolveStep | src/pde_cn.cpp:31-80 | the in-place step leaves in `V` exactly the as-written step's solution, or reports the zero pivot |
| PdeCn.CnSolveStep | src/pde_cn.cpp:31-80 | the body of the time loop turns the values at `t_{j+1}` into the as-written step at `t_j`, or reports the zero pivot |
| PdeCn.CnTimeStep | src/pde_cn.cpp:30-81 | one pass of the time loop moves the value array from level `j+1` to level `j`; a failure means no price at `t = 0` |
| PdeCn.TimeLoop | src/pde_cn.cpp:30-81 | the time loop leaves the values at `t = 0`, or reports a failed step |
| PdeCn.ReadOff | src/pde_cn.cpp:83-86 | the read-off is the interpolated price |
| PdeCn.PdeCrankNicolson | src/pde_cn.cpp:8-87 | the solver returns the price as written, whose step properties the lemmas above state |
| PdeCn.Thomas | src/pde_cn.cpp:61-80 | the in-place Thomas algorithm succeeds if and only if no pivot is zero, and then leaves the solution of the tridiagonal rows with the two boundary values at the ends |
| PdeCn.AsWrittenBackwardStep | src/pde_cn.cpp:30-81 | the levels as written are the as-written step applied to the later level |
| PdeCn.AsWrittenBackwardFrom | src/pde_cn.cpp:17-20 | at and after maturity (and for no time steps) the levels as written are the terminal payoff |
| PdeCn.AsWrittenBackwardStaysNone | src/pde_cn.cpp:30-81 | a failed step as written at any level means no price |
| PdeCn.AsWrittenStepBoundaries | src/pde_cn.cpp:30-80 | the step as written ends with the Dirichlet values of its own time at both ends: its right-hand side changes only interior rows, and the boundary assignment follows the solve |
| PdeCn.AsWrittenBackwardBoundaries | src/pde_cn.cpp:74-80 | every level the solver computes before maturity (as written) carries the call boundary `0` / `S_max - K e^{-r(T-t)}` or the put boundary `K e^{-r(T-t)}` / `0` |
| PdeCnAmerican.Exercise | src/pde_cn_american.cpp:72-75 | the projection keeps one value per node |
| PdeCnAmerican.ExerciseIsLeastAbove | src/pde_cn_american.cpp:72-75 | the projection is the least grid at or above both the values and the payoff: it is above the payoff, above the values, each entry is one of the two, and it lies below any other grid above both |
| PdeCnAmerican.ExerciseKeepsAbove | src/pde_cn_american.cpp:72-75 | a grid is unchanged by the projection exactly when it already lies above the payoff |
| PdeCnAmerican.ExerciseIdempotent | src/pde_cn_american.cpp:72-75 | projecting twice is projecting once |
| PdeCnAmerican.AmericanStep | src/pde_cn_american.cpp:30-75 | the corrected step followed by the projection keeps one value per node |
| PdeCnAmerican.AmericanBackwardStep | src/pde_cn_american.cpp:30-76 | the values at `t_j` are the projected step applied to those at `t_{j+1}` |
| PdeCnAmerican.AmericanBackwardFrom | src/pde_cn_american.cpp:17-20 | at and after maturity (and for no time steps) the values are the payoff |
| PdeCnAmerican.AmericanBackwardStaysNone | src/pde_cn_american.cpp:30-76 | a failed step at any level means no price |
| PdeCnAmerican.AmericanFromLater | src/pde_cn_american.cpp:30-76 | a level that has values comes from a later level that has values |
| PdeCnAmerican.AmericanAboveExercise | src/pde_cn_american.cpp:17-76 | every level's values lie at or above the exercise payoff |
| PdeCnAmerican.AmericanBoundaries | src/pde_cn_american.cpp:63-75 | in the corrected scheme, after projection a put's `V[0]` is `K` (the payoff beats `K e^{-r(T-t)}`) and a call keeps `0` and `S_max - K e^{-r(T-t)}` |
| PdeCnAmerican.ExercisedBoundaries | src/pde_cn_american.cpp:63-75 | the same for one pair of boundary values, before and after projection |
| PdeCnAmerican.TimeBeforeExpiry | src/pde_cn_american.cpp:35-36 | the time of every level is at most `T` |
| PdeCnAmerican.AmericanPriceAbovePayoff | src/pde_cn_american.cpp:8-82 | when the corrected solver gives a price, it is at least the interpolated payoff at `S0` |
| PdeCnAmerican.AsWrittenAmericanStep | src/pde_cn_american.cpp:30-75 | the as-written step followed by the projection keeps one value per node |
| PdeCnAmerican.AsWrittenAmericanStepDiffers | src/pde_cn_american.cpp:40-46 | for the witness input (K = 100, r = 0, T = 1, sigma = 0.2, two spot steps, one time step) the step as written differs from the corrected one at the middle node |
| PdeCnAmerican.AsWrittenAmericanBackwardStep | src/pde_cn_american.cpp:30-76 | the levels as written are the as-written projected step applied to the later level |
| PdeCnAmerican.AsWrittenAmericanBackwardFrom | src/pde_cn_american.cpp:17-20 | at and after maturity the levels as written are the payoff |
| PdeCnAmerican.AsWrittenAmericanBackwardStaysNone | src/pde_cn_american.cpp:30-76 | a failed step as written means no price |
| PdeCnAmerican.AsWrittenAmericanAboveExercise | src/pde_cn_american.cpp:17-76 | even as written, every level lies at or above the payoff |
| PdeCnAmerican.AsWrittenAmericanBoundaries | src/pde_cn_american.cpp:63-75 | at every level the solver computes before maturity (as written), for `r >= 0`, `T >= 0` and a positive strike, a put's `V[0]` is `K` and a call keeps `0` at node 0 and `S_max - K e^{-r(T-t)}` at node N |
| PdeCnAmerican.AsWrittenAmericanPriceAbovePayoff | src/pde_cn_american.cpp:8-82 | the price as written is at least the interpolated payoff at `S0` |
| PdeCnAmerican.AsWrittenAmericanPriceDiffers | src/pde_cn_american.cpp:8-82 | on the witness input at `S0 = 150` the price as written differs from the corrected price |
| PdeCnAmerican.ProjectEarlyExercise | src/pde_cn_american.cpp:72-75 | the in-place loop leaves the projection of the old values |
| PdeCnAmerican.AmericanTimeStep | src/pde_cn_american.cpp:30-75 | one pass of the time loop moves the array from level `j+1` to level `j` as written; a failure means no price |
| PdeCnAmerican.AmericanTimeLoop | src/pde_cn_american.cpp:30-76 | the time loop leaves the values at `t = 0` as written, or reports a failed step |
| PdeCnAmerican.PdeCrankNicolsonAmerican | src/pde_cn_american.cpp:8-82 | the solver returns the price as written, about which the lemmas above hold |
| OptionChain.MidPrice | examples/option_chain_analysis.cpp:47 | the mid price is halfway between bid and ask, so it lies between them |
| OptionChain.Spread | examples/option_chain_analysis.cpp:48 | bid plus spread is the ask |
| OptionChain.SpreadPct | examples/option_chain_analysis.cpp:49 | the spread percentage exists exactly when the mid is non-zero (the source divides by it) and then times the mid is 100 times the spread |
| OptionChain.SpreadIsTwiceHalfSpread | examples/option_chain_analysis.cpp:47-48 | the spread is twice the distance from bid to mid |
| OptionChain.CallOf | examples/option_chain_analysis.cpp:120-129 | a loaded call carries its row's strike and the row's call volatility divided by 100 |
| OptionChain.PutOf | examples/option_chain_analysis.cpp:134-143 | a loaded put carries its row's strike and the row's put volatility divided by 100 |
| OptionChain.ChainMembers | examples/option_chain_analysis.cpp:118-146 | an option is loaded exactly when some row quotes that side with bid or ask above 0.01 (both directions) |
| OptionChain.ChainLength | examples/option_chain_analysis.cpp:118-146 | at most two options per row are loaded |
| OptionChain.ChainQuoted | examples/option_chain_analysis.cpp:120-134 | every loaded option has bid or ask above 0.01 |
| OptionChain.LoadOptionChainData | examples/option_chain_analysis.cpp:78-149 | the loop over the rows pushes back exactly the chain, in row order, call before put |
| OptionChain.VolatilityUsed | examples/option_chain_analysis.cpp:166-182 | the volatility used is the solved one when it is finite and positive, otherwise `max(0.1, iv_market)`; either way positive |
| OptionChain.RelativeDiscrepancy | examples/option_chain_analysis.cpp:196 | the percentage discrepancy exists exactly when the theoretical price is non-zero and then is 100 times discrepancy over theoretical price |
| OptionChain.AnalyzeOption | examples/option_chain_analysis.cpp:154-208 | the analysis keeps the quote, prices at the volatility used, reports mid minus theoretical, flags arbitrage exactly when the mid is below 95% of the theoretical price (with profit `theoretical - ask`, else 0), and gives a call delta in [0,1] and a put delta in [-1,0] |
| OptionChain.CheapIffDeepDiscount | examples/option_chain_analysis.cpp:195-205 | for a positive theoretical price the arbitrage flag is exactly a relative discrepancy below -5% |
| OptionChain.ConvergedAnalysisMatchesMid | examples/option_chain_analysis.cpp:159-171 | when the solver converges, the analysis uses its volatility and the theoretical price is within the solver's tolerance of the mid |
| OptionChain.FailedSolveFallsBack | examples/option_chain_analysis.cpp:180-182 | when the solver gives up the volatility used is `max(0.1, iv_market)` |
| OptionChain.AnalysisGreeks | examples/option_chain_analysis.cpp:173-187 | for a live option on a positive spot gamma and vega are positive and the put delta is the call delta minus one |
| RiskManagement.Description | examples/risk_management.cpp:40-44 | the description starts with "Long " exactly for a positive quantity and with "Short " otherwise |
| RiskManagement.DescriptionSize | examples/risk_management.cpp:40-44 | after the side word comes the decimal magnitude of the quantity, which reads back as `|quantity|`, followed by a space |
| RiskManagement.PortfolioGreeks.constructor | examples/risk_management.cpp:50-56 | a fresh accumulator holds all-zero Greeks |
| RiskManagement.PortfolioGreeks.Add | examples/risk_management.cpp:58-65 | each of the six fields becomes the old value plus the other's |
| RiskManagement.PortfolioGreeks.Scale | examples/risk_management.cpp:67-74 | each of the six fields becomes the old value times the factor |
| RiskManagement.ScaleAfterAdd | examples/risk_management.cpp:58-74 | scaling distributes over adding |
| RiskManagement.PositionGreeks | examples/risk_management.cpp:81-100 | a position of zero quantity contributes nothing |
| RiskManagement.PositionGreeksAdditive | examples/risk_management.cpp:81-100 | the Greeks of a position are additive in its quantity |
| RiskManagement.LongOptionsLongGamma | examples/risk_management.cpp:81-100 | for a live option on a positive spot, the position's gamma and vega are positive exactly when it is long |
| RiskManagement.ContributionOfShares | examples/risk_management.cpp:132-135 | a strike-0 position counts as shares: delta is the quantity, value `S0 * quantity`, the other Greeks 0 |
| RiskManagement.Contributions | examples/risk_management.cpp:131-141 | one contribution per position, in order |
| RiskManagement.SumGreeksAppend | examples/risk_management.cpp:131-141 | summing contributions splits over concatenation |
| RiskManagement.CalculatePortfolioGreeks | examples/risk_management.cpp:128-144 | the loop returns the sum of the positions' contributions |
| RiskManagement.PortfolioTotalAppend | examples/risk_management.cpp:128-144 | the portfolio Greeks of two books together are the sum of each book's |
| RiskManagement.SharesOnly | examples/risk_management.cpp:132-135 | a book of shares only is worth spot times its delta and has no other Greeks |
| RiskManagement.ScenarioTime | examples/risk_management.cpp:182-197 | the scenario time is `T - days/365`, floored at 0.001 |
| RiskManagement.Repriced | examples/risk_management.cpp:199-207 | a repriced option position carries value, delta, gamma and vega times quantity and no theta or rho |
| RiskManagement.ScenarioShift | examples/risk_management.cpp:185-198 | a scenario keeps each position's strike, type and quantity |
| RiskManagement.ScenarioContributions | examples/risk_management.cpp:190-209 | one scenario contribution per position, in order |
| RiskManagement.ScenarioGreeks | examples/risk_management.cpp:188-209 | the loop returns the sum of the scenario contributions |
| RiskManagement.ScenarioAnalysis | examples/risk_management.cpp:149-223 | one P&L per stress scenario, each the scenario value minus the base value |
| RiskManagement.BaseScenarioUnchanged | examples/risk_management.cpp:154-209 | the base case (no shift, no decay) reproduces the portfolio's value, delta, gamma and vega |
| RiskManagement.BaseContribution | examples/risk_management.cpp:190-207 | the same, position by position |
| RiskManagement.BaseScenarioNoPnl | examples/risk_management.cpp:154-211 | the base case has zero P&L |
| RiskManagement.ShockedSpot | examples/risk_management.cpp:250-251 | the shocked spot of a positive spot is positive |
| RiskManagement.ShockedVol | examples/risk_management.cpp:263 | the shocked volatility is `vol + shock`, floored at 0.05 |
| RiskManagement.ShockedTime | examples/risk_management.cpp:264 | the shocked time is `T - 1/365`, floored at 0.001 |
| RiskManagement.ShockedShareValue | examples/risk_management.cpp:260-261 | shares are worth the shocked spot times quantity |
| RiskManagement.ShockedOptionValue | examples/risk_management.cpp:262-268 | an option is repriced at the shocked spot, volatility and time, times quantity |
| RiskManagement.ShockedValues | examples/risk_management.cpp:259-270 | one shocked value per position, in order |
| RiskManagement.PortfolioValueUnderShock | examples/risk_management.cpp:256-270 | the loop returns the sum of the shocked values |
| RiskManagement.SimulatePnl | examples/risk_management.cpp:243-274 | one P&L per pair of draws, each the shocked portfolio value minus the base value |
| RiskManagement.TailCount | examples/risk_management.cpp:279-285 | `static_cast<int>(f * n)` is the floor of `f * n` and at most `n` |
| RiskManagement.QuantileAt | examples/risk_management.cpp:279-280 | the quantile read is defined exactly when its index is in range |
| RiskManagement.TailMean | examples/risk_management.cpp:283-295 | the tail average is defined exactly when the tail is not empty (else 0/0) |
| RiskManagement.CountPositive | examples/risk_management.cpp:311-312 | the profit count is at most the number of outcomes |
| RiskManagement.ProfitShare | examples/risk_management.cpp:313 | the profit share is defined exactly when there are outcomes |
| RiskManagement.TailStatistics | examples/risk_management.cpp:276-313 | the report is computed on a sorted permutation of the P&L |
| RiskManagement.CountProfits | examples/risk_management.cpp:311-312 | the loop counts the strictly positive outcomes |
| RiskManagement.TailAverage | examples/risk_management.cpp:283-295 | the loop returns the tail average |
| RiskManagement.ReportDefined | examples/risk_management.cpp:279-313 | with at least 100 outcomes every figure is defined; with fewer the 99% shortfall is 0/0 |
| RiskManagement.ShortfallBelowQuantile | examples/risk_management.cpp:279-295 | on sorted outcomes the shortfall is at most the VaR quantile |
| RiskManagement.ProfitShareRange | examples/risk_management.cpp:313 | the probability of profit lies in [0, 100] |
| MlVolatility.SquaredDistance | dev/prototype_implementations/ml_volatility_framework.cpp:22-24 | the squared distance in (strike, expiry) is non-negative; the source's square root orders points the same way |
| MlVolatility.NearestIndex | dev/prototype_implementations/ml_volatility_framework.cpp:21-30 | the nearest point's index is one of the points scanned |
| MlVolatility.NearestIsFirstMinimum | dev/prototype_implementations/ml_volatility_framework.cpp:21-30 | the chosen point is no farther than any other and strictly nearer than every earlier one (the strict `<` keeps the first of equals) |
| MlVolatility.InterpolateVolatility | dev/prototype_implementations/ml_volatility_framework.cpp:13-33 | the loop returns the nearest point's volatility, 0.2 on an empty surface |
| MlVolatility.TotalVariation | dev/prototype_implementations/ml_volatility_framework.cpp:43-46 | the total variation of neighbouring volatilities is non-negative |
| MlVolatility.SurfaceSmoothness | dev/prototype_implementations/ml_volatility_framework.cpp:40-49 | the loop returns `1 / (1 + total variation)`, 1 below two points |
| MlVolatility.TotalVariationZeroIffFlat | dev/prototype_implementations/ml_volatility_framework.cpp:43-46 | the total variation is zero exactly when all the volatilities are equal |
| MlVolatility.SmoothnessOneIffFlat | dev/prototype_implementations/ml_volatility_framework.cpp:40-49 | the smoothness lies in (0, 1] and is 1 exactly on a flat surface |
| MlVolatility.Confidences | dev/prototype_implementations/ml_volatility_framework.cpp:55-57 | the confidences of the points, in order |
| MlVolatility.AverageConfidence | dev/prototype_implementations/ml_volatility_framework.cpp:51-60 | the loop returns the mean confidence, 0 on an empty surface |
| MlVolatility.AverageConfidenceInUnitInterval | dev/prototype_implementations/ml_volatility_framework.cpp:51-60 | with confidences in [0, 1] the average is in [0, 1] |
| MlVolatility.ConstantRow | dev/prototype_implementations/ml_volatility_framework.cpp:75-82 | one point per expiry at the constant volatility with confidence 1 |
| MlVolatility.PredictConstantSurface | dev/prototype_implementations/ml_volatility_framework.cpp:69-86 | the nested loops push back the strike-major grid of constant points |
| MlVolatility.GridIndexInRange | dev/prototype_implementations/ml_volatility_framework.cpp:74-75 | index `i * width + j` of the strike-major grid is in range |
| MlVolatility.ConstantGridLength | dev/prototype_implementations/ml_volatility_framework.cpp:74-84 | the grid has `|strikes| * |expiries|` points |
| MlVolatility.ConstantGridAt | dev/prototype_implementations/ml_volatility_framework.cpp:74-84 | point `i * |expiries| + j` is strike `i`, expiry `j` at the constant volatility |
| MlVolatility.ConstantGridShape | dev/prototype_implementations/ml_volatility_framework.cpp:74-84 | the same for every strike and expiry at once |
| MlVolatility.ConstantGridIsFlat | dev/prototype_implementations/ml_volatility_framework.cpp:74-84 | every point of the grid carries the constant volatility and confidence 1 |
| MlVolatility.ConstantSurfaceIsConstant | dev/prototype_implementations/ml_volatility_framework.cpp:13-86 | a non-empty constant surface interpolates to the constant everywhere, is perfectly smooth and has average confidence 1 |
| MlVolatility.ClassifyRegime | dev/prototype_implementations/ml_volatility_framework.cpp:208-214 | the classifier never answers Trending |
| MlVolatility.RegimeBands | dev/prototype_implementations/ml_volatility_framework.cpp:208-214 | high volatility exactly above VIX 30, low exactly below 15, crisis exactly in between with `|skew| > 0.1`, mean reverting otherwise |
| MlVolatility.ImpliedVols | dev/prototype_implementations/ml_volatility_framework.cpp:143-145 | the implied volatilities of the market points, in order |
| MlVolatility.SabrPredictor.constructor | dev/prototype_implementations/ml_volatility_framework.hpp:119 | the predictor holds the given alpha, beta, rho, nu |
| MlVolatility.SabrPredictor.Calibrate | dev/prototype_implementations/ml_volatility_framework.cpp:137-153 | empty data changes nothing; otherwise alpha becomes the mean implied volatility and beta, rho, nu become 0.5, -0.3, 0.3 |
| MlVolatility.CalibratedAlphaWithinMarket | dev/prototype_implementations/ml_volatility_framework.cpp:142-146 | the calibrated alpha lies between the smallest and largest market volatility |
| MlVolatility.PredictorConfidences | dev/prototype_implementations/ml_volatility_framework.cpp:268-270 | each member's own confidence (0.5 constant, 0.75 SABR, 0.9 ML), in order |
| MlVolatility.EqualWeights | dev/prototype_implementations/ml_volatility_framework.cpp:284 | `n` weights of `1/n` each |
| MlVolatility.EnsemblePredictor.constructor | dev/prototype_implementations/ml_volatility_framework.cpp:217 | a new ensemble has no members and no weights |
| MlVolatility.EnsemblePredictor.AddPredictor | dev/prototype_implementations/ml_volatility_framework.cpp:219-223 | the member and its weight are appended |
| MlVolatility.EnsemblePredictor.PredictVolatility | dev/prototype_implementations/ml_volatility_framework.cpp:225-241 | the loop returns the weighted average of the members' predictions (missing weights count as 1), 0.2 with no members or no positive total weight |
| MlVolatility.EnsemblePredictor.ModelConfidence | dev/prototype_implementations/ml_volatility_framework.cpp:262-277 | the loop returns the weighted average of the members' confidences, 0.5 as fallback |
| MlVolatility.EnsemblePredictor.OptimizeWeights | dev/prototype_implementations/ml_volatility_framework.cpp:279-287 | with members and data the weights become equal; otherwise nothing changes |
| MlVolatility.Combine | dev/prototype_implementations/ml_volatility_framework.cpp:229-240 | the weighted-average loop returns the weighted average |
| MlVolatility.WeightedSumOfUnanimous | dev/prototype_implementations/ml_volatility_framework.cpp:232-237 | when every member predicts `v` the weighted sum is `v` times the total weight |
| MlVolatility.UnanimousMembersAgree | dev/prototype_implementations/ml_volatility_framework.cpp:225-241 | when every member predicts `v` and the total weight is positive the ensemble predicts `v` |
| MlVolatility.WeightedSumBounds | dev/prototype_implementations/ml_volatility_framework.cpp:232-237 | with non-negative weights the weighted sum lies between `lo` and `hi` times the total weight |
| MlVolatility.WeightedAverageBetween | dev/prototype_implementations/ml_volatility_framework.cpp:225-241 | with non-negative weights the ensemble value lies between its members' extremes |
| MlVolatility.EnsembleConfidenceBounds | dev/prototype_implementations/ml_volatility_framework.cpp:262-277 | with non-negative weights the ensemble confidence lies in [0.5, 0.9] |
| MlVolatility.EqualWeightSums | dev/prototype_implementations/ml_volatility_framework.cpp:284 | under equal weights the weighted sum is the plain sum over `n` and the total weight `k/n` |
| MlVolatility.EqualWeightsGiveMean | dev/prototype_implementations/ml_volatility_framework.cpp:225-284 | after the weights are optimised the ensemble predicts the plain mean of its members |
| EnhancedCli.OptionName | ui/cli/enhanced_cli.cpp:383-395 | the option name is the argument with its leading `--` or `-` removed |
| EnhancedCli.ArgumentParser.constructor | ui/cli/enhanced_cli.hpp:171 | a new parser has no options and no positionals |
| EnhancedCli.ArgumentParser.Parse | ui/cli/enhanced_cli.cpp:379-408 | the loop leaves the parser in the state the left-to-right parse of the arguments gives from its old state |
| EnhancedCli.ParseAppend | ui/cli/enhanced_cli.cpp:379-408 | parsing `a + b` is parsing `a` and then `b` (no option of `a` takes a value from `b` once `a` is whole) |
| EnhancedCli.OptionWithValue | ui/cli/enhanced_cli.cpp:383-403 | an option followed by an argument not starting with `-` takes it as its value |
| EnhancedCli.OptionAsFlag | ui/cli/enhanced_cli.cpp:387-392 | an option with nothing usable after it is set to "true" |
| EnhancedCli.LoneDashIsPositional | ui/cli/enhanced_cli.cpp:394-406 | a lone `-` is a positional argument |
| EnhancedCli.PlainArgumentsArePositional | ui/cli/enhanced_cli.cpp:404-406 | arguments not starting with `-` are appended to the positionals in order |
| EnhancedCli.LastValueWins | ui/cli/enhanced_cli.cpp:387-388 | a later `--name value` overrides any earlier value of `name` |
| EnhancedCli.ParseKeepsEarlier | ui/cli/enhanced_cli.cpp:379-408 | parsing never drops an option key or a positional already seen |
| EnhancedCli.NewKeysAreOptionNames | ui/cli/enhanced_cli.cpp:379-408 | every new key is the name of some option argument |
| EnhancedCli.ArgumentParser.HasFlag | ui/cli/enhanced_cli.cpp:410-412 | a flag is present exactly when its key was parsed |
| EnhancedCli.ArgumentParser.GetOption | ui/cli/enhanced_cli.cpp:414-417 | the stored value, or the default when absent |
| EnhancedCli.ArgumentParser.GetDouble | ui/cli/enhanced_cli.cpp:419-430 | the default when absent or when `stod` throws, else the converted value |
| EnhancedCli.ArgumentParser.GetInt | ui/cli/enhanced_cli.cpp:432-443 | the default when absent or when `stoi` throws, else the converted value |
| EnhancedCli.TypeNamed | ui/cli/enhanced_cli.cpp:298-305 | "call"/"c" name a call and "put"/"p" a put, and nothing else names either |
| EnhancedCli.Validate | ui/cli/enhanced_cli.cpp:272-305 | usage is shown exactly when `--help` or `-h` is present; a priced request has positive spot, strike, time and volatility and a recognised type |
| EnhancedCli.PriceCommandStatus | ui/cli/enhanced_cli.cpp:282-305 | without help the command fails with status 1 exactly when spot, strike, time or volatility is not positive or the type is unrecognised; the rate is passed through unchecked |
| EnhancedCli.LongKeyWins | ui/cli/enhanced_cli.cpp:283-287 | the long spelling of a parameter wins over its short one |
| EnhancedCli.CompletionsMembers | ui/cli/enhanced_cli.cpp:362-376 | a completion is exactly an option that starts with the partial word |
| EnhancedCli.CompletionsAppend | ui/cli/enhanced_cli.cpp:369-373 | completions keep the options' order |
| EnhancedCli.GetCompletions | ui/cli/enhanced_cli.cpp:362-376 | the loop returns the price options that start with the partial word, in order |
| EnhancedCli.Colorize | ui/cli/enhanced_cli.cpp:221-226 | without a theme the text is unchanged; otherwise it is the colour code, the text and the reset code |
| EnhancedCli.Words | ui/cli/enhanced_cli.cpp:228-238 | every token is a non-empty run of non-whitespace |
| EnhancedCli.Tokenize | ui/cli/enhanced_cli.cpp:228-238 | the loop returns the whitespace-separated words of the input |
| EnhancedCli.TokensOfJoin | ui/cli/enhanced_cli.cpp:228-238 | tokenizing words joined by spaces gives back the words |
| EnhancedCli.Widen | ui/cli/enhanced_cli.cpp:490-510 | widening keeps as many widths as the longer of the widths and the row |
| EnhancedCli.WidenGrows | ui/cli/enhanced_cli.cpp:490-510 | widening never shrinks a width and makes room for every cell of the row |
| EnhancedCli.ColumnWidthsAreMaxima | ui/cli/enhanced_cli.cpp:490-512 | each column's width is the maximum cell length in that column: every cell fits and some cell attains it |
| EnhancedCli.WidestRow | ui/cli/enhanced_cli.cpp:490-512 | some row attains each column's width |
| EnhancedCli.PadRight | ui/cli/enhanced_cli.cpp:520 | `setw` with left alignment pads the cell with spaces to the width and keeps it in front |
| EnhancedCli.RowLines | ui/cli/enhanced_cli.cpp:471-473 | one line per row |
| EnhancedCli.RowLinesLength | ui/cli/enhanced_cli.cpp:514-529 | every row line has the frame width |
| EnhancedCli.RowMatchesSeparator | ui/cli/enhanced_cli.cpp:514-541 | every row prefix is as long as the separator prefix over the same columns |
| EnhancedCli.RowLength | ui/cli/enhanced_cli.cpp:514-541 | a formatted row is exactly as long as the separator line |
| EnhancedCli.TableIsRectangular | ui/cli/enhanced_cli.cpp:462-480 | the table has one line per row, plus four frame lines with headers, and every line has the same length |
| EnhancedCli.TableFormatter.constructor | ui/cli/enhanced_cli.hpp:214 | a new formatter is empty and its widths are consistent |
| EnhancedCli.TableFormatter.SetHeaders | ui/cli/enhanced_cli.cpp:446-449 | the headers are replaced, the rows kept and the widths recomputed |
| EnhancedCli.TableFormatter.AddRow | ui/cli/enhanced_cli.cpp:451-454 | the row is appended and the widths recomputed |
| EnhancedCli.TableFormatter.Clear | ui/cli/enhanced_cli.cpp:456-460 | headers, rows and widths are emptied |
| EnhancedCli.TableFormatter.CalculateColumnWidths | ui/cli/enhanced_cli.cpp:490-512 | the widths become the column maxima over headers and rows |
| EnhancedCli.TableFormatter.FormatRow | ui/cli/enhanced_cli.cpp:514-530 | each column is the separator, a space, the cell padded to its width (blank when missing) and a space, closed by the separator |
| EnhancedCli.TableFormatter.FormatSeparatorLine | ui/cli/enhanced_cli.cpp:532-542 | `+` then `width + 2` dashes per column, closed by `+` |
| EnhancedCli.TableFormatter.FormatTable | ui/cli/enhanced_cli.cpp:462-480 | separator, header, separator, the rows and a closing separator, each on its own line; only the rows without headers |
| EnhancedCli.WidenBy | ui/cli/enhanced_cli.cpp:501-509 | the inner loop widens the widths by one row |
| PerformanceUtils.OptimalThreadCount | src/performance_utils.cpp:446-461 | the thread count lies between the physical cores and the hardware threads; memory- and I/O-bound work gets every hardware thread |
| PerformanceUtils.ThreadCountFollowsHyperthreadingAdvice | src/performance_utils.cpp:446-461 | where hyperthreading is not advised the count is the physical cores; where it is advised, extra hardware threads raise the count above the cores |
| PerformanceUtils.ToSize | src/performance_utils.cpp:557-590 | the conversion to `size_t` lands in [0, 2^64) and leaves every value already in range unchanged |
| PerformanceUtils.EstimateMemoryRequirement | src/performance_utils.cpp:551-593 | the estimate is a `size_t`; it is 0 for an unknown pricing method and for a method whose required parameters are missing |
| PerformanceUtils.WholeMebibytes | src/performance_utils.cpp:557-590 | for a non-negative byte count the estimate is the number of whole MiB it holds |
| PerformanceUtils.MonteCarloEstimateCoversPayoffs | src/performance_utils.cpp:557-572 | with non-negative paths the Monte Carlo estimate is the whole MiB of the payoff array, doubled when a control variate is used |
| PerformanceUtils.MonteCarloEstimateMonotone | src/performance_utils.cpp:557-572 | more paths never give a smaller Monte Carlo estimate |
| PerformanceUtils.QuotientMonotone | src/performance_utils.cpp:557-572 | the whole-MiB count grows with the byte count and leaves room for the control-variate doubling |
| PerformanceUtils.NegativePathsWrapAround | src/performance_utils.cpp:557-572 | a path count of -2^17 or less wraps around through `size_t` to an estimate above 2^63 MiB |
| PerformanceUtils.GridEstimatesCoverArrays | src/performance_utils.cpp:573-590 | with non-negative step counts the PDE and SLV estimates are the whole MiB of their grids and path arrays |
| PerformanceUtils.CompareToBaseline | src/performance_utils.cpp:806-822 | computes the mean time ratio over positive baseline times, 0 for runs of different length and NaN (`None`) for two empty runs |
| PerformanceUtils.RatioSumAtMost | src/performance_utils.cpp:814-819 | when no test got slower, the summed ratios lie between 0 and the number of tests |
| PerformanceUtils.NoSlowdownComparesAtMostOne | src/performance_utils.cpp:806-822 | a run no test of which got slower compares at most 1 with its baseline |
| PerformanceUtils.RatioSumOfItself | src/performance_utils.cpp:814-819 | a run with positive times summed against itself gives one per test |
| PerformanceUtils.ComparisonWithItselfIsOne | src/performance_utils.cpp:806-822 | a run compared with itself gives exactly 1 |
| PerformanceUtils.Throughputs | src/performance_utils.cpp:968-971 | the throughputs of a run, one per result in order |
| PerformanceUtils.CalculatePerformanceScore | src/performance_utils.cpp:963-975 | the score is the mean throughput of the run (0 for an empty run) |
| PerformanceUtils.ScoreBetweenThroughputs | src/performance_utils.cpp:963-975 | the score of a non-empty run lies between its smallest and largest throughput |
| PerformanceUtils.DetectRegressions | src/performance_utils.cpp:922-947 | the regressions are those of the tests shared with the latest stored run, in test order, and none without history |
| PerformanceUtils.RegressionsExactlyTheSlowTests | src/performance_utils.cpp:935-944 | a test is reported if and only if its baseline time is positive and it slowed down by more than the threshold; each report carries the test's name and slowdown |
| PerformanceUtils.RegressionsAtMostCompared | src/performance_utils.cpp:935-944 | at most one regression is reported per compared test |
| PerformanceUtils.Find | src/performance_utils.cpp:873-906 | a found position lies at or after the start and leaves room for the pattern |
| PerformanceUtils.QuotedValueAsWritten | src/performance_utils.cpp:873-878 | the value the loader extracts (with `npos + 1` wrapping to 0) is no longer than its line |
| PerformanceUtils.QuotedValue | src/performance_utils.cpp:873-878 | the value between the quotes after the colon, absent unless both quotes are there, is no longer than its line |
| PerformanceUtils.QuotedValueHasNoQuote | src/performance_utils.cpp:873-878 | a value read between two quotes contains no quote |
| PerformanceUtils.QuotedValueAgreesWhenQuoted | src/performance_utils.cpp:873-878 | whenever a quote follows the colon, the loader's reading and the intended one agree |
| PerformanceUtils.UnquotedVersionReadsEmpty | src/performance_utils.cpp:873-878 | the line `"version": 3` is read as the empty version where no value was meant to be read |
| PerformanceUtils.UnquotedTimestampReadsEmpty | src/performance_utils.cpp:879-884 | the line `"timestamp": 1700000000,` (a number, not a quoted string) reads as the empty text before its first quote |
| PerformanceUtils.TimestampLineLacksVersion | src/performance_utils.cpp:873-879 | the line `"timestamp": 1700000000,` holds no `"version":` key, so it does not take the version branch |
| PerformanceUtils.UnquotedTimestampReadsNow | src/performance_utils.cpp:879-891 | the line `"timestamp": 1700000000,` reads an empty value, which `std::stoll` rejects, so the timestamp is set to the current time |
| PerformanceUtils.LoadLine | src/performance_utils.cpp:870-916 | one line either leaves the history as it was or appends exactly one tracker |
| PerformanceUtils.LoadBenchmarkHistory | src/performance_utils.cpp:852-920 | the loaded history is the one the line-by-line loader state reaches after every trimmed line |
| PerformanceUtils.LoadLineKeepsResultsEmpty | src/performance_utils.cpp:907-913 | no line ever puts results into a tracker |
| PerformanceUtils.LoadedTrackersHaveNoResults | src/performance_utils.cpp:852-920 | every loaded tracker has an empty result list |
| PerformanceUtils.HistoryGrowsByAppending | src/performance_utils.cpp:910-913 | more lines only ever extend the loaded history |
| PerformanceUtils.NoRegressionsAgainstLoadedHistory | src/performance_utils.cpp:922-947 | regression detection against a loaded history never reports a regression |
| OptionPricingAnalyzer.ParsePrice | scripts/option_pricing_analyzer.py:130-138 | an empty or `-` cell has no price; a price read is the number `float()` makes of the cell cleaned of separators, quotes and surrounding blanks, never of an empty cleaned cell |
| OptionPricingAnalyzer.ParsePercentage | scripts/option_pricing_analyzer.py:140-148 | an empty or `-` cell has no percentage |
| OptionPricingAnalyzer.PercentageIsHundredthOfPrice | scripts/option_pricing_analyzer.py:130-148 | on a cell without `%` a percentage is read exactly when a price is, and it is the price divided by 100 |
| OptionPricingAnalyzer.SeparatorsAndQuotesDropped | scripts/option_pricing_analyzer.py:135-136 | a quoted cell with a thousands separator, `"a,b"`, reads as the number `ab` |
| OptionPricingAnalyzer.PercentOfPlainDigits | scripts/option_pricing_analyzer.py:145-146 | a cell `d%` reads as a hundredth of the number `d`, and as nothing when `d` is not a number |
| OptionPricingAnalyzer.IvOrDefault | scripts/option_pricing_analyzer.py:84 | `call_iv or 0.20` (and `put_iv or 0.20` at py:95): the volatility a quote gets is never 0, falling back to 20% for a missing or zero one |
| OptionPricingAnalyzer.ParseOptionChain | scripts/option_pricing_analyzer.py:50-102 | the quotes read are those of the rows one after another, each row contributing its call then its put |
| OptionPricingAnalyzer.ParseRow | scripts/option_pricing_analyzer.py:58-100 | the quotes one row contributes |
| OptionPricingAnalyzer.RowQuoteIff | scripts/option_pricing_analyzer.py:59-100 | a side of a row becomes a quote if and only if the row has 23 cells, a strike and a positive price on that side; a row gives at most two quotes, the call before the put |
| OptionPricingAnalyzer.ChainOptionsWellFormed | scripts/option_pricing_analyzer.py:50-102 | a chain gives at most two quotes per row, each a NIFTY option with a positive market price and a non-zero volatility |
| OptionPricingAnalyzer.Strikes | scripts/option_pricing_analyzer.py:186 | the strikes of the options, in order |
| OptionPricingAnalyzer.SpotWithinStrikes | scripts/option_pricing_analyzer.py:173-187 | with both calls and puts the spot estimate lies between the smallest and largest strike; without both it is the 23000 default |
| OptionPricingAnalyzer.ComparisonSign | scripts/option_pricing_analyzer.py:294-296 | the difference is market minus theoretical; over a positive theoretical price the percentage has the difference's sign, otherwise it is 0 |
| OptionPricingAnalyzer.ComparisonOf | scripts/option_pricing_analyzer.py:294-296 | a result carries a price difference exactly when it has a market price |
| OptionPricingAnalyzer.Successful | scripts/option_pricing_analyzer.py:318 | keeps only results the pricer handled, never more than it was given |
| OptionPricingAnalyzer.WithMarketPrice | scripts/option_pricing_analyzer.py:332 | keeps only results with a market price |
| OptionPricingAnalyzer.WithMarketPriceMembers | scripts/option_pricing_analyzer.py:332 | a result is kept if and only if it is among the inputs and has a market price |
| OptionPricingAnalyzer.AbsPctSum | scripts/option_pricing_analyzer.py:333 | the summed absolute percentage differences are never negative |
| OptionPricingAnalyzer.GenerateSummary | scripts/option_pricing_analyzer.py:316-356 | the average percentage difference and the vega risk are non-negative, so are the delta and gamma risks at a non-negative spot, and over- plus underpriced counts never exceed the options with market prices |
| OptionPricingAnalyzer.RiskOfDelta | scripts/option_pricing_analyzer.py:351 | the delta risk of a 1% move is non-negative at a non-negative spot |
| OptionPricingAnalyzer.RiskOfGamma | scripts/option_pricing_analyzer.py:352 | the gamma risk is non-negative at a non-negative spot |
| OptionPricingAnalyzer.CountsPartitionCompared | scripts/option_pricing_analyzer.py:345-348 | every compared option is overpriced, underpriced, or at a zero difference, and exactly one of these |
| OptionPricingAnalyzer.SummaryErrorIff | scripts/option_pricing_analyzer.py:318-321 | the summary is the error if and only if no option was priced successfully |
| OptionPricingAnalyzer.SuccessfulAppend | scripts/option_pricing_analyzer.py:318 | filtering two lists of results together is filtering each in turn |
| OptionPricingAnalyzer.PositionSumAppend | scripts/option_pricing_analyzer.py:324-329 | a position-weighted sum over two lists is the sum of the two |
| OptionPricingAnalyzer.TotalsAdd | scripts/option_pricing_analyzer.py:324-329 | the portfolio value and net Greeks of two lists of results analysed together are the sums of each list's |
| OptionPricingAnalyzer.CsvCells | scripts/option_pricing_analyzer.py:450-453 | every option line is made of fourteen cells, one per header column; the type is the stored text and the days print as an integer for chain quotes and as a float for portfolio rows (py:118, 120) |
| OptionPricingAnalyzer.CsvLines | scripts/option_pricing_analyzer.py:449-454 | one CSV line per option |
| OptionPricingAnalyzer.CsvLinesAvoid | scripts/option_pricing_analyzer.py:449-454 | a character no cell holds, other than the comma, appears in no option line |
| OptionPricingAnalyzer.HeaderIsOneLine | scripts/option_pricing_analyzer.py:445 | the header holds no line break |
| OptionPricingAnalyzer.CsvLineCount | scripts/option_pricing_analyzer.py:438-456 | where no cell holds a line break, the CSV text has one line for the header and one per option |
| OptionPricingAnalyzer.CsvFieldCount | scripts/option_pricing_analyzer.py:450-453 | where no cell holds a comma, every option line has exactly fourteen fields |

## Left out

- Floating point: `double` is `real`, so rounding, overflow to infinity and signed zeros are not modelled. A NaN the code can produce is `None` or a tagged value where the model follows it.
- The C math library (`exp`, `log`, `sqrt`, `pow`, `erf`, `cos`, `sin`) is an abstract `Numerics.Math` value. Only its sign, range and oddness facts are used, so no accuracy claim about Box–Muller, the inverse normal CDF, `fast_exp`/`fast_log` or the SABR formula is made.
- `std::mt19937_64`, `std::normal_distribution` and `std::uniform_real_distribution` are streams of draws indexed by how many were taken (`MathUtils.Engine`), and a seed maps to an engine. The generators themselves are library code.
- Statistical accuracy is not a property of the code: Monte Carlo convergence to Black–Scholes, the variance-reduction ordering, QE moment matching and American ≥ European are not stated.
- I/O, the clock and the environment are parameters or absent: printing and console reports, file reading and writing, `std::chrono`, today's date in the analyzer script, the subprocess call to the pricer, the interactive shell, and CPU, NUMA and thread detection.
- `LeverageGrid::interpolate` and `SLVCalibrationConfig` are not declared in the header the calibration includes. The interpolation is a parameter `interp`, and the configuration is a record with the fields the code reads.
- The radical inverse of `include/math_utils_new.hpp` is the same digit loop as the live header's and is modelled once, by `MathUtils.RadicalInverse`.
- AnalyticBs.BsPrice: a zero strike with time left and a positive volatility is excluded (`Priceable`). The source then takes `log(S0 / 0)`, an infinite d1, and returns `S0` for a call and 0 for a put through `N(±∞)`. Infinities are not modelled.
- AnalyticBs.BsDelta, AnalyticBs.BsGamma, AnalyticBs.BsVega, AnalyticBs.BsTheta, AnalyticBs.BsRho: the same zero-strike exclusion through `Priceable`.
- AnalyticBs.BsPrice: a zero spot on the closed-form branch is stated as the limit the source reaches through `log(0) = -∞` (call 0, put K e^{-rT}). A spot and a strike of opposite signs make the source's `log(S0 / K)` NaN, and its price NaN; the model's `log` of a negative number is unconstrained, so there the model promises no value.
- AnalyticBs.BsDelta: a spot and a strike of opposite signs give NaN in the source; the model's `log` of a negative number is unconstrained, and its [0, 1] and [-1, 0] ranges there describe a number the source does not return.
- AnalyticBs.BsGamma, AnalyticBs.BsVega: a positive spot with a negative strike gives NaN in the source; the model's result there is an unspecified number.
- AnalyticBs.BsTheta: a spot and a strike of opposite signs give NaN in the source; the model's result there is an unspecified number.
- AnalyticBs.BsRho: a spot and a strike of opposite signs give NaN in the source; the model's result there is an unspecified number, and the sign facts of `BsRhoSign` there describe a number the source does not return.
- OptionChain.AnalyzeOption: inherits the zero-strike exclusion and the unmodelled NaN of a spot and a strike of opposite signs through the Black–Scholes Greeks.
- RiskManagement.PositionGreeks: inherits the zero-strike exclusion and the unmodelled NaN of a spot and a strike of opposite signs for option positions through the Black–Scholes Greeks.
- PdeCn.PdeCrankNicolson: requires a non-zero strike and at least one spot step (`Runs`). Otherwise the source divides by a zero spot step and runs on infinities.
- PdeCn.PdeCrankNicolson: a zero pivot in the Thomas sweep gives `None`. The source divides by it and carries infinities or NaN into the price, except at spots at or beyond `S_max = 3K`: there the read-off takes `V[N]`, which the boundary assignment has re-set to a finite value, so the source returns a finite price where the model returns `None`.
- PdeCn.PdeCrankNicolson: requires `S0 / dS > -1` (`InGrid`). A spot further below zero truncates to a negative index, which the source reads out of bounds.
- PdeCnAmerican.PdeCrankNicolsonAmerican: the same three exclusions as the European solver. This includes the zero-pivot case at spots at or beyond `S_max`, where the source returns the projected boundary value `V[N]` and the model returns `None`.
- SlvPricing.SlvPrice: with the QE scheme and at least one step, κ, θ, ξ and T must be positive (`QeWellDefined`). Otherwise the source divides by zero and prices NaN.
- SlvCalibration.McImpliedVol: the same positivity of κ, θ and ξ is required (`QeReady`). Where it fails, the source's min/max clamp turns the NaN into 2.0.
- SlvPricing.QeOutcome: the quadratic branch's extra normal is the next value of the generator's normal stream. The source draws it through a fresh `std::normal_distribution` on the same engine (src/slv.cpp:40, 86), and how many raw engine words that takes is not modelled.
- MonteCarloGbm.GbmPrice: with Greeks on, a zero spot in the money is excluded (`DeltaDefined`). There the source's pathwise delta divides by `S0 = 0`.
- MonteCarloGbm.GbmPrice: the OpenMP loop is modelled as the sequential loop. Its threads share the generator, so the parallel draw order is unspecified.
- Lsm.LsmAmericanPut: requires non-negative step and path counts. With a negative path count the source asks for a vector of a wrapped-around `size_t` size, which throws. With a negative step count it reads `S[N]` outside the path matrix.
- Lsm.LsmAmericanPut: the price is `MeanCashflow` of the final cashflow array, but the contract states only its non-negativity and the no-step case, not the price as a function of the inputs. Each regression's β comes from in-place pivoted elimination on an array (`Lsm.BackwardStep`), and no function computes it, so the chain of backward steps has no closed form; each `BackwardStep` states its new cashflows in terms of the old ones and that β.
- MonteCarloGbm.GbmPrice, MonteCarloGbm.GbmPriceOf, SlvPricing.SlvPrice, SlvPricing.SlvPriceOf, Lsm.LsmAmericanPut: a negative maturity `T` is not excluded. The source's `sqrt` of a negative time (src/monte_carlo_gbm.cpp:14, src/slv.cpp:18, src/lsm.cpp:17) is NaN and so is its price, while the model's `sqrt` of a negative number is unconstrained and the contracts still promise a non-negative price.
- Stats.ExpectedShortfall: confidence levels whose tail count `(1 - c) n` falls outside (-1, n + 1) are excluded (`CutoffDefined`). There the source converts a negative count to `size_t` or reads past the end.
- PerformanceUtils.EstimateMemoryRequirement: parameter values whose conversion to `long` or `int` is undefined behaviour are excluded (`EstimateDefined`). The `size_t` wrap-around of in-range negative values is modelled.
- PerformanceUtils.DetectRegressions: a report is the test's name and its relative slowdown as a number. The source's message text, the name, `": "`, `std::to_string` of the slowdown times 100 and `"% slower"`, is not built.
- RiskManagement.SimulatePnl: the pairs of Gaussian draws and the base value are parameters. Nothing ties the draws to the source's generator seeded with 42 (two normals per simulated day) or the base value to the portfolio's total value (examples/risk_management.cpp:232-270).
- EnhancedCli.TableFormatter: widths and padding count characters. The source's `length()` and `std::setw` count bytes, so cells with non-ASCII text get different widths.
- MlVolatility.EnsemblePredictor: members are the constant, SABR and machine-learning predictors (`Predictor`). The source accepts any predictor as a member, including another ensemble; nested ensembles are not modelled.
- PerformanceUtils.DetectRegressions: the threshold is always passed; the header's default argument of 0.05 is not modelled.
- IvSolve.ImpliedVol: an infinite price from the callback is not modelled, only a number or NaN.
- IvSolve.TimesPositive: the tests `f_lo * f_hi > 0.0`, `fa * fc <= 0.0` and `fa * fm <= 0.0` are decided from the signs of the two finite residuals, the same test on real numbers (IvSolve.TimesSigns); a double product that underflows to zero or overflows is not modelled.
- EnhancedCli.ArgumentParser.GetDouble: the conversion yields a number or fails, never NaN. So `stod("nan")`, which passes the `<= 0` checks of the price command, is not modelled.
- MlVolatility.InterpolateVolatility: compares squared distances instead of `sqrt` of them. The square root is increasing, so the nearest point is the same.
- MlVolatility: the SABR volatility formula and the machine-learning model's inference are not modelled. The ensemble takes its members' predictions as values.
- OptionPricingAnalyzer: Python's `float()` and `str()` of a number are parameters (`FloatParser`, `Renderer`). The subprocess pricing call and the expiry-days estimate are not modelled; their results enter as fields of `PricedOption`.

## Findings

| source | as written | input that shows it | evidently intended | confidence | as-written member | corrected member |
|---|---|---|---|---|---|---|
| src/pde_cn.cpp:45-52 | the right-hand side adds the old boundary term `-c[N-1] V_N` (call, line 45) or `a[1] V_0` (put, line 52) a second time; the explicit product at line 34 already contains it | K = 100, r = 0, T = 1, sigma = 0.2, two spot steps, one time step, a call at S0 = 150: the middle node is 55/1.02 as written against 53/1.02 | only the new boundary term of the implicit side is moved to the right-hand side (lines 47 and 54) | high; not executed | PdeCn.AsWrittenPriceDiffers | PdeCn.StepSolvesCn |
| src/pde_cn_american.cpp:40-45 | the same double-counted boundary term in the American solver | the same input, priced by the American solver at S0 = 150 | the same right-hand side as the corrected European step, then the projection | high; not executed | PdeCnAmerican.AsWrittenAmericanPriceDiffers | PdeCnAmerican.AmericanPriceAbovePayoff |
| src/performance_utils.cpp:874-877 | `line.find("\"", colon + 1) + 1` wraps `npos` around to 0, so the `!= npos` guard never fails and an unquoted value reads as the text before the line's first quote | the line `"version": 3` stores the version `""`; `"timestamp": 1700000000,` sets the timestamp to the current time | a line without a quoted value leaves the field unchanged | high; not executed | PerformanceUtils.UnquotedVersionReadsEmpty | PerformanceUtils.QuotedValueHasNoQuote |
| include/math_utils_new.hpp:332-333 | `h / 2^64-1` reaches exactly 1 | index 0 with seed 0xa15ac5c27d2c5b48 hashes to 2^64 - 1 | a uniform in [0, 1), as the doc comment at lines 304-305 says | high; not executed | MathUtilsNew.HashUniformReachesOne | MathUtilsNew.HashUniformHalfOpen |
