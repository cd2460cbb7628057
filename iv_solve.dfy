/**
 * `include/iv_solve.hpp`: the implied-volatility root finder. It brackets a
 * sign change of `price(sigma) - target` between `lo` and `hi` (doubling `hi`
 * at most ten times), then alternates secant steps with a bisection every
 * fifth iteration, keeping the sign change inside the bracket.
 *
 * The pricing callback may return NaN; a NaN value is `None` here, and every
 * comparison that involves it is false, as in IEEE arithmetic. Infinities
 * are not modelled. Every abscissa the solver computes is finite.
 */
module IvSolve {
  import opened Numerics

  /** A pricing callback: a price, or None for NaN. */
  type PriceFn = real -> Option<real>

  /** `price_fn(x) - target_price`, NaN when the price is. */
  function Residual(f: PriceFn, target: real, x: real): Option<real>
  {
    match f(x)
    case None => None
    case Some(p) => Some(p - target)
  }

  /** The product of two doubles, NaN when either is. */
  function Times(x: Option<real>, y: Option<real>): Option<real>
  {
    if x.Some? && y.Some? then Some(x.value * y.value) else None
  }

  /** `x > 0.0`, false for NaN. */
  predicate Positive(x: Option<real>) { x.Some? && 0.0 < x.value }

  /** `x <= 0.0`, false for NaN. */
  predicate NonPositive(x: Option<real>) { x.Some? && x.value <= 0.0 }

  /** `x * y > 0.0`, false for NaN: both finite and strictly of one sign. */
  predicate TimesPositive(x: Option<real>, y: Option<real>)
  {
    x.Some? && y.Some? && ((0.0 < x.value && 0.0 < y.value) || (x.value < 0.0 && y.value < 0.0))
  }

  /** `x * y <= 0.0`, false for NaN: both finite, one of them zero or the two of opposite signs. */
  predicate TimesNonPositive(x: Option<real>, y: Option<real>)
  {
    x.Some? && y.Some? && !((0.0 < x.value && 0.0 < y.value) || (x.value < 0.0 && y.value < 0.0))
  }

  /** The sign tests on the product, decided by the signs of the factors. */
  lemma TimesSigns(x: Option<real>, y: Option<real>)
    ensures Positive(Times(x, y)) <==> TimesPositive(x, y)
    ensures NonPositive(Times(x, y)) <==> TimesNonPositive(x, y)
  {
    if x.Some? && y.Some? {
      var u, v := x.value, y.value;
      if 0.0 < u && 0.0 < v {
        ProductPositive(u, v);
      } else if u < 0.0 && v < 0.0 {
        ProductPositive(-u, -v);
      } else if u <= 0.0 && 0.0 <= v {
        ProductNonNegative(-u, v);
      } else {
        ProductNonNegative(u, -v);
      }
    }
  }

  /** `std::abs(x) < tol`, false for NaN. */
  predicate Within(x: Option<real>, tol: real) { x.Some? && Abs(x.value) < tol }

  /** A price function that never returns NaN. */
  ghost predicate Finite(f: PriceFn)
  {
    forall x :: f(x).Some?
  }

  // ---------------------------------------------------------------------
  // Bracket expansion
  // ---------------------------------------------------------------------

  /** How many times `hi` doubles at most. */
  const MaxDoublings: nat := 10

  function Pow2(n: nat): (p: real)
    ensures 1.0 <= p
  {
    if n == 0 then 1.0 else 2.0 * Pow2(n - 1)
  }

  datatype Expansion = Expansion(hi: real, fhi: Option<real>, doublings: nat)

  /**
   * The expansion loop from its `k`-th round: while fewer than ten rounds have
   * run and `f(lo) f(hi) > 0`, double `hi`. It stops early exactly when the
   * product is no longer positive (a sign change, a zero, or NaN).
   */
  function Expand(f: PriceFn, target: real, flo: Option<real>, hi: real, fhi: Option<real>, k: nat): Expansion
    requires k <= MaxDoublings
    decreases MaxDoublings - k
  {
    if k < MaxDoublings && TimesPositive(flo, fhi) then
      var h := hi * 2.0;
      var e := Expand(f, target, flo, h, Residual(f, target, h), k + 1);
      Expansion(e.hi, e.fhi, e.doublings + 1)
    else
      Expansion(hi, fhi, 0)
  }

  /**
   * The expansion runs at most ten rounds in all, stops early only once the
   * product is no longer positive, and ends with the last residual it computed.
   */
  lemma {:induction false} ExpandShape(f: PriceFn, target: real, flo: Option<real>, hi: real, fhi: Option<real>, k: nat)
    requires k <= MaxDoublings
    decreases MaxDoublings - k
    ensures var e := Expand(f, target, flo, hi, fhi, k);
      && k + e.doublings <= MaxDoublings
      && (k + e.doublings < MaxDoublings ==> !TimesPositive(flo, e.fhi))
      && (e.doublings == 0 ==> e.fhi == fhi && !(k < MaxDoublings && TimesPositive(flo, fhi)))
      && (e.doublings > 0 ==> e.fhi == Residual(f, target, e.hi))
  {
    if k < MaxDoublings && TimesPositive(flo, fhi) {
      var h := hi * 2.0;
      ExpandShape(f, target, flo, h, Residual(f, target, h), k + 1);
      ExpandUnfolds(f, target, flo, hi, fhi, k);
    }
  }

  /** A round that runs hands the doubled `hi` and its residual to the next round and counts itself. */
  lemma ExpandUnfolds(f: PriceFn, target: real, flo: Option<real>, hi: real, fhi: Option<real>, k: nat)
    requires k < MaxDoublings && TimesPositive(flo, fhi)
    ensures var h := hi * 2.0; var e := Expand(f, target, flo, h, Residual(f, target, h), k + 1);
      Expand(f, target, flo, hi, fhi, k) == Expansion(e.hi, e.fhi, e.doublings + 1)
  {}

  /** `x` doubled `n` times over. */
  function Doubled(x: real, n: nat): real
    decreases n
  {
    if n == 0 then x else Doubled(x * 2.0, n - 1)
  }

  /** Doubling `n` times is scaling by two to the `n`. */
  lemma {:induction false} DoubledIsPower(x: real, n: nat)
    ensures Doubled(x, n) == x * Pow2(n)
    decreases n
  {
    if n > 0 {
      DoubledIsPower(x * 2.0, n - 1);
      assert x * Pow2(n) == x * (2.0 * Pow2(n - 1));
    }
  }

  /** The expansion ends at `hi` doubled once per round it ran. */
  lemma {:induction false} ExpandEndsDoubled(f: PriceFn, target: real, flo: Option<real>, hi: real, fhi: Option<real>, k: nat)
    requires k <= MaxDoublings
    decreases MaxDoublings - k
    ensures var e := Expand(f, target, flo, hi, fhi, k); e.hi == Doubled(hi, e.doublings)
  {
    if k < MaxDoublings && TimesPositive(flo, fhi) {
      var h := hi * 2.0;
      ExpandEndsDoubled(f, target, flo, h, Residual(f, target, h), k + 1);
      var e := Expand(f, target, flo, h, Residual(f, target, h), k + 1);
      ExpandUnfolds(f, target, flo, hi, fhi, k);
      assert Doubled(hi, e.doublings + 1) == Doubled(h, e.doublings);
    }
  }

  // ---------------------------------------------------------------------
  // Secant and bisection iteration
  // ---------------------------------------------------------------------

  /** The end points and residuals `(a, fa)`, `(b, fb)`. */
  datatype Bracket = Bracket(a: real, fa: Option<real>, b: real, fb: Option<real>)

  /** `fa * fb <= 0` with both residuals finite: a sign change (or a root) between a and b. */
  predicate Bracketed(br: Bracket)
  {
    TimesNonPositive(br.fa, br.fb)
  }

  function Mid(br: Bracket): real
  {
    0.5 * (br.a + br.b)
  }

  /** The threshold below which the secant denominator counts as zero. */
  const FlatSlope: real := 0.00000000000001

  /**
   * The secant point through `(a, fa)` and `(b, fb)`, or the midpoint when
   * `|fb - fa| <= 1e-14` (or NaN), or when the secant point is not positive.
   */
  function SecantPoint(br: Bracket): (c: real)
    ensures 0.0 < c || c == Mid(br)
    ensures !SteepEnough(br) ==> c == Mid(br)
  {
    var c := if SteepEnough(br)
             then SecantStep(br.a, br.fa.value, br.b, br.fb.value)
             else Mid(br);
    if !(c > 0.0) then Mid(br) else c
  }

  /** The root of the line through `(a, fa)` and `(b, fb)`. */
  function SecantStep(a: real, fa: real, b: real, fb: real): real
    requires fb != fa
  {
    b - fb * (b - a) / (fb - fa)
  }

  /** `fb - fa`, NaN when either is. */
  function DiffOf(br: Bracket): Option<real>
  {
    if br.fa.Some? && br.fb.Some? then Some(br.fb.value - br.fa.value) else None
  }

  /** `std::abs(fb - fa) > 1e-14`, false for NaN. */
  predicate SteepEnough(br: Bracket)
  {
    DiffOf(br).Some? && Abs(DiffOf(br).value) > FlatSlope
  }

  /** Replace the end whose residual has the same sign as `fc`: `b` when `fa * fc <= 0`, else `a`. */
  function Keep(br: Bracket, c: real, fc: Option<real>): (next: Bracket)
    ensures next.a == br.a || next.b == br.b
  {
    if TimesNonPositive(br.fa, fc) then br.(b := c, fb := fc)
    else br.(a := c, fa := fc)
  }

  /**
   * Either update keeps a sign change when the new residual is finite: with
   * `fa fc <= 0` the new pair is `(fa, fc)`; with `fa fc > 0`, `fc` has the
   * sign of `fa`, so it is on the other side of zero from `fb`.
   */
  lemma KeepKeepsBracket(br: Bracket, c: real, fc: Option<real>)
    requires Bracketed(br) && fc.Some?
    ensures Bracketed(Keep(br, c, fc))
  {}

  /** `std::abs(b - a) < tol * (1.0 + std::abs(mid))`: the bisection stopping test. */
  predicate Narrow(br: Bracket, mid: real, tol: real)
  {
    Abs(br.b - br.a) < tol * (1.0 + Abs(mid))
  }

  datatype ExitKind = Converged | Narrowed | Exhausted

  /**
   * How the solver stopped: the value it returns, the way it stopped, the
   * bracket at that moment and the last bisection point.
   */
  datatype Exit = Exit(x: real, kind: ExitKind, last: Bracket, probe: real)

  datatype Outcome = Continue(next: Bracket) | Stop(exit: Exit)

  /**
   * Iteration `it` of the solver loop: a secant (or midpoint) probe that
   * stops at `|f(c)| < tol`, the bracket update, and on every fifth
   * iteration a bisection that stops when the bracket is narrower than
   * `tol (1 + |mid|)`.
   */
  function Iteration(f: PriceFn, target: real, br: Bracket, it: nat, tol: real): (o: Outcome)
    ensures o.Stop? && o.exit.kind == Converged ==> Within(Residual(f, target, o.exit.x), tol)
    ensures o.Stop? ==> o.exit.kind != Exhausted
    ensures o.Stop? && o.exit.kind == Narrowed ==>
              o.exit.x == Mid(o.exit.last) && Narrow(o.exit.last, o.exit.probe, tol)
  {
    var c := SecantPoint(br);
    var fc := Residual(f, target, c);
    if Within(fc, tol) then Stop(Exit(c, Converged, br, c))
    else
      var br1 := Keep(br, c, fc);
      if it % 5 == 0 then
        var mid := Mid(br1);
        var br2 := Keep(br1, mid, Residual(f, target, mid));
        if Narrow(br2, mid, tol) then Stop(Exit(Mid(br2), Narrowed, br2, mid))
        else Continue(br2)
      else Continue(br1)
  }

  /**
   * The solver loop from iteration `it` on. It returns a point whose residual
   * is below `tol`, or the midpoint of the current bracket, after a
   * bisection that made it narrower than `tol (1 + |mid|)` or after
   * `max_iter` iterations. With a finite price function a bracket that
   * starts with a sign change keeps it to the end.
   */
  function SolveFrom(f: PriceFn, target: real, br: Bracket, it: nat, maxIter: int, tol: real): (e: Exit)
    decreases maxIter - it
    ensures e.kind == Converged ==> Within(Residual(f, target, e.x), tol)
    ensures e.kind != Converged ==> e.x == Mid(e.last)
    ensures e.kind == Narrowed ==> Narrow(e.last, e.probe, tol)
    ensures maxIter <= it ==> e == Exit(Mid(br), Exhausted, br, Mid(br))
  {
    if maxIter <= it then Exit(Mid(br), Exhausted, br, Mid(br))
    else
      match Iteration(f, target, br, it, tol)
      case Stop(e) => e
      case Continue(next) => SolveFrom(f, target, next, it + 1, maxIter, tol)
  }

  /** With a finite price function, an iteration that goes on keeps the sign change, and so does a narrowed exit. */
  lemma IterationKeepsBracket(f: PriceFn, target: real, br: Bracket, it: nat, tol: real)
    requires Bracketed(br) && Finite(f)
    ensures var o := Iteration(f, target, br, it, tol);
            (o.Continue? ==> Bracketed(o.next)) && (o.Stop? && o.exit.kind == Narrowed ==> Bracketed(o.exit.last))
  {
    var c := SecantPoint(br);
    var fc := Residual(f, target, c);
    assert f(c).Some?;
    KeepKeepsBracket(br, c, fc);
    var br1 := Keep(br, c, fc);
    var mid := Mid(br1);
    assert f(mid).Some?;
    KeepKeepsBracket(br1, mid, Residual(f, target, mid));
  }

  /**
   * With a finite price function, a bracket that starts with a sign change
   * keeps it to the end: an exit that is not a converged point is the
   * midpoint of an interval on which the residual changes sign.
   */
  lemma {:induction false} SolveFromKeepsBracket(f: PriceFn, target: real, br: Bracket, it: nat, maxIter: int, tol: real)
    requires Bracketed(br) && Finite(f)
    ensures var e := SolveFrom(f, target, br, it, maxIter, tol);
            e.kind != Converged ==> Bracketed(e.last)
    decreases maxIter - it
  {
    if it < maxIter {
      IterationKeepsBracket(f, target, br, it, tol);
      match Iteration(f, target, br, it, tol)
      case Stop(e) =>
      case Continue(next) => SolveFromKeepsBracket(f, target, next, it + 1, maxIter, tol);
    }
  }

  /** The default arguments of `implied_vol`. */
  const DefaultLo: real := 0.000001
  const DefaultHi: real := 5.0
  const DefaultMaxIter: int := 100
  const DefaultTol: real := 0.00000001

  /**
   * `implied_vol` as a whole: NaN (None) when `f(lo)` or `f(hi)` is NaN, or
   * when ten doublings of `hi` find no bracket; otherwise the solver's exit.
   */
  function ImpliedVolExit(f: PriceFn, target: real, lo: real, hi: real, maxIter: int, tol: real): (r: Option<Exit>)
    ensures Residual(f, target, lo).None? || Residual(f, target, hi).None? ==> r.None?
  {
    var flo := Residual(f, target, lo);
    var fhi := Residual(f, target, hi);
    if flo.None? || fhi.None? then None
    else
      var e := if TimesPositive(flo, fhi) then Expand(f, target, flo, hi, fhi, 0) else Expansion(hi, fhi, 0);
      if TimesPositive(flo, e.fhi) then None
      else Some(SolveFrom(f, target, Bracket(lo, flo, e.hi, e.fhi), 0, maxIter, tol))
  }

  function ImpliedVolOf(f: PriceFn, target: real, lo: real, hi: real, maxIter: int, tol: real): Option<real>
  {
    match ImpliedVolExit(f, target, lo, hi, maxIter, tol)
    case None => None
    case Some(e) => Some(e.x)
  }

  /** `f(lo) f(x) > 0` at `x = hi, 2 hi, ..., 2^n hi`. */
  predicate PositiveOnDoublings(f: PriceFn, target: real, flo: Option<real>, hi: real, n: nat)
    decreases n
  {
    && TimesPositive(flo, Residual(f, target, hi))
    && (n > 0 ==> PositiveOnDoublings(f, target, flo, hi * 2.0, n - 1))
  }

  /**
   * From round `k` on, the expansion ends with `f(lo) f(hi) > 0` exactly when
   * the product is positive at `hi` and at every doubling of it up to round ten.
   */
  lemma {:induction false} ExpandFails(f: PriceFn, target: real, flo: Option<real>, hi: real, fhi: Option<real>, k: nat)
    requires k <= MaxDoublings && fhi == Residual(f, target, hi)
    ensures TimesPositive(flo, Expand(f, target, flo, hi, fhi, k).fhi) <==>
            PositiveOnDoublings(f, target, flo, hi, MaxDoublings - k)
    decreases MaxDoublings - k
  {
    if k < MaxDoublings && TimesPositive(flo, fhi) {
      var h := hi * 2.0;
      ExpandFails(f, target, flo, h, Residual(f, target, h), k + 1);
      var e := Expand(f, target, flo, h, Residual(f, target, h), k + 1);
      ExpandUnfolds(f, target, flo, hi, fhi, k);
      assert PositiveOnDoublings(f, target, flo, hi, MaxDoublings - k)
        == PositiveOnDoublings(f, target, flo, h, MaxDoublings - (k + 1));
    }
  }

  /**
   * `implied_vol` gives NaN exactly when `f(lo)` or `f(hi)` is NaN, or when
   * `f(lo) f(2^j hi) > 0` for every `j` from 0 to 10: a root is looked for
   * only where a sign change (or a zero) was found.
   */
  lemma ImpliedVolNanIff(f: PriceFn, target: real, lo: real, hi: real, maxIter: int, tol: real)
    ensures ImpliedVolOf(f, target, lo, hi, maxIter, tol).None? <==>
            || Residual(f, target, lo).None? || Residual(f, target, hi).None?
            || PositiveOnDoublings(f, target, Residual(f, target, lo), hi, MaxDoublings)
  {
    var flo := Residual(f, target, lo);
    var fhi := Residual(f, target, hi);
    ExpandFails(f, target, flo, hi, fhi, 0);
  }

  /**
   * What `implied_vol` returns when it returns a number: a point whose
   * residual is below `tol`, or the midpoint of the final bracket; with a
   * finite price function that bracket still holds a sign change of the
   * residual.
   */
  lemma ImpliedVolSound(f: PriceFn, target: real, lo: real, hi: real, maxIter: int, tol: real)
    requires ImpliedVolExit(f, target, lo, hi, maxIter, tol).Some?
    ensures var e := ImpliedVolExit(f, target, lo, hi, maxIter, tol).value;
            && (e.kind == Converged ==> Within(Residual(f, target, e.x), tol))
            && (e.kind != Converged ==> e.x == Mid(e.last) && (Finite(f) ==> Bracketed(e.last)))
  {
    var flo := Residual(f, target, lo);
    var fhi := Residual(f, target, hi);
    var e := if TimesPositive(flo, fhi) then Expand(f, target, flo, hi, fhi, 0) else Expansion(hi, fhi, 0);
    if Finite(f) {
      assert f(e.hi).Some?;
      SolveFromKeepsBracket(f, target, Bracket(lo, flo, e.hi, e.fhi), 0, maxIter, tol);
    }
  }

  /**
   * `implied_vol`, step by step: the expansion loop and the solver loop with
   * their early returns. The result is the specification's.
   */
  method ImpliedVol(targetPrice: real, priceFn: PriceFn, lo: real, hi0: real, maxIter: int, tol: real)
    returns (r: Option<real>)
    ensures r == ImpliedVolOf(priceFn, targetPrice, lo, hi0, maxIter, tol)
  {
    var fLo := Residual(priceFn, targetPrice, lo);
    var fHi0 := Residual(priceFn, targetPrice, hi0);
    if fLo.None? || fHi0.None? {
      return None;
    }
    var hi, fHi := hi0, fHi0;
    if TimesPositive(fLo, fHi) {
      hi, fHi := ExpandHi(targetPrice, priceFn, fLo, hi0, fHi0);
      if TimesPositive(fLo, fHi) {
        return None;
      }
    }
    var x := Solve(targetPrice, priceFn, lo, fLo, hi, fHi, maxIter, tol);
    return Some(x);
  }

  /** The expansion loop: double `hi` while fewer than ten rounds have run and `f(lo) f(hi) > 0`. */
  method ExpandHi(targetPrice: real, priceFn: PriceFn, fLo: Option<real>, hi0: real, fHi0: Option<real>)
    returns (hi: real, fHi: Option<real>)
    ensures var e := Expand(priceFn, targetPrice, fLo, hi0, fHi0, 0); hi == e.hi && fHi == e.fhi
  {
    ghost var expansion := Expand(priceFn, targetPrice, fLo, hi0, fHi0, 0);
    hi, fHi := hi0, fHi0;
    var k: nat := 0;
    while k < 10 && TimesPositive(fLo, fHi)
      invariant 0 <= k <= 10
      invariant Expand(priceFn, targetPrice, fLo, hi, fHi, k).hi == expansion.hi
      invariant Expand(priceFn, targetPrice, fLo, hi, fHi, k).fhi == expansion.fhi
      invariant Expand(priceFn, targetPrice, fLo, hi, fHi, k).doublings + k == expansion.doublings
    {
      ghost var hiBefore, fHiBefore := hi, fHi;
      hi := hi * 2.0;
      fHi := Residual(priceFn, targetPrice, hi);
      ExpandDoubles(priceFn, targetPrice, fLo, hiBefore, fHiBefore, k, hi, fHi, expansion);
      k := k + 1;
    }
    ExpandStops(priceFn, targetPrice, fLo, hi, fHi, k);
  }

  /** One round of the expansion: doubling `hi` leaves the end point and counts the round. */
  lemma ExpandDoubles(f: PriceFn, target: real, flo: Option<real>, hi: real, fhi: Option<real>, k: nat,
                      h: real, fh: Option<real>, e: Expansion)
    requires k < MaxDoublings && TimesPositive(flo, fhi)
    requires h == hi * 2.0 && fh == Residual(f, target, h)
    requires Expand(f, target, flo, hi, fhi, k).hi == e.hi
    requires Expand(f, target, flo, hi, fhi, k).fhi == e.fhi
    requires Expand(f, target, flo, hi, fhi, k).doublings + k == e.doublings
    ensures Expand(f, target, flo, h, fh, k + 1).hi == e.hi
    ensures Expand(f, target, flo, h, fh, k + 1).fhi == e.fhi
    ensures Expand(f, target, flo, h, fh, k + 1).doublings + (k + 1) == e.doublings
  {
    ExpandUnfolds(f, target, flo, hi, fhi, k);
  }

  /** The expansion ends where the loop does, with no further doubling. */
  lemma ExpandStops(f: PriceFn, target: real, flo: Option<real>, hi: real, fhi: Option<real>, k: nat)
    requires k <= MaxDoublings && !(k < MaxDoublings && TimesPositive(flo, fhi))
    ensures Expand(f, target, flo, hi, fhi, k) == Expansion(hi, fhi, 0)
  {}

  /** The solver loop on the bracket `[lo, hi]`: it returns the exit point of `SolveFrom`. */
  method Solve(targetPrice: real, priceFn: PriceFn, lo: real, fLo: Option<real>, hi: real, fHi: Option<real>,
               maxIter: int, tol: real)
    returns (x: real)
    ensures x == SolveFrom(priceFn, targetPrice, Bracket(lo, fLo, hi, fHi), 0, maxIter, tol).x
  {
    var a, b, fa, fb := lo, hi, fLo, fHi;
    ghost var exit := SolveFrom(priceFn, targetPrice, Bracket(a, fa, b, fb), 0, maxIter, tol);
    var it := 0;
    while it < maxIter
      invariant 0 <= it
      invariant SolveFrom(priceFn, targetPrice, Bracket(a, fa, b, fb), it, maxIter, tol) == exit
    {
      var stop;
      stop, x, a, fa, b, fb := Step(targetPrice, priceFn, a, fa, b, fb, it, tol);
      if stop {
        return x;
      }
      it := it + 1;
    }
    return 0.5 * (a + b);
  }

  /**
   * One pass of the solver loop's body: `stop` when it returns `x`, otherwise
   * the new bracket.
   */
  method Step(targetPrice: real, priceFn: PriceFn, a0: real, fa0: Option<real>, b0: real, fb0: Option<real>,
              it: nat, tol: real)
    returns (stop: bool, x: real, a: real, fa: Option<real>, b: real, fb: Option<real>)
    ensures var o := Iteration(priceFn, targetPrice, Bracket(a0, fa0, b0, fb0), it, tol);
            if stop then o.Stop? && o.exit.x == x else o == Continue(Bracket(a, fa, b, fb))
  {
    ghost var br := Bracket(a0, fa0, b0, fb0);
    ghost var o := Iteration(priceFn, targetPrice, br, it, tol);
    a, fa, b, fb := a0, fa0, b0, fb0;
    var c := if SteepEnough(Bracket(a, fa, b, fb)) then SecantStep(a, fa.value, b, fb.value) else 0.5 * (a + b);
    if !(c > 0.0) {
      c := 0.5 * (a + b);
    }
    assert c == SecantPoint(br);
    var fc := Residual(priceFn, targetPrice, c);
    if Within(fc, tol) {
      return true, c, a, fa, b, fb;
    }
    if TimesNonPositive(fa, fc) {
      b, fb := c, fc;
    } else {
      a, fa := c, fc;
    }
    ghost var br1 := Bracket(a, fa, b, fb);
    assert br1 == Keep(br, c, fc);
    if it % 5 == 0 {
      var mid := 0.5 * (a + b);
      assert mid == Mid(br1);
      var fm := Residual(priceFn, targetPrice, mid);
      if TimesNonPositive(fa, fm) {
        b, fb := mid, fm;
      } else {
        a, fa := mid, fm;
      }
      assert Bracket(a, fa, b, fb) == Keep(br1, mid, fm);
      if Narrow(Bracket(a, fa, b, fb), mid, tol) {
        return true, 0.5 * (a + b), a, fa, b, fb;
      }
    }
    return false, c, a, fa, b, fb;
  }
}
