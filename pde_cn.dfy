/**
 * `src/pde_cn.cpp`: the Crank–Nicolson finite-difference pricer of a
 * European call or put. The spot axis [0, 3K] has `N` steps and the time axis
 * [0, T] has `M` steps. The values start at the payoff. Each backward step
 * solves the tridiagonal system `A V_new = B V_old` on the interior nodes by
 * the Thomas algorithm, and then writes the Dirichlet boundary values. The
 * price is read off the final values by linear interpolation.
 *
 * A division by a zero pivot in the sweep gives an infinity or a NaN in IEEE
 * arithmetic. The model does not follow those values: a step that would
 * divide by zero gives `None`, and so does the price.
 */
module PdeCn {
  import opened Numerics
  import opened OptionTypes

  /** The inputs of `pde_crank_nicolson` other than the spot `S0`. */
  datatype CnProblem = CnProblem(K: real, r: real, T: real, sigma: real,
                                 N: int, M: int, kind: OptionType)

  /**
   * Inputs the solver can run on. There must be at least one spot step, since
   * node N - 1 is written. The strike must be non-zero, since the spot step
   * `3K / N` is a divisor.
   */
  predicate Runs(p: CnProblem)
  {
    1 <= p.N && p.K != 0.0
  }

  /** The top of the spot axis. */
  function SMax(p: CnProblem): real
  {
    3.0 * p.K
  }

  function SpotStep(p: CnProblem): (dS: real)
    requires Runs(p)
    ensures dS != 0.0
  {
    SMax(p) / p.N as real
  }

  /**
   * `T / M`. With `M == 0` the source divides by zero, but then no time step
   * runs and the quotient is never used; the model takes 0 there.
   */
  function TimeStep(p: CnProblem): real
  {
    if p.M == 0 then 0.0 else p.T / p.M as real
  }

  /** The spot at node `i`. */
  function Node(p: CnProblem, i: int): real
    requires Runs(p)
  {
    i as real * SpotStep(p)
  }

  /** The grid runs from 0 to 3K, and it rises node by node for a positive strike. */
  lemma GridSpansZeroToSMax(p: CnProblem, i: int)
    requires Runs(p)
    ensures Node(p, 0) == 0.0 && Node(p, p.N) == SMax(p)
    ensures 0.0 < p.K ==> Node(p, i) < Node(p, i + 1)
  {
    assert Node(p, i + 1) == Node(p, i) + SpotStep(p);
  }

  // ---------------------------------------------------------------------
  // Coefficients
  // ---------------------------------------------------------------------

  /** `sigma^2 i^2`, the diffusion weight at node `i`. */
  function Diffusion(p: CnProblem, i: int): real
  {
    p.sigma * p.sigma * (i as real) * (i as real)
  }

  /** `a[i]`, set on the interior nodes only; the other entries stay 0. */
  function CoefA(p: CnProblem, i: int): real
  {
    if 1 <= i < p.N then 0.25 * TimeStep(p) * (Diffusion(p, i) - p.r * i as real) else 0.0
  }

  /** `b[i]`, set on the interior nodes only. */
  function CoefB(p: CnProblem, i: int): real
  {
    if 1 <= i < p.N then 1.0 + 0.5 * TimeStep(p) * (Diffusion(p, i) + p.r) else 0.0
  }

  /** `c[i]`, set on the interior nodes only. */
  function CoefC(p: CnProblem, i: int): real
  {
    if 1 <= i < p.N then 0.25 * TimeStep(p) * (-Diffusion(p, i) - p.r * i as real) else 0.0
  }

  /** The three coefficient vectors `a`, `b`, `c` of the scheme, each with one entry per node. */
  datatype Bands = Bands(a: seq<real>, b: seq<real>, c: seq<real>)

  predicate Fits(co: Bands, len: int)
  {
    |co.a| == len && |co.b| == len && |co.c| == len
  }

  /** The coefficient vectors the solver fills in. */
  function Coefficients(p: CnProblem): (co: Bands)
    requires 0 <= p.N
    ensures Fits(co, p.N + 1)
  {
    Bands(seq(p.N + 1, i => CoefA(p, i)), seq(p.N + 1, i => CoefB(p, i)), seq(p.N + 1, i => CoefC(p, i)))
  }

  /** Row `i` of `B V` with `B = tridiag(a, 2 - b, -c)`: the explicit half of a step. */
  function ExplicitRow(co: Bands, V: seq<real>, i: int): real
    requires Fits(co, |V|) && 1 <= i && i + 1 < |V|
  {
    co.a[i] * V[i - 1] + (2.0 - co.b[i]) * V[i] - co.c[i] * V[i + 1]
  }

  /** Row `i` of `A V` with `A = tridiag(-a, b, c)`: the implicit half of a step. */
  function ImplicitRow(co: Bands, V: seq<real>, i: int): real
    requires Fits(co, |V|) && 1 <= i && i + 1 < |V|
  {
    -co.a[i] * V[i - 1] + co.b[i] * V[i] + co.c[i] * V[i + 1]
  }

  /**
   * The two halves of the scheme on a constant vector: `B` scales it by
   * `1 - r dt / 2` and `A` by `1 + r dt / 2`. This is the Crank–Nicolson
   * discount over one step.
   */
  lemma ConstantRows(p: CnProblem, i: int)
    requires 1 <= i < p.N
    ensures CoefA(p, i) + (2.0 - CoefB(p, i)) - CoefC(p, i) == 1.0 - 0.5 * p.r * TimeStep(p)
    ensures -CoefA(p, i) + CoefB(p, i) + CoefC(p, i) == 1.0 + 0.5 * p.r * TimeStep(p)
  {
  }

  // ---------------------------------------------------------------------
  // The Thomas algorithm on rows 1..n
  // ---------------------------------------------------------------------

  /** `x / y`, with 0 where `y` is 0 (such values are never used for a result). */
  function Ratio(x: real, y: real): real
  {
    if y == 0.0 then 0.0 else x / y
  }

  /** A tridiagonal system: three coefficient vectors of one length. */
  predicate Tridiagonal(sub: seq<real>, diag: seq<real>, sup: seq<real>)
  {
    |sub| == |diag| && |sup| == |diag|
  }

  /** `diag[i]` after forward elimination: the pivot of row `i`. */
  function Pivot(sub: seq<real>, diag: seq<real>, sup: seq<real>, i: int): real
    requires Tridiagonal(sub, diag, sup) && 1 <= i < |diag|
    decreases i, 1
  {
    if i == 1 then diag[1] else diag[i] - Multiplier(sub, diag, sup, i) * sup[i - 1]
  }

  /** `m = sub[i] / diag[i-1]`, the multiple of row i - 1 that elimination takes from row i. */
  function Multiplier(sub: seq<real>, diag: seq<real>, sup: seq<real>, i: int): real
    requires Tridiagonal(sub, diag, sup) && 2 <= i < |diag|
    decreases i - 1, 2
  {
    Ratio(sub[i], Pivot(sub, diag, sup, i - 1))
  }

  /** `d_prime[i]` after forward elimination. */
  function Reduced(sub: seq<real>, diag: seq<real>, sup: seq<real>, rhs: seq<real>, i: int): real
    requires Tridiagonal(sub, diag, sup) && |rhs| == |diag| && 1 <= i < |diag|
  {
    if i == 1 then rhs[1]
    else rhs[i] - Multiplier(sub, diag, sup, i) * Reduced(sub, diag, sup, rhs, i - 1)
  }

  /** No pivot of rows 1..n is zero, so the sweep never divides by zero. */
  predicate NonSingular(sub: seq<real>, diag: seq<real>, sup: seq<real>, n: nat)
    requires Tridiagonal(sub, diag, sup) && n < |diag|
  {
    forall i :: 1 <= i <= n ==> Pivot(sub, diag, sup, i) != 0.0
  }

  /** Back-substitution: `x[i] = (d'[i] - sup[i] x[i+1]) / P[i]`, from row n up. */
  function Solution(sub: seq<real>, diag: seq<real>, sup: seq<real>, rhs: seq<real>, n: nat, i: int): real
    requires Tridiagonal(sub, diag, sup) && |rhs| == |diag| && 1 <= i <= n < |diag|
    decreases n - i, 1
  {
    Ratio(Reduced(sub, diag, sup, rhs, i) - Coupling(sub, diag, sup, rhs, n, i), Pivot(sub, diag, sup, i))
  }

  /** `sup[i] V[i+1]`, the term of row `i` on the next unknown; none in the last row. */
  function Coupling(sub: seq<real>, diag: seq<real>, sup: seq<real>, rhs: seq<real>, n: nat, i: int): real
    requires Tridiagonal(sub, diag, sup) && |rhs| == |diag| && 1 <= i <= n < |diag|
    decreases n - i, 0
  {
    if i < n then sup[i] * Solution(sub, diag, sup, rhs, n, i + 1) else 0.0
  }

  /** The pivots of rows 0..|diag|-1; row 0 is never touched. */
  function Pivots(sub: seq<real>, diag: seq<real>, sup: seq<real>): (P: seq<real>)
    requires Tridiagonal(sub, diag, sup)
    ensures |P| == |diag|
  {
    seq(|diag|, i requires 0 <= i < |diag| => if 1 <= i then Pivot(sub, diag, sup, i) else diag[i])
  }

  /** `d_prime` after forward elimination; row 0 is never touched. */
  function Reductions(sub: seq<real>, diag: seq<real>, sup: seq<real>, rhs: seq<real>): (D: seq<real>)
    requires Tridiagonal(sub, diag, sup) && |rhs| == |diag|
    ensures |D| == |diag|
  {
    seq(|diag|, i requires 0 <= i < |diag| => if 1 <= i then Reduced(sub, diag, sup, rhs, i) else rhs[i])
  }

  /** Row `i` of the tridiagonal system holds for `X`; row 1 has no sub-diagonal term and row n no super-diagonal one. */
  ghost predicate RowHolds(sub: seq<real>, diag: seq<real>, sup: seq<real>, rhs: seq<real>,
                           X: seq<real>, n: nat, i: int)
    requires Tridiagonal(sub, diag, sup) && |rhs| == |diag| && |X| == |diag| && 1 <= i <= n < |diag|
  {
    (if 1 < i then sub[i] * X[i - 1] else 0.0) + diag[i] * X[i] + (if i < n then sup[i] * X[i + 1] else 0.0)
      == rhs[i]
  }

  lemma PivotsAt(sub: seq<real>, diag: seq<real>, sup: seq<real>, rhs: seq<real>, i: int)
    requires Tridiagonal(sub, diag, sup) && |rhs| == |diag| && 2 <= i < |diag|
    ensures Pivots(sub, diag, sup)[i]
            == diag[i] - Ratio(sub[i], Pivots(sub, diag, sup)[i - 1]) * sup[i - 1]
    ensures Reductions(sub, diag, sup, rhs)[i]
            == rhs[i] - Ratio(sub[i], Pivots(sub, diag, sup)[i - 1]) * Reductions(sub, diag, sup, rhs)[i - 1]
  {
    var P, D := Pivots(sub, diag, sup), Reductions(sub, diag, sup, rhs);
    var p, p', d, d' := Pivot(sub, diag, sup, i), Pivot(sub, diag, sup, i - 1),
                        Reduced(sub, diag, sup, rhs, i), Reduced(sub, diag, sup, rhs, i - 1);
    assert P[i] == p && P[i - 1] == p' && D[i] == d && D[i - 1] == d';
    EliminationStep(sub, diag, sup, rhs, i);
  }

  /** One unfolding of each recurrence. */
  lemma EliminationStep(sub: seq<real>, diag: seq<real>, sup: seq<real>, rhs: seq<real>, i: int)
    requires Tridiagonal(sub, diag, sup) && |rhs| == |diag| && 2 <= i < |diag|
    ensures Pivot(sub, diag, sup, i) == diag[i] - Ratio(sub[i], Pivot(sub, diag, sup, i - 1)) * sup[i - 1]
    ensures Reduced(sub, diag, sup, rhs, i)
            == rhs[i] - Ratio(sub[i], Pivot(sub, diag, sup, i - 1)) * Reduced(sub, diag, sup, rhs, i - 1)
  {}

  /** `EliminationStep` with the multiplier and the entries the sweep reads given as values. */
  lemma EliminationWith(sub: seq<real>, diag: seq<real>, sup: seq<real>, rhs: seq<real>, i: int,
                        m: real, s: real, x: real, y: real, y': real)
    requires Tridiagonal(sub, diag, sup) && |rhs| == |diag| && 2 <= i < |diag|
    requires m == Ratio(sub[i], Pivot(sub, diag, sup, i - 1))
    requires s == sup[i - 1] && x == diag[i] && y == rhs[i] && y' == Reduced(sub, diag, sup, rhs, i - 1)
    ensures Pivot(sub, diag, sup, i) == x - m * s && Reduced(sub, diag, sup, rhs, i) == y - m * y'
  {
    EliminationStep(sub, diag, sup, rhs, i);
  }

  /** The solution values as a vector, 0 outside rows 1..n. */
  function Solutions(sub: seq<real>, diag: seq<real>, sup: seq<real>, rhs: seq<real>, n: nat): (X: seq<real>)
    requires Tridiagonal(sub, diag, sup) && |rhs| == |diag| && n < |diag|
    ensures |X| == |diag|
  {
    seq(|diag|, i requires 0 <= i < |diag| => if 1 <= i <= n then Solution(sub, diag, sup, rhs, n, i) else 0.0)
  }

  lemma SolutionsAt(sub: seq<real>, diag: seq<real>, sup: seq<real>, rhs: seq<real>, n: nat, i: int)
    requires Tridiagonal(sub, diag, sup) && |rhs| == |diag| && 1 <= i <= n < |diag|
    ensures var P, D, X := Pivots(sub, diag, sup), Reductions(sub, diag, sup, rhs), Solutions(sub, diag, sup, rhs, n);
            X[i] == Ratio(D[i] - (if i < n then sup[i] * X[i + 1] else 0.0), P[i])
  {
    var P, D, X := Pivots(sub, diag, sup), Reductions(sub, diag, sup, rhs), Solutions(sub, diag, sup, rhs, n);
    assert X[i] == Solution(sub, diag, sup, rhs, n, i);
    assert P[i] == Pivot(sub, diag, sup, i) && D[i] == Reduced(sub, diag, sup, rhs, i);
    if i < n {
      assert X[i + 1] == Solution(sub, diag, sup, rhs, n, i + 1);
    }
    BackStep(sub, diag, sup, rhs, n, i);
  }

  /** `SolutionsAt` for row `i - 1`, stated in terms of row `i`. */
  lemma SolutionsBelow(sub: seq<real>, diag: seq<real>, sup: seq<real>, rhs: seq<real>, n: nat, i: int)
    requires Tridiagonal(sub, diag, sup) && |rhs| == |diag| && 2 <= i <= n < |diag|
    ensures var P, D, X := Pivots(sub, diag, sup), Reductions(sub, diag, sup, rhs), Solutions(sub, diag, sup, rhs, n);
            X[i - 1] == Ratio(D[i - 1] - sup[i - 1] * X[i], P[i - 1])
  {
    var P, D, X := Pivots(sub, diag, sup), Reductions(sub, diag, sup, rhs), Solutions(sub, diag, sup, rhs, n);
    assert X[i - 1] == Solution(sub, diag, sup, rhs, n, i - 1) && X[i] == Solution(sub, diag, sup, rhs, n, i);
    assert P[i - 1] == Pivot(sub, diag, sup, i - 1) && D[i - 1] == Reduced(sub, diag, sup, rhs, i - 1);
    BackStepBelow(sub, diag, sup, rhs, n, i);
  }

  /** One unfolding of the back-substitution at row `i - 1`. */
  lemma BackStepBelow(sub: seq<real>, diag: seq<real>, sup: seq<real>, rhs: seq<real>, n: nat, i: int)
    requires Tridiagonal(sub, diag, sup) && |rhs| == |diag| && 2 <= i <= n < |diag|
    ensures Solution(sub, diag, sup, rhs, n, i - 1)
            == Ratio(Reduced(sub, diag, sup, rhs, i - 1) - sup[i - 1] * Solution(sub, diag, sup, rhs, n, i),
                     Pivot(sub, diag, sup, i - 1))
  {
    var t := Coupling(sub, diag, sup, rhs, n, i - 1);
    assert t == sup[i - 1] * Solution(sub, diag, sup, rhs, n, i);
    assert Solution(sub, diag, sup, rhs, n, i - 1)
           == Ratio(Reduced(sub, diag, sup, rhs, i - 1) - t, Pivot(sub, diag, sup, i - 1));
  }

  /** One unfolding of the back-substitution. */
  lemma BackStep(sub: seq<real>, diag: seq<real>, sup: seq<real>, rhs: seq<real>, n: nat, i: int)
    requires Tridiagonal(sub, diag, sup) && |rhs| == |diag| && 1 <= i <= n < |diag|
    ensures Solution(sub, diag, sup, rhs, n, i)
            == Ratio(Reduced(sub, diag, sup, rhs, i)
                     - (if i < n then sup[i] * Solution(sub, diag, sup, rhs, n, i + 1) else 0.0),
                     Pivot(sub, diag, sup, i))
  {
    var t := Coupling(sub, diag, sup, rhs, n, i);
    assert t == (if i < n then sup[i] * Solution(sub, diag, sup, rhs, n, i + 1) else 0.0);
    assert Solution(sub, diag, sup, rhs, n, i) == Ratio(Reduced(sub, diag, sup, rhs, i) - t, Pivot(sub, diag, sup, i));
  }

  /** Back-substitution in one row: `x = (q - t) / P` solves `P x + t = q`. */
  lemma BackRow(P: real, x: real, q: real, t: real)
    requires P != 0.0 && x == Ratio(q - t, P)
    ensures P * x + t == q
  {}

  lemma RatioCancels(s: real, P: real)
    requires P != 0.0
    ensures P * Ratio(s, P) == s
  {}

  /**
   * Elimination in one row: with `f = sub / P'`, row i - 1 of the upper
   * system times `f` plus row i of it gives row i of the original system.
   */
  lemma CombineRows(f: real, P': real, x: real, y: real, z: real,
                    s: real, d: real, u: real, r': real, rh: real, P: real, q: real)
    requires P' * f == s
    requires P' * x + u * y == r'
    requires P * y + z == q && P == d - f * u && q == rh - f * r'
    ensures s * x + d * y + z == rh
  {
    calc {
      s * x + d * y + z;
      f * (P' * x) + d * y + z;
      f * (r' - u * y) + d * y + z;
      f * r' + (d - f * u) * y + z;
      rh;
    }
  }

  /** Row i of the system from the elimination and back-substitution steps at rows i - 1 and i. */
  lemma RowFromSteps(sub: seq<real>, diag: seq<real>, sup: seq<real>, rhs: seq<real>,
                     P: seq<real>, D: seq<real>, X: seq<real>, n: nat, i: int)
    requires Tridiagonal(sub, diag, sup) && |rhs| == |diag| && |P| == |diag| && |D| == |diag| && |X| == |diag|
    requires 1 <= i <= n < |diag|
    requires P[i] != 0.0 && X[i] == Ratio(D[i] - (if i < n then sup[i] * X[i + 1] else 0.0), P[i])
    requires i == 1 ==> P[1] == diag[1] && D[1] == rhs[1]
    requires 1 < i ==> P[i - 1] != 0.0 && X[i - 1] == Ratio(D[i - 1] - sup[i - 1] * X[i], P[i - 1])
    requires 1 < i ==> P[i] == diag[i] - Ratio(sub[i], P[i - 1]) * sup[i - 1]
    requires 1 < i ==> D[i] == rhs[i] - Ratio(sub[i], P[i - 1]) * D[i - 1]
    ensures RowHolds(sub, diag, sup, rhs, X, n, i)
  {
    var z := if i < n then sup[i] * X[i + 1] else 0.0;
    BackRow(P[i], X[i], D[i], z);
    if 1 < i {
      BackRow(P[i - 1], X[i - 1], D[i - 1], sup[i - 1] * X[i]);
      RatioCancels(sub[i], P[i - 1]);
      CombineRows(Ratio(sub[i], P[i - 1]), P[i - 1], X[i - 1], X[i], z,
                  sub[i], diag[i], sup[i - 1], D[i - 1], rhs[i], P[i], D[i]);
    }
  }

  /**
   * The Thomas algorithm solves the system: when no pivot of rows 1..n is
   * zero, the values back-substitution leaves satisfy every row 1..n.
   */
  lemma ThomasSolves(sub: seq<real>, diag: seq<real>, sup: seq<real>, rhs: seq<real>, n: nat, i: int)
    requires Tridiagonal(sub, diag, sup) && |rhs| == |diag| && 1 <= i <= n < |diag|
    requires NonSingular(sub, diag, sup, n)
    ensures RowHolds(sub, diag, sup, rhs, Solutions(sub, diag, sup, rhs, n), n, i)
  {
    var P, D, X := Pivots(sub, diag, sup), Reductions(sub, diag, sup, rhs), Solutions(sub, diag, sup, rhs, n);
    assert P[i] == Pivot(sub, diag, sup, i);
    SolutionsAt(sub, diag, sup, rhs, n, i);
    if 1 < i {
      assert P[i - 1] == Pivot(sub, diag, sup, i - 1);
      SolutionsBelow(sub, diag, sup, rhs, n, i);
      PivotsAt(sub, diag, sup, rhs, i);
    } else {
      assert P[1] == diag[1] && D[1] == rhs[1];
    }
    RowFromSteps(sub, diag, sup, rhs, P, D, X, n, i);
  }

  // ---------------------------------------------------------------------
  // One backward time step
  // ---------------------------------------------------------------------

  /** `K e^{-r (T - t)}`: the strike discounted from expiry back to time `t`. */
  function DiscountedStrike(m: Math, p: CnProblem, t: real): (d: real)
    ensures 0.0 < p.K && 0.0 <= p.r && t <= p.T ==> 0.0 < d <= p.K
  {
    var x := -p.r * (p.T - t);
    DecayExponent(p.r, p.T - t);
    ExpSign(m, x);
    DiscountBelowStrike(p.K, m.exp(x));
    p.K * m.exp(x)
  }

  /** Discounting at a non-negative rate over a non-negative time has a non-positive exponent. */
  lemma DecayExponent(r: real, u: real)
    ensures 0.0 <= r && 0.0 <= u ==> -r * u <= 0.0
  {
    if 0.0 <= r && 0.0 <= u {
      ProductNonNegative(r, u);
    }
  }

  /** A positive strike times a discount factor in (0, 1] lies in (0, K]. */
  lemma DiscountBelowStrike(K: real, g: real)
    requires 0.0 < g
    ensures 0.0 < K && g <= 1.0 ==> 0.0 < K * g <= K
  {
    if 0.0 < K && g <= 1.0 {
      ScalePositive(K, g);
      ScaleNonNegative(K, 1.0 - g);
    }
  }

  /** The Dirichlet value at spot 0 and time `t`: 0 for a call, the discounted strike for a put. */
  function LowValue(m: Math, p: CnProblem, t: real): real
  {
    if p.kind == Call then 0.0 else DiscountedStrike(m, p, t)
  }

  /** The Dirichlet value at spot `3K` and time `t`: `3K - K e^{-r (T - t)}` for a call, 0 for a put. */
  function HighValue(m: Math, p: CnProblem, t: real): real
  {
    if p.kind == Call then SMax(p) - DiscountedStrike(m, p, t) else 0.0
  }

  /** `t_j = j dt`. */
  function StepTime(p: CnProblem, j: int): real
  {
    j as real * TimeStep(p)
  }

  /**
   * The sub-diagonal `-a` of `A`; its diagonal is `b` and its super-diagonal
   * `c`. The source writes the three on the interior rows only, which is the
   * same since the coefficients are 0 at both ends.
   */
  function SubDiagonal(co: Bands): (v: seq<real>)
    ensures |v| == |co.a|
  {
    seq(|co.a|, i requires 0 <= i < |co.a| => -co.a[i])
  }

  /** The right-hand side `B V` that the loop over the interior nodes builds; 0 at both ends. */
  function ExplicitRhs(co: Bands, V: seq<real>): (rhs: seq<real>)
    requires Fits(co, |V|)
    ensures |rhs| == |V|
  {
    seq(|V|, i requires 0 <= i < |V| => if 1 <= i < |V| - 1 then ExplicitRow(co, V, i) else 0.0)
  }

  /**
   * The right-hand side of the system for one step, with new boundary values
   * `lo` and `hi`. The row next to the boundary that is not zero also gets
   * the term of `A` on the new boundary value, moved over to the right:
   * `-c[N-1] hi` for a call, `+a[1] lo` for a put.
   */
  function StepRhs(co: Bands, V: seq<real>, lo: real, hi: real, kind: OptionType): (rhs: seq<real>)
    requires Fits(co, |V|) && 2 <= |V|
    ensures |rhs| == |V|
  {
    var rhs := ExplicitRhs(co, V);
    if kind == Call then rhs[|V| - 2 := rhs[|V| - 2] - co.c[|V| - 2] * hi]
    else rhs[1 := rhs[1] + co.a[1] * lo]
  }

  /**
   * Solve `A W = rhs` on rows 1..N-1 and put `lo` and `hi` at the two ends;
   * `None` when the sweep would divide by zero.
   */
  function SolveBands(co: Bands, rhs: seq<real>, lo: real, hi: real): (r: Option<seq<real>>)
    requires Fits(co, |rhs|) && 2 <= |rhs|
    ensures r.Some? ==> |r.value| == |rhs|
  {
    var n := |rhs| - 2;
    if !NonSingular(SubDiagonal(co), co.b, co.c, n) then None
    else Some(Solutions(SubDiagonal(co), co.b, co.c, rhs, n)[0 := lo][n + 1 := hi])
  }

  /** The values at `t_j` from the values `V` at `t_{j+1}`. */
  function Step(m: Math, p: CnProblem, V: seq<real>, j: int): (r: Option<seq<real>>)
    requires Runs(p) && |V| == p.N + 1
    ensures r.Some? ==> |r.value| == p.N + 1
  {
    var lo, hi := LowValue(m, p, StepTime(p, j)), HighValue(m, p, StepTime(p, j));
    SolveBands(Coefficients(p), StepRhs(Coefficients(p), V, lo, hi, p.kind), lo, hi)
  }

  /**
   * The Thomas solution with the boundary values `lo` at row 0 and `hi` at
   * row n + 1 satisfies every full row 1..n once the boundary columns are
   * moved to the right-hand side.
   */
  lemma SolvedRow(sub: seq<real>, diag: seq<real>, sup: seq<real>, rhs: seq<real>, n: nat, i: int,
                  lo: real, hi: real, W: seq<real>)
    requires Tridiagonal(sub, diag, sup) && |rhs| == |diag| && 1 <= i <= n && n + 1 < |diag|
    requires NonSingular(sub, diag, sup, n)
    requires W == Solutions(sub, diag, sup, rhs, n)[0 := lo][n + 1 := hi]
    ensures sub[i] * W[i - 1] + diag[i] * W[i] + sup[i] * W[i + 1]
            == rhs[i] + (if i == 1 then sub[1] * lo else 0.0) + (if i == n then sup[n] * hi else 0.0)
  {
    var X := Solutions(sub, diag, sup, rhs, n);
    ThomasSolves(sub, diag, sup, rhs, n, i);
    assert W[i] == X[i];
    if 1 < i {
      assert W[i - 1] == X[i - 1];
    }
    if i < n {
      assert W[i + 1] == X[i + 1];
    }
  }

  /** Row `i` of the banded system `A W = rhs` with the boundary columns moved to the right-hand side. */
  lemma SolvedBandRow(co: Bands, rhs: seq<real>, lo: real, hi: real, W: seq<real>, i: int)
    requires Fits(co, |rhs|) && 2 <= |rhs| && SolveBands(co, rhs, lo, hi) == Some(W)
    ensures W[0] == lo && W[|rhs| - 1] == hi
    ensures 1 <= i < |rhs| - 1 ==>
              var sub := SubDiagonal(co);
              sub[i] * W[i - 1] + co.b[i] * W[i] + co.c[i] * W[i + 1]
              == rhs[i] + (if i == 1 then sub[1] * lo else 0.0) + (if i == |rhs| - 2 then co.c[|rhs| - 2] * hi else 0.0)
  {
    if 1 <= i < |rhs| - 1 {
      SolvedRow(SubDiagonal(co), co.b, co.c, rhs, |rhs| - 2, i, lo, hi, W);
    }
  }

  /** A row written with the sub-diagonal `s = -a` is the same row written with `a`. */
  lemma NegatedSubDiagonal(s: real, a: real, s1: real, a1: real, b: real, c: real, cn: real,
                           x: real, y: real, z: real, r: real, lo: real, hi: real, first: bool, last: bool)
    requires s == -a && s1 == -a1
    requires s * x + b * y + c * z == r + (if first then s1 * lo else 0.0) + (if last then cn * hi else 0.0)
    ensures -a * x + b * y + c * z == r - (if first then a1 * lo else 0.0) + (if last then cn * hi else 0.0)
  {}

  /** Row `i` of the step's right-hand side: the explicit row less the moved boundary terms of `A`. */
  lemma StepRhsAt(co: Bands, V: seq<real>, lo: real, hi: real, kind: OptionType, i: int)
    requires Fits(co, |V|) && 1 <= i < |V| - 1
    requires kind == Call ==> lo == 0.0
    requires kind == Put ==> hi == 0.0
    ensures StepRhs(co, V, lo, hi, kind)[i]
            == ExplicitRow(co, V, i) + (if i == 1 then co.a[1] * lo else 0.0)
               - (if i == |V| - 2 then co.c[|V| - 2] * hi else 0.0) + 0.0
  {
  }

  /**
   * Moving the boundary terms to the right and back leaves row `i` of
   * `A W = B V`, up to an extra term `e` the right-hand side carried.
   */
  lemma RowFromSolved(co: Bands, V: seq<real>, W: seq<real>, rhs: seq<real>, i: int, lo: real, hi: real, e: real)
    requires Fits(co, |V|) && |W| == |V| && |rhs| == |V| && 1 <= i < |V| - 1
    requires W[0] == lo && W[|rhs| - 1] == hi
    requires var sub := SubDiagonal(co);
             sub[i] * W[i - 1] + co.b[i] * W[i] + co.c[i] * W[i + 1]
             == rhs[i] + (if i == 1 then sub[1] * lo else 0.0) + (if i == |rhs| - 2 then co.c[|rhs| - 2] * hi else 0.0)
    requires rhs[i] == ExplicitRow(co, V, i) + (if i == 1 then co.a[1] * lo else 0.0)
                       - (if i == |V| - 2 then co.c[|V| - 2] * hi else 0.0) + e
    ensures ImplicitRow(co, W, i) == ExplicitRow(co, V, i) + e
  {
    var sub := SubDiagonal(co);
    NegatedSubDiagonal(sub[i], co.a[i], sub[1], co.a[1], co.b[i], co.c[i], co.c[|rhs| - 2],
                       W[i - 1], W[i], W[i + 1], rhs[i], lo, hi, i == 1, i == |rhs| - 2);
  }

  /** Row `i` of `A W = B V + e` for the solution of a system whose right-hand side row `i` carries `e`. */
  lemma SolvedRowPlus(co: Bands, V: seq<real>, rhs: seq<real>, lo: real, hi: real, W: seq<real>, i: int, e: real)
    requires Fits(co, |V|) && |rhs| == |V| && 1 <= i < |V| - 1
    requires SolveBands(co, rhs, lo, hi) == Some(W)
    requires rhs[i] == ExplicitRow(co, V, i) + (if i == 1 then co.a[1] * lo else 0.0)
                       - (if i == |V| - 2 then co.c[|V| - 2] * hi else 0.0) + e
    ensures ImplicitRow(co, W, i) == ExplicitRow(co, V, i) + e
  {
    SolvedBandRow(co, rhs, lo, hi, W, i);
    RowFromSolved(co, V, W, rhs, i, lo, hi, e);
  }

  /**
   * A step with bands `co` is a Crank–Nicolson step with Dirichlet
   * boundaries: the new values are `lo` and `hi` at the two ends, and
   * `A W = B V` on every interior node, the boundary columns included.
   */
  lemma SolveBandsSolvesCn(co: Bands, V: seq<real>, lo: real, hi: real, kind: OptionType, W: seq<real>, i: int)
    requires Fits(co, |V|) && 2 <= |V|
    requires kind == Call ==> lo == 0.0
    requires kind == Put ==> hi == 0.0
    requires SolveBands(co, StepRhs(co, V, lo, hi, kind), lo, hi) == Some(W)
    ensures W[0] == lo && W[|V| - 1] == hi
    ensures 1 <= i < |V| - 1 ==> ImplicitRow(co, W, i) == ExplicitRow(co, V, i)
  {
    SolvedBandRow(co, StepRhs(co, V, lo, hi, kind), lo, hi, W, 0);
    if 1 <= i < |V| - 1 {
      StepRhsAt(co, V, lo, hi, kind, i);
      SolvedRowPlus(co, V, StepRhs(co, V, lo, hi, kind), lo, hi, W, i, 0.0);
    }
  }

  /**
   * A step of the solver is a Crank–Nicolson step: the new values take the
   * boundary values of time `t_j` at both ends, and on every interior node
   * `A W = B V`, the boundary columns included.
   */
  lemma StepSolvesCn(m: Math, p: CnProblem, V: seq<real>, j: int, W: seq<real>, i: int)
    requires Runs(p) && |V| == p.N + 1 && Step(m, p, V, j) == Some(W)
    ensures W[0] == LowValue(m, p, StepTime(p, j)) && W[p.N] == HighValue(m, p, StepTime(p, j))
    ensures 1 <= i < p.N ==> ImplicitRow(Coefficients(p), W, i) == ExplicitRow(Coefficients(p), V, i)
  {
    SolveBandsSolvesCn(Coefficients(p), V, LowValue(m, p, StepTime(p, j)), HighValue(m, p, StepTime(p, j)),
                       p.kind, W, i);
  }

  // ---------------------------------------------------------------------
  // The right-hand side as written
  // ---------------------------------------------------------------------

  /**
   * The right-hand side as `src/pde_cn.cpp` builds it. The explicit row
   * `N - 1` (call) or `1` (put) already holds the term of `B` on the old
   * boundary value, since `V[N]` or `V[0]` holds it; the source adds that
   * term a second time, `-c[N-1] hiNext` or `a[1] loNext`, before moving the
   * term of `A` on the new boundary over.
   */
  function AsWrittenRhs(co: Bands, V: seq<real>, loNext: real, hiNext: real, lo: real, hi: real,
                        kind: OptionType): (rhs: seq<real>)
    requires Fits(co, |V|) && 2 <= |V|
    ensures |rhs| == |V|
  {
    var rhs := ExplicitRhs(co, V);
    var N := |V| - 1;
    if kind == Call then rhs[N - 1 := rhs[N - 1] + -co.c[N - 1] * hiNext - co.c[N - 1] * hi]
    else rhs[1 := rhs[1] + co.a[1] * loNext + co.a[1] * lo]
  }

  /** The step as written. */
  function AsWrittenStep(m: Math, p: CnProblem, V: seq<real>, j: int): (r: Option<seq<real>>)
    requires Runs(p) && |V| == p.N + 1
    ensures r.Some? ==> |r.value| == p.N + 1
  {
    var t, tNext := StepTime(p, j), StepTime(p, j + 1);
    var lo, hi := LowValue(m, p, t), HighValue(m, p, t);
    var co := Coefficients(p);
    SolveBands(co, AsWrittenRhs(co, V, LowValue(m, p, tNext), HighValue(m, p, tNext), lo, hi, p.kind), lo, hi)
  }

  /**
   * What the step as written solves: on the row next to the live boundary
   * `A W` exceeds `B V` by the boundary term of `B` once more, `-c[N-1]`
   * times the old call boundary or `a[1]` times the old put boundary.
   */
  lemma AsWrittenCountsBoundaryTwice(co: Bands, V: seq<real>, loNext: real, hiNext: real, lo: real, hi: real,
                                     kind: OptionType, W: seq<real>, i: int)
    requires Fits(co, |V|) && 2 <= |V|
    requires kind == Call ==> lo == 0.0
    requires kind == Put ==> hi == 0.0
    requires SolveBands(co, AsWrittenRhs(co, V, loNext, hiNext, lo, hi, kind), lo, hi) == Some(W)
    requires 1 <= i < |V| - 1
    ensures ImplicitRow(co, W, i)
            == ExplicitRow(co, V, i)
               + ((if kind == Put && i == 1 then co.a[1] * loNext else 0.0)
                  - (if kind == Call && i == |V| - 2 then co.c[|V| - 2] * hiNext else 0.0))
  {
    AsWrittenRhsAt(co, V, loNext, hiNext, lo, hi, kind, i);
    SolvedRowPlus(co, V, AsWrittenRhs(co, V, loNext, hiNext, lo, hi, kind), lo, hi, W, i,
                  (if kind == Put && i == 1 then co.a[1] * loNext else 0.0)
                  - (if kind == Call && i == |V| - 2 then co.c[|V| - 2] * hiNext else 0.0));
  }

  /** Row `i` of the right-hand side as written: that of `StepRhs` plus the boundary term of `B` once more. */
  lemma AsWrittenRhsAt(co: Bands, V: seq<real>, loNext: real, hiNext: real, lo: real, hi: real,
                       kind: OptionType, i: int)
    requires Fits(co, |V|) && 1 <= i < |V| - 1
    requires kind == Call ==> lo == 0.0
    requires kind == Put ==> hi == 0.0
    ensures AsWrittenRhs(co, V, loNext, hiNext, lo, hi, kind)[i]
            == ExplicitRow(co, V, i) + (if i == 1 then co.a[1] * lo else 0.0)
               - (if i == |V| - 2 then co.c[|V| - 2] * hi else 0.0)
               + ((if kind == Put && i == 1 then co.a[1] * loNext else 0.0)
                  - (if kind == Call && i == |V| - 2 then co.c[|V| - 2] * hiNext else 0.0))
  {
  }

  /**
   * Whenever no pivot is zero and the old boundary term of `B` is not zero,
   * the step as written and the corrected step give different values.
   */
  lemma AsWrittenDiffersWhenBoundaryLive(co: Bands, V: seq<real>, loNext: real, hiNext: real, lo: real, hi: real,
                                         kind: OptionType)
    requires Fits(co, |V|) && 3 <= |V|
    requires kind == Call ==> lo == 0.0
    requires kind == Put ==> hi == 0.0
    requires NonSingular(SubDiagonal(co), co.b, co.c, |V| - 2)
    requires kind == Call ==> co.c[|V| - 2] * hiNext != 0.0
    requires kind == Put ==> co.a[1] * loNext != 0.0
    ensures SolveBands(co, AsWrittenRhs(co, V, loNext, hiNext, lo, hi, kind), lo, hi)
            != SolveBands(co, StepRhs(co, V, lo, hi, kind), lo, hi)
  {
    var U := SolveBands(co, AsWrittenRhs(co, V, loNext, hiNext, lo, hi, kind), lo, hi).value;
    var W := SolveBands(co, StepRhs(co, V, lo, hi, kind), lo, hi).value;
    var i := if kind == Call then |V| - 2 else 1;
    SolveBandsSolvesCn(co, V, lo, hi, kind, W, i);
    AsWrittenCountsBoundaryTwice(co, V, loNext, hiNext, lo, hi, kind, U, i);
    assert ImplicitRow(co, U, i) != ImplicitRow(co, W, i);
  }

  /** The call whose first step from the payoff shows the difference: `K = 100`, `r = 0`, `T = 1`, `sigma = 0.2`, `N = 2`, `M = 1`. */
  const Witness: CnProblem := CnProblem(100.0, 0.0, 1.0, 0.2, 2, 1, Call)

  /** The witness's one interior row: `b[1] = 1.02` and `c[1] = -0.01`, and the call boundary at `t_1 = T` is `300 - 100 e^0 = 200`. */
  lemma WitnessValues(m: Math)
    ensures Coefficients(Witness).b[1] == 1.02 && Coefficients(Witness).c[1] == -0.01
    ensures HighValue(m, Witness, StepTime(Witness, 1)) == 200.0 && LowValue(m, Witness, StepTime(Witness, 0)) == 0.0
  {
    ExpSign(m, 0.0);
    assert StepTime(Witness, 1) == 1.0 && -Witness.r * (Witness.T - 1.0) == 0.0;
  }

  /**
   * On the witness the step as written and the corrected step differ: row 1
   * of the step as written has `A W = B V + 2`, since `-c[1]` times the old
   * boundary value is `0.01 * 200`.
   */
  lemma AsWrittenStepDiffers(m: Math)
    ensures AsWrittenStep(m, Witness, Terminal(Witness), 0) != Step(m, Witness, Terminal(Witness), 0)
  {
    var co := Coefficients(Witness);
    WitnessValues(m);
    assert NonSingular(SubDiagonal(co), co.b, co.c, 1);
    AsWrittenDiffersWhenBoundaryLive(co, Terminal(Witness),
                                     LowValue(m, Witness, StepTime(Witness, 1)), HighValue(m, Witness, StepTime(Witness, 1)),
                                     LowValue(m, Witness, StepTime(Witness, 0)), HighValue(m, Witness, StepTime(Witness, 0)),
                                     Call);
  }

  // ---------------------------------------------------------------------
  // Marching back from expiry
  // ---------------------------------------------------------------------

  /** The values at expiry: the payoff at every node. */
  function Terminal(p: CnProblem): (V: seq<real>)
    requires Runs(p)
    ensures |V| == p.N + 1
  {
    seq(p.N + 1, i => Payoff(Node(p, i), p.K, p.kind))
  }

  /** `step` turns values of length `len` into values of length `len`, when it gives any. */
  ghost predicate KeepsLength(step: (seq<real>, int) -> Option<seq<real>>, len: int)
  {
    forall V: seq<real>, j: int :: |V| == len && step(V, j).Some? ==> |step(V, j).value| == len
  }

  /**
   * The time loop: the values `VT` at `t_M`, then `step(V, j)` for `j` from
   * `M - 1` down; `None` from the first step that gives none.
   */
  function March(step: (seq<real>, int) -> Option<seq<real>>, VT: seq<real>, M: int, j: int): (r: Option<seq<real>>)
    requires KeepsLength(step, |VT|)
    ensures r.Some? ==> |r.value| == |VT|
    decreases M - j
  {
    if M <= j then Some(VT)
    else match March(step, VT, M, j + 1)
      case None => None
      case Some(V) => step(V, j)
  }

  /** Once a step gives no values, every earlier time has none either. */
  lemma {:induction false} MarchStaysNone(step: (seq<real>, int) -> Option<seq<real>>, VT: seq<real>, M: int, j: int, k: int)
    requires KeepsLength(step, |VT|) && k <= j && March(step, VT, M, j) == None
    ensures March(step, VT, M, k) == None
    decreases j - k
  {
    if k < j {
      MarchStaysNone(step, VT, M, j, k + 1);
    }
  }

  /** Values before expiry come from values one step later, through `step`. */
  lemma MarchFromLater(step: (seq<real>, int) -> Option<seq<real>>, VT: seq<real>, M: int, j: int)
    requires KeepsLength(step, |VT|) && j < M && March(step, VT, M, j).Some?
    ensures March(step, VT, M, j + 1).Some?
    ensures step(March(step, VT, M, j + 1).value, j) == March(step, VT, M, j)
  {}

  /** One Crank-Nicolson step on values of the grid's length. */
  function CnStep(m: Math, p: CnProblem): (step: (seq<real>, int) -> Option<seq<real>>)
    requires Runs(p)
    ensures KeepsLength(step, p.N + 1)
  {
    (V: seq<real>, j: int) => if |V| == p.N + 1 then Step(m, p, V, j) else None
  }

  /** The values at `t_j`: the payoff at `t_M = T`, then one step at a time back to `t_j`. */
  function Backward(m: Math, p: CnProblem, j: int): (r: Option<seq<real>>)
    requires Runs(p)
    ensures r.Some? ==> |r.value| == p.N + 1
  {
    March(CnStep(m, p), Terminal(p), p.M, j)
  }

  /** The values at `t_j` are one step from those at `t_{j+1}`. */
  lemma BackwardStep(m: Math, p: CnProblem, j: int, V: seq<real>)
    requires Runs(p) && j < p.M && Backward(m, p, j + 1) == Some(V)
    ensures Backward(m, p, j) == Step(m, p, V, j)
  {
    assert |V| == p.N + 1;
    assert CnStep(m, p)(V, j) == Step(m, p, V, j);
  }

  /** With no step left to take the values are the payoff: at `t_M`, and at `t_0` when `M <= 0`. */
  lemma BackwardFrom(m: Math, p: CnProblem, j: int)
    requires Runs(p) && p.M <= j
    ensures Backward(m, p, j) == Some(Terminal(p))
    ensures p.M <= 0 ==> Backward(m, p, 0) == Some(Terminal(p))
  {}

  /** Once a step meets a zero pivot, there are no values at `t_0`. */
  lemma BackwardStaysNone(m: Math, p: CnProblem, j: int)
    requires Runs(p) && 0 <= j && Backward(m, p, j) == None
    ensures Backward(m, p, 0) == None
  {
    MarchStaysNone(CnStep(m, p), Terminal(p), p.M, j, 0);
  }

  /**
   * Every step writes the Dirichlet values of its own time: `V_0(t_j)` and
   * `V_N(t_j)` for every `0 <= j < M`.
   */
  lemma BackwardBoundaries(m: Math, p: CnProblem, j: int, V: seq<real>)
    requires Runs(p) && j < p.M && Backward(m, p, j) == Some(V)
    ensures V[0] == LowValue(m, p, StepTime(p, j)) && V[p.N] == HighValue(m, p, StepTime(p, j))
  {
    MarchFromLater(CnStep(m, p), Terminal(p), p.M, j);
    StepSolvesCn(m, p, Backward(m, p, j + 1).value, j, V, 0);
  }

  // ---------------------------------------------------------------------
  // Reading off the price
  // ---------------------------------------------------------------------

  /**
   * Spots the read-off can index: `static_cast<int>(S0 / dS)` truncates
   * towards zero, so it is a valid node index exactly when `S0 / dS > -1`.
   */
  predicate InGrid(p: CnProblem, S0: real)
  {
    Runs(p) && -1.0 < S0 / SpotStep(p)
  }

  /** `V[N]` beyond the last node, else the line through nodes `idx` and `idx + 1` at `S0`. */
  function Interpolate(p: CnProblem, V: seq<real>, S0: real): real
    requires InGrid(p, S0) && |V| == p.N + 1
  {
    var idx := Trunc(S0 / SpotStep(p));
    if idx >= p.N then V[p.N]
    else V[idx] + (V[idx + 1] - V[idx]) / SpotStep(p) * (S0 - Node(p, idx))
  }

  /** `pde_crank_nicolson`: the values at `t_0` read off at `S0`; `None` when a step would divide by zero. */
  function EuropeanPrice(m: Math, p: CnProblem, S0: real): Option<real>
    requires InGrid(p, S0)
  {
    match Backward(m, p, 0)
    case None => None
    case Some(V) => Some(Interpolate(p, V, S0))
  }

  // ---------------------------------------------------------------------
  // Marching back as written
  // ---------------------------------------------------------------------

  /** The step as written on values of the grid's length. */
  function AsWrittenCnStep(m: Math, p: CnProblem): (step: (seq<real>, int) -> Option<seq<real>>)
    requires Runs(p)
    ensures KeepsLength(step, p.N + 1)
  {
    (V: seq<real>, j: int) => if |V| == p.N + 1 then AsWrittenStep(m, p, V, j) else None
  }

  /** The values at `t_j` the source computes: the payoff at `t_M`, then one step as written at a time. */
  function AsWrittenBackward(m: Math, p: CnProblem, j: int): (r: Option<seq<real>>)
    requires Runs(p)
    ensures r.Some? ==> |r.value| == p.N + 1
  {
    March(AsWrittenCnStep(m, p), Terminal(p), p.M, j)
  }

  lemma AsWrittenBackwardStep(m: Math, p: CnProblem, j: int, V: seq<real>)
    requires Runs(p) && j < p.M && AsWrittenBackward(m, p, j + 1) == Some(V)
    ensures AsWrittenBackward(m, p, j) == AsWrittenStep(m, p, V, j)
  {
    assert |V| == p.N + 1;
    assert AsWrittenCnStep(m, p)(V, j) == AsWrittenStep(m, p, V, j);
  }

  lemma AsWrittenBackwardFrom(m: Math, p: CnProblem, j: int)
    requires Runs(p) && p.M <= j
    ensures AsWrittenBackward(m, p, j) == Some(Terminal(p))
    ensures p.M <= 0 ==> AsWrittenBackward(m, p, 0) == Some(Terminal(p))
  {}

  lemma AsWrittenBackwardStaysNone(m: Math, p: CnProblem, j: int)
    requires Runs(p) && 0 <= j && AsWrittenBackward(m, p, j) == None
    ensures AsWrittenBackward(m, p, 0) == None
  {
    MarchStaysNone(AsWrittenCnStep(m, p), Terminal(p), p.M, j, 0);
  }

  /**
   * The right-hand side as written does not reach the ends: the boundary
   * assignment after the solve leaves `V_0(t_j)` and `V_N(t_j)`.
   */
  lemma AsWrittenStepBoundaries(m: Math, p: CnProblem, U: seq<real>, j: int, W: seq<real>)
    requires Runs(p) && |U| == p.N + 1 && AsWrittenStep(m, p, U, j) == Some(W)
    ensures W[0] == LowValue(m, p, StepTime(p, j)) && W[p.N] == HighValue(m, p, StepTime(p, j))
  {
    var t, tNext := StepTime(p, j), StepTime(p, j + 1);
    var co := Coefficients(p);
    SolvedBandRow(co, AsWrittenRhs(co, U, LowValue(m, p, tNext), HighValue(m, p, tNext),
                                   LowValue(m, p, t), HighValue(m, p, t), p.kind),
                  LowValue(m, p, t), HighValue(m, p, t), W, 0);
  }

  /** Every level the source computes before expiry holds the Dirichlet values of its own time. */
  lemma AsWrittenBackwardBoundaries(m: Math, p: CnProblem, j: int, V: seq<real>)
    requires Runs(p) && j < p.M && AsWrittenBackward(m, p, j) == Some(V)
    ensures V[0] == LowValue(m, p, StepTime(p, j)) && V[p.N] == HighValue(m, p, StepTime(p, j))
  {
    MarchFromLater(AsWrittenCnStep(m, p), Terminal(p), p.M, j);
    var U := AsWrittenBackward(m, p, j + 1).value;
    AsWrittenBackwardStep(m, p, j, U);
    AsWrittenStepBoundaries(m, p, U, j, V);
  }

  /** The price `pde_crank_nicolson` returns: the values as written at `t_0`, read off at `S0`. */
  function AsWrittenEuropeanPrice(m: Math, p: CnProblem, S0: real): Option<real>
    requires InGrid(p, S0)
  {
    match AsWrittenBackward(m, p, 0)
    case None => None
    case Some(V) => Some(Interpolate(p, V, S0))
  }

  /**
   * The price as written and the intended price differ: for the witness call
   * (one time step) at spot 150, node 1 of the grid, the source returns
   * `55 / 1.02` and the scheme gives `53 / 1.02`.
   */
  lemma AsWrittenPriceDiffers(m: Math)
    ensures InGrid(Witness, 150.0)
    ensures AsWrittenEuropeanPrice(m, Witness, 150.0) != EuropeanPrice(m, Witness, 150.0)
  {
    var p, VT := Witness, Terminal(Witness);
    assert SpotStep(p) == 150.0;
    WitnessStepRows(m);
    var W := Step(m, p, VT, 0).value;
    var U := AsWrittenStep(m, p, VT, 0).value;
    BackwardStep(m, p, 0, VT);
    AsWrittenBackwardStep(m, p, 0, VT);
    InterpolateAtNode(p, W, 1);
    InterpolateAtNode(p, U, 1);
  }

  /**
   * Row 1 of the first step back on the witness: `53 / 1.02` for the
   * corrected step and `55 / 1.02` as written, from the explicit row 51.
   */
  lemma WitnessStepRows(m: Math)
    ensures Step(m, Witness, Terminal(Witness), 0).Some? && AsWrittenStep(m, Witness, Terminal(Witness), 0).Some?
    ensures Step(m, Witness, Terminal(Witness), 0).value[1] == 53.0 / 1.02
    ensures AsWrittenStep(m, Witness, Terminal(Witness), 0).value[1] == 55.0 / 1.02
  {
    var p, VT := Witness, Terminal(Witness);
    var co := Coefficients(p);
    WitnessValues(m);
    assert NonSingular(SubDiagonal(co), co.b, co.c, 1);
    var lo, hi := LowValue(m, p, StepTime(p, 0)), HighValue(m, p, StepTime(p, 0));
    var W := Step(m, p, VT, 0).value;
    var U := AsWrittenStep(m, p, VT, 0).value;
    StepSolvesCn(m, p, VT, 0, W, 1);
    StepSolvesCn(m, p, VT, 0, W, 0);
    AsWrittenCountsBoundaryTwice(co, VT, LowValue(m, p, StepTime(p, 1)), HighValue(m, p, StepTime(p, 1)), lo, hi, Call, U, 1);
    assert ExplicitRow(co, VT, 1) == 51.0;
    WitnessRow(co.a[1], co.b[1], co.c[1], W[0], W[1], W[2], 51.0);
    WitnessRow(co.a[1], co.b[1], co.c[1], U[0], U[1], U[2], 53.0);
  }

  /** Row 1 of the witness: `-a W0 + 1.02 W1 - 0.01 W2 = e` with `W0 = 0` and `W2 = 200` gives `W1 = (e + 2) / 1.02`. */
  lemma WitnessRow(a: real, b: real, c: real, w0: real, w1: real, w2: real, e: real)
    requires b == 1.02 && c == -0.01 && w0 == 0.0 && w2 == 200.0
    requires -a * w0 + b * w1 + c * w2 == e
    ensures w1 == (e + 2.0) / 1.02
  {}

  /** `(V1 - V0) / dS * (S0 - idx dS)` is `(V1 - V0)` times the weight `S0 / dS - idx`. */
  lemma SlopeTimesOffset(v0: real, v1: real, dS: real, S0: real, k: real)
    requires dS != 0.0
    ensures (v1 - v0) / dS * (S0 - k * dS) == (v1 - v0) * (S0 / dS - k)
  {
    calc {
      (v1 - v0) / dS * (S0 - k * dS);
      (v1 - v0) * ((S0 - k * dS) / dS);
      (v1 - v0) * (S0 / dS - k);
    }
  }

  /**
   * For a spot at or above 0, the read-off is `V[N]` from the last node on,
   * and below it the linear interpolation between the two bracketing nodes
   * with a weight in [0, 1), so it lies between their values.
   */
  lemma InterpolateBetweenNodes(p: CnProblem, V: seq<real>, S0: real)
    requires InGrid(p, S0) && |V| == p.N + 1 && 0.0 <= S0 / SpotStep(p)
    ensures var x := S0 / SpotStep(p); var idx := Trunc(x);
            && 0 <= idx
            && (p.N <= idx ==> Interpolate(p, V, S0) == V[p.N])
            && (idx < p.N ==>
                  && 0.0 <= x - idx as real < 1.0
                  && Interpolate(p, V, S0) == Lerp(V[idx], V[idx + 1], x - idx as real)
                  && Min(V[idx], V[idx + 1]) <= Interpolate(p, V, S0) <= Max(V[idx], V[idx + 1]))
  {
    var x := S0 / SpotStep(p);
    var idx := Trunc(x);
    if idx < p.N {
      var w := x - idx as real;
      SlopeTimesOffset(V[idx], V[idx + 1], SpotStep(p), S0, idx as real);
      LerpFromFirst(V[idx], V[idx + 1], w);
    }
  }

  /** At a node the read-off returns that node's value. */
  lemma InterpolateAtNode(p: CnProblem, V: seq<real>, k: int)
    requires Runs(p) && |V| == p.N + 1 && 0 <= k <= p.N
    ensures InGrid(p, Node(p, k)) && Interpolate(p, V, Node(p, k)) == V[k]
  {
    var dS := SpotStep(p);
    assert Node(p, k) / dS == k as real;
    var idx := Trunc(k as real);
    assert idx == k;
  }

  /** The read-off is monotone in the values, for a spot at or above 0. */
  lemma InterpolateMonotone(p: CnProblem, U: seq<real>, V: seq<real>, S0: real)
    requires InGrid(p, S0) && |U| == p.N + 1 && |V| == p.N + 1 && 0.0 <= S0 / SpotStep(p)
    requires forall i :: 0 <= i <= p.N ==> U[i] <= V[i]
    ensures Interpolate(p, U, S0) <= Interpolate(p, V, S0)
  {
    InterpolateBetweenNodes(p, U, S0);
    InterpolateBetweenNodes(p, V, S0);
    var idx := Trunc(S0 / SpotStep(p));
    if idx < p.N {
      LerpMonotone(U[idx], U[idx + 1], V[idx], V[idx + 1], S0 / SpotStep(p) - idx as real);
    }
  }

  // ---------------------------------------------------------------------
  // The solver on arrays
  // ---------------------------------------------------------------------

  /** Line 15: the spot grid `S[i] = i dS`. */
  method SpotGrid(p: CnProblem) returns (S: array<real>)
    requires Runs(p)
    ensures fresh(S) && S.Length == p.N + 1
    ensures forall i :: 0 <= i <= p.N ==> S[i] == Node(p, i)
  {
    var dS := SMax(p) / p.N as real;
    S := new real[p.N + 1](_ => 0.0);
    var i := 0;
    while i <= p.N
      invariant 0 <= i <= p.N + 1
      invariant forall k :: 0 <= k < i ==> S[k] == Node(p, k)
    {
      S[i] := i as real * dS;
      i := i + 1;
    }
  }

  /** Lines 18-20: the values at expiry, the payoff at every node of the grid `S`. */
  method TerminalValues(p: CnProblem, S: array<real>) returns (V: array<real>)
    requires Runs(p) && S.Length == p.N + 1
    requires forall i :: 0 <= i <= p.N ==> S[i] == Node(p, i)
    ensures fresh(V) && V[..] == Terminal(p)
  {
    V := new real[p.N + 1](_ => 0.0);
    var i := 0;
    while i <= p.N
      invariant 0 <= i <= p.N + 1
      invariant forall k :: 0 <= k < i ==> V[k] == Payoff(Node(p, k), p.K, p.kind)
    {
      V[i] := if p.kind == Call then Max(S[i] - p.K, 0.0) else Max(p.K - S[i], 0.0);
      i := i + 1;
    }
  }

  /** Lines 22-28: the coefficient vectors, 0 at both ends. */
  method FillCoefficients(p: CnProblem) returns (a: array<real>, b: array<real>, c: array<real>)
    requires Runs(p)
    ensures fresh(a) && fresh(b) && fresh(c)
    ensures Bands(a[..], b[..], c[..]) == Coefficients(p)
  {
    var dt := TimeStep(p);
    ghost var co := Coefficients(p);
    a := new real[p.N + 1](_ => 0.0);
    b := new real[p.N + 1](_ => 0.0);
    c := new real[p.N + 1](_ => 0.0);
    var i := 1;
    while i < p.N
      invariant 1 <= i <= p.N
      invariant forall k :: 0 <= k <= p.N ==> a[k] == (if k < i then co.a[k] else 0.0)
      invariant forall k :: 0 <= k <= p.N ==> b[k] == (if k < i then co.b[k] else 0.0)
      invariant forall k :: 0 <= k <= p.N ==> c[k] == (if k < i then co.c[k] else 0.0)
    {
      var sigmaSqISq := p.sigma * p.sigma * (i as real) * (i as real);
      CoefficientsAt(p, i, dt, sigmaSqISq);
      a[i] := 0.25 * dt * (sigmaSqISq - p.r * i as real);
      b[i] := 1.0 + 0.5 * dt * (sigmaSqISq + p.r);
      c[i] := 0.25 * dt * (-sigmaSqISq - p.r * i as real);
      i := i + 1;
    }
    CoefficientsAt(p, 0, dt, 0.0);
  }

  /** The coefficients of an interior node as the loop computes them, and 0 at node 0 and node N. */
  lemma CoefficientsAt(p: CnProblem, i: int, dt: real, s: real)
    requires 0 <= p.N && 0 <= i <= p.N && dt == TimeStep(p) && s == Diffusion(p, i)
    ensures var co := Coefficients(p);
            if 1 <= i < p.N then
              && co.a[i] == 0.25 * dt * (s - p.r * i as real)
              && co.b[i] == 1.0 + 0.5 * dt * (s + p.r)
              && co.c[i] == 0.25 * dt * (-s - p.r * i as real)
            else co.a[i] == 0.0 && co.b[i] == 0.0 && co.c[i] == 0.0
  {}

  /** Lines 31-35: `rhs = B V` on the interior rows, 0 at both ends. */
  method BuildRhs(a: array<real>, b: array<real>, c: array<real>, V: array<real>) returns (rhs: array<real>)
    requires 2 <= V.Length && a.Length == V.Length && b.Length == V.Length && c.Length == V.Length
    ensures fresh(rhs) && rhs.Length == V.Length
    ensures rhs[..] == ExplicitRhs(Bands(a[..], b[..], c[..]), V[..])
  {
    ghost var co, Vs := Bands(a[..], b[..], c[..]), V[..];
    rhs := new real[V.Length](_ => 0.0);
    var i := 1;
    while i < V.Length - 1
      invariant 1 <= i <= V.Length - 1
      invariant forall k :: 0 <= k < V.Length ==> rhs[k] == (if 1 <= k < i then ExplicitRow(co, Vs, k) else 0.0)
    {
      rhs[i] := a[i] * V[i - 1] + (2.0 - b[i]) * V[i] - c[i] * V[i + 1];
      i := i + 1;
    }
  }

  /** Lines 58-59: the system matrix `A = tridiag(-a, b, c)` in three fresh vectors. */
  method SystemBands(a: array<real>, b: array<real>, c: array<real>)
    returns (sub: array<real>, diag: array<real>, sup: array<real>)
    requires 2 <= a.Length && b.Length == a.Length && c.Length == a.Length
    requires a[0] == 0.0 && b[0] == 0.0 && c[0] == 0.0
    requires a[a.Length - 1] == 0.0 && b[a.Length - 1] == 0.0 && c[a.Length - 1] == 0.0
    ensures fresh(sub) && fresh(diag) && fresh(sup)
    ensures sub.Length == a.Length && diag.Length == a.Length && sup.Length == a.Length
    ensures sub != diag && sub != sup && diag != sup
    ensures sub[..] == SubDiagonal(Bands(a[..], b[..], c[..])) && diag[..] == b[..] && sup[..] == c[..]
  {
    var len := a.Length;
    sub := new real[len](_ => 0.0);
    diag := new real[len](_ => 0.0);
    sup := new real[len](_ => 0.0);
    var i := 1;
    while i < len - 1
      invariant 1 <= i <= len - 1
      invariant forall k :: 0 <= k < len ==> sub[k] == (if k < i then -a[k] else 0.0)
      invariant forall k :: 0 <= k < len ==> diag[k] == (if k < i then b[k] else 0.0)
      invariant forall k :: 0 <= k < len ==> sup[k] == (if k < i then c[k] else 0.0)
    {
      sub[i], diag[i], sup[i] := -a[i], b[i], c[i];
      i := i + 1;
    }
  }

  /**
   * Lines 64-68, with the zero checks the source leaves out: forward
   * elimination over rows 2..n. It succeeds exactly when no pivot of rows
   * 1..n is zero, and then leaves the pivots in `diag` and the reduced
   * right-hand side in `d`.
   */
  method ForwardSweep(sub: array<real>, diag: array<real>, sup: array<real>, d: array<real>, n: int)
    returns (ok: bool)
    requires diag != d && sub != diag && sub != d && sup != diag && sup != d
    requires sub.Length == diag.Length && sup.Length == diag.Length && d.Length == diag.Length
    requires 0 <= n < diag.Length
    modifies diag, d
    ensures ok <==> NonSingular(sub[..], old(diag[..]), sup[..], n)
    ensures ok ==> forall k :: 1 <= k <= n ==> diag[k] == Pivot(sub[..], old(diag[..]), sup[..], k)
    ensures ok ==> forall k :: 1 <= k <= n ==> d[k] == Reduced(sub[..], old(diag[..]), sup[..], old(d[..]), k)
  {
    ghost var su, di, sp, rh := sub[..], diag[..], sup[..], d[..];
    if n == 0 {
      return true;
    }
    var i := 2;
    while i <= n
      invariant 2 <= i <= n + 1
      invariant forall k :: 1 <= k < i ==> diag[k] == Pivot(su, di, sp, k)
      invariant forall k :: 1 <= k < i ==> d[k] == Reduced(su, di, sp, rh, k)
      invariant forall k :: i <= k < diag.Length ==> diag[k] == di[k] && d[k] == rh[k]
      invariant forall k :: 1 <= k < i - 1 ==> Pivot(su, di, sp, k) != 0.0
    {
      if diag[i - 1] == 0.0 {
        return false;
      }
      var m := sub[i] / diag[i - 1];
      var s, x, y, y' := sup[i - 1], diag[i], d[i], d[i - 1];
      EliminationWith(su, di, sp, rh, i, m, s, x, y, y');
      ghost var P, D := Pivot(su, di, sp, i), Reduced(su, di, sp, rh, i);
      diag[i] := x - m * s;
      d[i] := y - m * y';
      assert diag[i] == P && d[i] == D;
      i := i + 1;
    }
    ok := diag[n] != 0.0;
  }

  /**
   * Lines 69-72: back-substitution from row n up to row 1, given the pivots
   * `P` and the reduced right-hand side `D` of the system
   * `(sub0, diag0, sup0, rhs0)`. Entries outside rows 1..n are not written.
   */
  method BackSubstitute(P: array<real>, sup: array<real>, D: array<real>, V: array<real>, n: int,
                        ghost sub0: seq<real>, ghost diag0: seq<real>, ghost rhs0: seq<real>)
    requires V != P && V != sup && V != D
    requires P.Length == |diag0| && sup.Length == |diag0| && D.Length == |diag0| && V.Length == |diag0|
    requires Tridiagonal(sub0, diag0, sup[..]) && |rhs0| == |diag0| && 0 <= n < |diag0|
    requires forall k :: 1 <= k <= n ==> P[k] == Pivot(sub0, diag0, sup[..], k) && P[k] != 0.0
    requires forall k :: 1 <= k <= n ==> D[k] == Reduced(sub0, diag0, sup[..], rhs0, k)
    modifies V
    ensures forall k :: 0 <= k < V.Length ==>
              V[k] == if 1 <= k <= n then Solution(sub0, diag0, sup[..], rhs0, n, k) else old(V[k])
  {
    var i := n;
    while i >= 1
      invariant 0 <= i <= n
      invariant forall k :: 0 <= k < V.Length ==>
                  V[k] == if i < k <= n then Solution(sub0, diag0, sup[..], rhs0, n, k) else old(V[k])
    {
      BackStep(sub0, diag0, sup[..], rhs0, n, i);
      V[i] := (D[i] - (if i < n then sup[i] * V[i + 1] else 0.0)) / P[i];
      i := i - 1;
    }
  }

  /**
   * Lines 31-55: the right-hand side as the source builds it, `B V`, then on
   * the row next to the live boundary the boundary term of `t_{j+1}` (lines
   * 45 and 52) and the term of `A` on the boundary of `t_j` (lines 47 and 54).
   */
  method AsWrittenRhsArray(a: array<real>, b: array<real>, c: array<real>, V: array<real>,
                           loNext: real, hiNext: real, lo: real, hi: real, kind: OptionType)
    returns (rhs: array<real>)
    requires 2 <= V.Length && a.Length == V.Length && b.Length == V.Length && c.Length == V.Length
    ensures fresh(rhs) && rhs.Length == V.Length
    ensures rhs[..] == AsWrittenRhs(Bands(a[..], b[..], c[..]), V[..], loNext, hiNext, lo, hi, kind)
  {
    rhs := BuildRhs(a, b, c, V);
    ghost var co, Vs, e := Bands(a[..], b[..], c[..]), V[..], rhs[..];
    var v;
    if kind == Call {
      var k := V.Length - 2;
      rhs[k] := rhs[k] + -c[k] * hiNext;
      rhs[k] := rhs[k] - c[k] * hi;
      v := rhs[k];
      assert rhs[..] == e[|Vs| - 2 := v];
    } else {
      rhs[1] := rhs[1] + a[1] * loNext;
      rhs[1] := rhs[1] + a[1] * lo;
      v := rhs[1];
      assert rhs[..] == e[1 := v];
    }
    AsWrittenRhsUpdate(co, Vs, loNext, hiNext, lo, hi, kind, e, v);
  }

  /** `AsWrittenRhs` as an update of the explicit right-hand side `e` at the row next to the live boundary. */
  lemma AsWrittenRhsUpdate(co: Bands, V: seq<real>, loNext: real, hiNext: real, lo: real, hi: real,
                           kind: OptionType, e: seq<real>, v: real)
    requires Fits(co, |V|) && 2 <= |V| && e == ExplicitRhs(co, V)
    requires kind == Call ==> v == e[|V| - 2] + -co.c[|V| - 2] * hiNext - co.c[|V| - 2] * hi
    requires kind == Put ==> v == e[1] + co.a[1] * loNext + co.a[1] * lo
    ensures AsWrittenRhs(co, V, loNext, hiNext, lo, hi, kind) == if kind == Call then e[|V| - 2 := v] else e[1 := v]
  {
    var r, t := AsWrittenRhs(co, V, loNext, hiNext, lo, hi, kind), if kind == Call then e[|V| - 2 := v] else e[1 := v];
    forall k | 0 <= k < |V|
      ensures r[k] == t[k]
    {}
  }

  /**
   * Lines 31-80, one pass of the time loop with the boundary values of
   * `t_{j+1}` (`loNext`, `hiNext`) and of `t_j` (`lo`, `hi`) given: the
   * right-hand side as written, the Thomas algorithm on rows 1..N-1 and the
   * boundary values written at both ends. `ok` is false when a pivot is zero.
   */
  method SolveStep(a: array<real>, b: array<real>, c: array<real>, V: array<real>,
                   loNext: real, hiNext: real, lo: real, hi: real, kind: OptionType) returns (ok: bool)
    requires 2 <= V.Length && a.Length == V.Length && b.Length == V.Length && c.Length == V.Length
    requires V != a && V != b && V != c
    requires a[0] == 0.0 && b[0] == 0.0 && c[0] == 0.0
    requires a[V.Length - 1] == 0.0 && b[V.Length - 1] == 0.0 && c[V.Length - 1] == 0.0
    modifies V
    ensures var co := Bands(a[..], b[..], c[..]);
            SolveBands(co, AsWrittenRhs(co, old(V[..]), loNext, hiNext, lo, hi, kind), lo, hi)
            == if ok then Some(V[..]) else None
  {
    var rhs := AsWrittenRhsArray(a, b, c, V, loNext, hiNext, lo, hi, kind);
    var sub, diag, sup := SystemBands(a, b, c);
    ok := Thomas(sub, diag, sup, rhs, V, V.Length - 2, lo, hi);
  }

  /**
   * Lines 61-80: the Thomas algorithm on rows 1..n of `A x = d`, then the
   * boundary values `lo` and `hi` at rows 0 and n + 1. It succeeds exactly
   * when no pivot is zero, and then leaves in `V` the back-substituted
   * solution with the two boundary values.
   */
  method Thomas(sub: array<real>, diag: array<real>, sup: array<real>, d: array<real>, V: array<real>,
                n: int, lo: real, hi: real) returns (ok: bool)
    requires diag != d && sub != diag && sub != d && sup != diag && sup != d
    requires V != sub && V != diag && V != sup && V != d
    requires sub.Length == V.Length && diag.Length == V.Length && sup.Length == V.Length && d.Length == V.Length
    requires 0 <= n && n + 2 == V.Length
    modifies diag, d, V
    ensures ok <==> NonSingular(sub[..], old(diag[..]), sup[..], n)
    ensures ok ==> V[..] == Solutions(sub[..], old(diag[..]), sup[..], old(d[..]), n)[0 := lo][n + 1 := hi]
  {
    ghost var su, di, sp, rh := sub[..], diag[..], sup[..], d[..];
    ok := ForwardSweep(sub, diag, sup, d, n);
    if !ok {
      return;
    }
    BackSubstitute(diag, sup, d, V, n, su, di, rh);
    V[0] := lo;
    V[n + 1] := hi;
    ghost var X := Solutions(su, di, sp, rh, n);
    forall k | 1 <= k <= n
      ensures V[k] == X[k]
    {
      assert X[k] == Solution(su, di, sp, rh, n, k);
    }
    assert V[..] == X[0 := lo][n + 1 := hi];
  }

  /**
   * `B` gives the values at every time level as `AsWrittenBackward` defines
   * them. The trigger keeps the time loop, which only names `B`, from
   * unfolding the definition of a step at every level it mentions.
   */
  ghost predicate Trajectory(m: Math, p: CnProblem, B: int -> Option<seq<real>>)
    requires Runs(p)
  {
    forall k {:trigger AsWrittenBackward(m, p, k)} :: B(k) == AsWrittenBackward(m, p, k)
  }

  /** One pass of the time loop, from the values at `t_{j+1}` in `V` to those at `t_j`. */
  method CnTimeStep(m: Math, p: CnProblem, a: array<real>, b: array<real>, c: array<real>,
                    V: array<real>, j: int, ghost B: int -> Option<seq<real>>) returns (ok: bool)
    requires Runs(p) && V.Length == p.N + 1 && V != a && V != b && V != c
    requires Bands(a[..], b[..], c[..]) == Coefficients(p) && Trajectory(m, p, B)
    requires 0 <= j < p.M && B(j + 1) == Some(V[..])
    modifies V
    ensures B(j) == if ok then Some(V[..]) else None
    ensures !ok ==> B(0) == None
  {
    assert B(j + 1) == AsWrittenBackward(m, p, j + 1);
    ghost var V0 := V[..];
    ok := CnSolveStep(m, p, a, b, c, V, j);
    AsWrittenBackwardStep(m, p, j, V0);
    if !ok {
      AsWrittenBackwardStaysNone(m, p, j);
    }
  }

  /**
   * Lines 31-80: the body of the time loop. The right-hand side as written,
   * the sweep and the boundary values of `t_j` turn the values in `V` into
   * `AsWrittenStep` of them.
   */
  method CnSolveStep(m: Math, p: CnProblem, a: array<real>, b: array<real>, c: array<real>,
                     V: array<real>, j: int) returns (ok: bool)
    requires Runs(p) && V.Length == p.N + 1 && V != a && V != b && V != c
    requires Bands(a[..], b[..], c[..]) == Coefficients(p)
    modifies V
    ensures AsWrittenStep(m, p, old(V[..]), j) == if ok then Some(V[..]) else None
  {
    var dt := TimeStep(p);
    var tNext := StepTime(p, j + 1);
    var tCurr := StepTime(p, j);
    var discNext := DiscountedStrike(m, p, tNext);
    var disc := DiscountedStrike(m, p, tCurr);
    var loNext, hiNext, lo, hi;
    if p.kind == Call {
      loNext, hiNext := 0.0, SMax(p) - discNext;
      lo, hi := 0.0, SMax(p) - disc;
    } else {
      loNext, hiNext := discNext, 0.0;
      lo, hi := disc, 0.0;
    }
    ghost var V0 := V[..];
    CoefficientsAt(p, 0, dt, 0.0);
    CoefficientsAt(p, p.N, dt, Diffusion(p, p.N));
    ok := SolveStep(a, b, c, V, loNext, hiNext, lo, hi, p.kind);
    AsWrittenStepIsSolveBands(m, p, V0, j, Bands(a[..], b[..], c[..]), loNext, hiNext, lo, hi);
  }

  /** `AsWrittenStep` with the coefficients and the boundary values of `t_{j+1}` and `t_j` given. */
  lemma AsWrittenStepIsSolveBands(m: Math, p: CnProblem, V: seq<real>, j: int, co: Bands,
                                  loNext: real, hiNext: real, lo: real, hi: real)
    requires Runs(p) && |V| == p.N + 1 && co == Coefficients(p)
    requires loNext == LowValue(m, p, StepTime(p, j + 1)) && hiNext == HighValue(m, p, StepTime(p, j + 1))
    requires lo == LowValue(m, p, StepTime(p, j)) && hi == HighValue(m, p, StepTime(p, j))
    ensures AsWrittenStep(m, p, V, j) == SolveBands(co, AsWrittenRhs(co, V, loNext, hiNext, lo, hi, p.kind), lo, hi)
  {}

  /**
   * `pde_crank_nicolson`: the time loop from expiry back to `t_0`, then the
   * read-off at `S0`. The result is the price the source computes, with the
   * boundary term counted twice; `None` when a pivot is zero.
   */
  method PdeCrankNicolson(m: Math, S0: real, p: CnProblem) returns (price: Option<real>)
    requires InGrid(p, S0)
    ensures price == AsWrittenEuropeanPrice(m, p, S0)
  {
    var S := SpotGrid(p);
    var V := TerminalValues(p, S);
    var a, b, c := FillCoefficients(p);
    ghost var B := (k: int) => AsWrittenBackward(m, p, k);
    AsWrittenBackwardFrom(m, p, p.M);
    var ok := TimeLoop(m, p, a, b, c, V, B);
    if !ok {
      return None;
    }
    var v := ReadOff(p, S, V, S0);
    price := Some(v);
  }

  /**
   * Line 30: the time loop, from the values at expiry in `V` back to `t_0`.
   * It stops at the first step whose sweep meets a zero pivot.
   */
  method TimeLoop(m: Math, p: CnProblem, a: array<real>, b: array<real>, c: array<real>, V: array<real>,
                  ghost B: int -> Option<seq<real>>)
    returns (ok: bool)
    requires Runs(p) && V.Length == p.N + 1 && V != a && V != b && V != c
    requires Bands(a[..], b[..], c[..]) == Coefficients(p) && Trajectory(m, p, B)
    requires B(p.M) == Some(V[..]) && (p.M <= 0 ==> B(0) == B(p.M))
    modifies V
    ensures B(0) == if ok then Some(V[..]) else None
  {
    var j := p.M - 1;
    while j >= 0
      invariant j < p.M && (-1 <= j || j + 1 == p.M)
      invariant B(j + 1) == Some(V[..])
    {
      ok := CnTimeStep(m, p, a, b, c, V, j, B);
      if !ok {
        return;
      }
      j := j - 1;
    }
    ok := true;
  }

  /** Lines 83-86: the values `V` read off at `S0` on the grid `S`. */
  method ReadOff(p: CnProblem, S: array<real>, V: array<real>, S0: real) returns (v: real)
    requires InGrid(p, S0) && V.Length == p.N + 1 && S.Length == p.N + 1
    requires forall i :: 0 <= i <= p.N ==> S[i] == Node(p, i)
    ensures v == Interpolate(p, V[..], S0)
  {
    var dS := SpotStep(p);
    var idx := Trunc(S0 / dS);
    if idx >= p.N {
      return V[p.N];
    }
    var slope := (V[idx + 1] - V[idx]) / dS;
    v := V[idx] + slope * (S0 - S[idx]);
    InterpolateInterior(p, V[..], S0, dS, idx, V[idx], V[idx + 1], slope, S[idx]);
  }

  /** The read-off between two nodes, from the spot step, the node index, the two values, the slope and the node's spot. */
  lemma InterpolateInterior(p: CnProblem, V: seq<real>, S0: real, dS: real, idx: int,
                            v0: real, v1: real, slope: real, s: real)
    requires InGrid(p, S0) && |V| == p.N + 1 && dS == SpotStep(p) && idx == Trunc(S0 / dS) && 0 <= idx < p.N
    requires v0 == V[idx] && v1 == V[idx + 1] && slope == (v1 - v0) / dS && s == Node(p, idx)
    ensures Interpolate(p, V, S0) == v0 + slope * (S0 - s)
  {}
}
