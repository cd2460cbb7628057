/**
 * `src/lsm.cpp`: the Longstaff-Schwartz pricer of an American put. It
 * simulates an (N+1) x M matrix of GBM spots, starts every path's cashflow at
 * the put payoff at maturity, then steps back from N-1 to 1. At each step it
 * regresses the discounted cashflows of the in-the-money paths on the basis
 * 1, S, ..., S^d by Gauss-Jordan elimination with partial pivoting on the
 * normal equations, and exercises a path when its payoff beats the fitted
 * continuation value. The price is the mean of the final cashflows.
 *
 * The path matrix is a sequence of rows, built in order. The normal matrix,
 * stored by the source as a flat row-major vector of `cols * cols` entries,
 * is an `array2` of `cols` x `cols`. The normal variates are the engine's, in the order
 * the source draws them.
 */
module Lsm {
  import opened Numerics
  import opened OptionTypes
  import opened MathUtils
  import Stats

  /** `LSMParams` and its defaults. */
  datatype LsmParams = LsmParams(steps: int, paths: int, polyDegree: int, seed: bv64)

  const DefaultParams: LsmParams := LsmParams(50, 200000, 2, 1234)

  /** `S * exp(drift + vol Z)`, a spot `s` moved over one step by the variate `Z`. */
  function NextSpot(m: Math, s: real, drift: real, vol: real, Z: real): (s': real)
    ensures 0.0 < s ==> 0.0 < s'
  {
    s * m.exp(drift + vol * Z)
  }

  /** `exp(-r dt)`, the one-step discount factor. */
  function StepDiscount(m: Math, r: real, dt: real): (d: real)
    ensures 0.0 < d
  {
    m.exp(-r * dt)
  }

  // ---------------------------------------------------------------------
  // Paths
  // ---------------------------------------------------------------------

  /**
   * How many draws precede row `n` (n >= 1) when the first is taken after
   * `start` others: row `n` uses the `M` draws from `start + (n - 1) M` on.
   */
  function RowStart(start: nat, M: nat, n: nat): nat
  {
    if n <= 1 then start else RowStart(start, M, n - 1) + M
  }

  lemma {:induction false} RowStartIsProduct(start: nat, M: nat, n: nat)
    requires 1 <= n
    ensures RowStart(start, M, n) == start + (n - 1) * M
  {
    if n > 1 {
      RowStartIsProduct(start, M, n - 1);
      assert (n - 2) * M + M == (n - 1) * M;
    }
  }

  /**
   * `S` has `N + 1` rows of `M` spots; row 0 is `S0`, and each later entry is
   * the one above it times the growth from the draw taken after
   * `RowStart(start, M, n) + j` others: the rows are filled in order, each
   * from left to right.
   */
  ghost predicate PathsFrom(m: Math, S: seq<seq<real>>, N: nat, M: nat, S0: real, drift: real, vol: real, e: Engine, start: nat)
  {
    && |S| == N + 1
    && (forall n :: 0 <= n <= N ==> |S[n]| == M)
    && (forall j :: 0 <= j < M ==> S[0][j] == S0)
    && (forall n :: 1 <= n <= N ==> RowFrom(m, S[n - 1], S[n], drift, vol, e, RowStart(start, M, n)))
  }

  /** `row` grows `prev` by the draws that follow the first `from`, one per path. */
  ghost predicate RowFrom(m: Math, prev: seq<real>, row: seq<real>, drift: real, vol: real, e: Engine, from: nat)
  {
    && |row| == |prev|
    && forall j :: 0 <= j < |row| ==> row[j] == NextSpot(m, prev[j], drift, vol, e.gauss(from + j))
  }

  /** The simulation loop: `N + 1` rows of `M` spots, `N M` draws taken. */
  method SimulatePaths(m: Math, S0: real, N: nat, M: nat, drift: real, vol: real, rng: Rng)
    returns (S: seq<seq<real>>)
    modifies rng
    ensures rng.taken == old(rng.taken) + N * M
    ensures PathsFrom(m, S, N, M, S0, drift, vol, rng.engine, old(rng.taken))
  {
    ghost var start, e := rng.taken, rng.engine;
    var first := seq(M, j => S0);
    S := [first];
    for n := 1 to N + 1
      invariant rng.taken == RowStart(start, M, n)
      invariant PathsFrom(m, S, n - 1, M, S0, drift, vol, e, start)
    {
      var row := SimulateRow(m, S[n - 1], drift, vol, rng);
      PathsExtend(m, S, n, M, S0, drift, vol, e, start, row);
      S := S + [row];
    }
    RowStartIsProduct(start, M, N + 1);
  }

  /** One more row drawn from the next `M` variates extends the paths by a step. */
  lemma PathsExtend(m: Math, S: seq<seq<real>>, n: nat, M: nat, S0: real, drift: real, vol: real, e: Engine, start: nat,
                    row: seq<real>)
    requires 1 <= n && PathsFrom(m, S, n - 1, M, S0, drift, vol, e, start)
    requires RowFrom(m, S[n - 1], row, drift, vol, e, RowStart(start, M, n))
    ensures PathsFrom(m, S + [row], n, M, S0, drift, vol, e, start)
  {
    var S' := S + [row];
    forall k | 1 <= k <= n
      ensures RowFrom(m, S'[k - 1], S'[k], drift, vol, e, RowStart(start, M, k))
    {
      if k < n {
        assert S'[k - 1] == S[k - 1] && S'[k] == S[k];
      }
    }
  }

  /** One row of the simulation: one draw per path, in path order. */
  method SimulateRow(m: Math, prev: seq<real>, drift: real, vol: real, rng: Rng) returns (row: seq<real>)
    modifies rng
    ensures rng.taken == old(rng.taken) + |prev|
    ensures RowFrom(m, prev, row, drift, vol, rng.engine, old(rng.taken))
  {
    ghost var from, e := rng.taken, rng.engine;
    row := [];
    for j := 0 to |prev|
      invariant rng.taken == from + j && |row| == j
      invariant forall j' :: 0 <= j' < j ==> row[j'] == NextSpot(m, prev[j'], drift, vol, e.gauss(from + j'))
    {
      var Z := rng.Gauss();
      row := row + [NextSpot(m, prev[j], drift, vol, Z)];
    }
  }

  /** From a positive `S0` every spot of every path is positive. */
  lemma PathsPositive(m: Math, S: seq<seq<real>>, N: nat, M: nat, S0: real, drift: real, vol: real, e: Engine, start: nat)
    requires PathsFrom(m, S, N, M, S0, drift, vol, e, start) && 0.0 < S0
    ensures forall n, j :: 0 <= n <= N && 0 <= j < M ==> 0.0 < S[n][j]
  {
    forall n, j | 0 <= n <= N && 0 <= j < M
      ensures 0.0 < S[n][j]
    {
      SpotPositive(m, S, N, M, S0, drift, vol, e, start, n, j);
    }
  }

  lemma {:induction false} SpotPositive(m: Math, S: seq<seq<real>>, N: nat, M: nat, S0: real, drift: real, vol: real,
                                        e: Engine, start: nat, n: nat, j: nat)
    requires PathsFrom(m, S, N, M, S0, drift, vol, e, start) && 0.0 < S0
    requires n <= N && j < M
    ensures 0.0 < S[n][j]
  {
    if n > 0 {
      SpotPositive(m, S, N, M, S0, drift, vol, e, start, n - 1, j);
      assert RowFrom(m, S[n - 1], S[n], drift, vol, e, RowStart(start, M, n));
    }
  }

  // ---------------------------------------------------------------------
  // Cashflows
  // ---------------------------------------------------------------------

  /** The initial cashflows: the put payoff at the last row. */
  method MaturityCashflows(last: seq<real>, K: real) returns (CF: array<real>)
    ensures fresh(CF) && CF.Length == |last|
    ensures forall j :: 0 <= j < CF.Length ==> CF[j] == Payoff(last[j], K, Put)
  {
    CF := new real[|last|];
    for j := 0 to |last|
      invariant forall j' :: 0 <= j' < j ==> CF[j'] == Payoff(last[j'], K, Put)
    {
      CF[j] := Payoff(last[j], K, Put);
    }
  }

  /** `K - S > 0`: the paths that take part in the regression and may exercise. */
  predicate InTheMoney(K: real, s: real)
  {
    K - s > 0.0
  }

  /**
   * The in-the-money paths of row `n`, in increasing order: exactly the
   * indices `j` with `K - S[n, j] > 0`.
   */
  method ItmPaths(row: seq<real>, K: real) returns (itm: seq<nat>)
    ensures forall k :: 0 <= k < |itm| ==> itm[k] < |row| && InTheMoney(K, row[itm[k]])
    ensures forall k, l :: 0 <= k < l < |itm| ==> itm[k] < itm[l]
    ensures forall j :: 0 <= j < |row| && InTheMoney(K, row[j]) ==> j in itm
  {
    itm := [];
    for j := 0 to |row|
      invariant forall k :: 0 <= k < |itm| ==> itm[k] < j && InTheMoney(K, row[itm[k]])
      invariant forall k, l :: 0 <= k < l < |itm| ==> itm[k] < itm[l]
      invariant forall j' :: 0 <= j' < j && InTheMoney(K, row[j']) ==> j' in itm
    {
      if K - row[j] > 0.0 {
        itm := itm + [j];
      }
    }
  }

  /**
   * What a processed step does to one path: an out-of-the-money path keeps
   * its cashflow; an in-the-money one exercises (takes the payoff) when the
   * payoff beats the continuation value, and is otherwise discounted one step.
   */
  function ExerciseValue(cf: real, payoff: real, cont: real, disc: real): real
  {
    if payoff <= 0.0 then cf else if payoff > cont then payoff else cf * disc
  }

  /**
   * The decision keeps cashflows non-negative, leaves an out-of-the-money
   * path alone, and otherwise gives the payoff or the discounted cashflow,
   * the payoff exactly when it beats the continuation value.
   */
  lemma ExerciseValueFacts(cf: real, payoff: real, cont: real, disc: real)
    requires 0.0 <= payoff && 0.0 < disc
    ensures 0.0 <= cf ==> 0.0 <= ExerciseValue(cf, payoff, cont, disc)
    ensures payoff == 0.0 ==> ExerciseValue(cf, payoff, cont, disc) == cf
    ensures 0.0 < payoff && cont < payoff ==> ExerciseValue(cf, payoff, cont, disc) == payoff
    ensures 0.0 < payoff && payoff <= cont ==> ExerciseValue(cf, payoff, cont, disc) == cf * disc
  {
    if 0.0 <= cf {
      ScaleNonNegative(disc, cf);
    }
  }

  /** The mean of the final cashflows; NaN (None) when there are no paths. */
  method MeanCashflow(CF: array<real>) returns (price: Option<real>)
    ensures CF.Length == 0 <==> price.None?
    ensures price.Some? ==> price.value == Stats.Mean(CF[..])
    ensures price.Some? && (forall j :: 0 <= j < CF.Length ==> 0.0 <= CF[j]) ==> 0.0 <= price.value
  {
    var total := 0.0;
    for j := 0 to CF.Length
      invariant total == Sum(CF[..j])
    {
      assert CF[..j + 1] == CF[..j] + [CF[j]];
      SumAppend(CF[..j], CF[j]);
      total := total + CF[j];
    }
    assert CF[..CF.Length] == CF[..];
    if CF.Length == 0 {
      return None;
    }
    if forall j :: 0 <= j < CF.Length ==> 0.0 <= CF[j] {
      SumNonNegative(CF[..]);
    }
    return Some(total / CF.Length as real);
  }

  // ---------------------------------------------------------------------
  // Regression on 1, S, ..., S^d
  // ---------------------------------------------------------------------

  /** `s^k`, as the basis loop builds it: `phi[k] = phi[k - 1] * s`. */
  function Pow(s: real, k: nat): real
  {
    if k == 0 then 1.0 else Pow(s, k - 1) * s
  }

  /** The number of basis functions: `max(1, poly_degree) + 1`, at least 2. */
  function BasisSize(polyDegree: int): (cols: nat)
    ensures 2 <= cols && polyDegree <= cols - 1
  {
    IMax(1, polyDegree) + 1
  }

  /** The basis at `s`: `1, s, ..., s^(cols - 1)`. */
  method Basis(s: real, cols: nat) returns (phi: seq<real>)
    requires 1 <= cols
    ensures |phi| == cols && forall k :: 0 <= k < cols ==> phi[k] == Pow(s, k)
  {
    phi := [1.0];
    for k := 1 to cols
      invariant |phi| == k && forall k' :: 0 <= k' < k ==> phi[k'] == Pow(s, k')
    {
      phi := phi + [phi[k - 1] * s];
    }
  }

  /** The entries of `v` at the indices `idx`, in order. */
  function Picks(v: seq<real>, idx: seq<nat>): (w: seq<real>)
    requires forall k :: 0 <= k < |idx| ==> idx[k] < |v|
    ensures |w| == |idx| && forall k :: 0 <= k < |idx| ==> w[k] == v[idx[k]]
  {
    if idx == [] then [] else Picks(v, idx[..|idx| - 1]) + [v[idx[|idx| - 1]]]
  }

  /** Entry (i, j) of X^T X over the observations `xs`: the sum of `x^i x^j`. */
  function Gram(xs: seq<real>, i: nat, j: nat): real
  {
    if xs == [] then 0.0 else Gram(xs[..|xs| - 1], i, j) + Pow(xs[|xs| - 1], i) * Pow(xs[|xs| - 1], j)
  }

  /** Entry i of X^T y: the sum of `x^i (cf disc)` over the observations. */
  function Moment(xs: seq<real>, cfs: seq<real>, disc: real, i: nat): real
    requires |xs| == |cfs|
  {
    if xs == [] then 0.0
    else Moment(xs[..|xs| - 1], cfs[..|cfs| - 1], disc, i) + Pow(xs[|xs| - 1], i) * (cfs[|cfs| - 1] * disc)
  }

  /** The normal matrix is symmetric. */
  lemma {:induction false} GramSymmetric(xs: seq<real>, i: nat, j: nat)
    ensures Gram(xs, i, j) == Gram(xs, j, i)
  {
    if xs != [] {
      GramSymmetric(xs[..|xs| - 1], i, j);
    }
  }

  /** Its (0, 0) entry counts the observations. */
  lemma {:induction false} GramCounts(xs: seq<real>)
    ensures Gram(xs, 0, 0) == |xs| as real
  {
    if xs != [] {
      GramCounts(xs[..|xs| - 1]);
    }
  }

  /** Its diagonal is a sum of squares, so never negative. */
  lemma {:induction false} GramDiagonalNonNegative(xs: seq<real>, i: nat)
    ensures 0.0 <= Gram(xs, i, i)
  {
    if xs != [] {
      GramDiagonalNonNegative(xs[..|xs| - 1], i);
      assert Pow(xs[|xs| - 1], i) * Pow(xs[|xs| - 1], i) == Square(Pow(xs[|xs| - 1], i));
    }
  }

  /** One more observation adds one term to every entry. */
  lemma GramAppend(xs: seq<real>, x: real, i: nat, j: nat)
    ensures Gram(xs + [x], i, j) == Gram(xs, i, j) + Pow(x, i) * Pow(x, j)
  {
    assert (xs + [x])[..|xs|] == xs;
  }

  lemma MomentAppend(xs: seq<real>, cfs: seq<real>, x: real, cf: real, disc: real, i: nat)
    requires |xs| == |cfs|
    ensures Moment(xs + [x], cfs + [cf], disc, i) == Moment(xs, cfs, disc, i) + Pow(x, i) * (cf * disc)
  {
    assert (xs + [x])[..|xs|] == xs;
    assert (cfs + [cf])[..|cfs|] == cfs;
  }

  /**
   * The accumulation loop: X^T X and X^T y over the in-the-money paths,
   * with spots `row[idx]` and responses `CF[idx] * disc`.
   */
  method NormalEquations(row: seq<real>, CF: array<real>, itm: seq<nat>, disc: real, cols: nat)
    returns (XtX: array2<real>, Xty: array<real>)
    requires 1 <= cols && CF.Length == |row|
    requires forall k :: 0 <= k < |itm| ==> itm[k] < |row|
    ensures fresh(XtX) && fresh(Xty)
    ensures XtX.Length0 == cols && XtX.Length1 == cols && Xty.Length == cols
    ensures forall i, j :: 0 <= i < cols && 0 <= j < cols ==> XtX[i, j] == Gram(Picks(row, itm), i, j)
    ensures forall i :: 0 <= i < cols ==> Xty[i] == Moment(Picks(row, itm), Picks(CF[..], itm), disc, i)
  {
    XtX := new real[cols, cols]((i, j) => 0.0);
    Xty := new real[cols](i => 0.0);
    ghost var cf0 := CF[..];
    ghost var xs, cfs := [], [];
    for k := 0 to |itm|
      invariant xs == Picks(row, itm[..k]) && cfs == Picks(cf0, itm[..k])
      invariant Accumulated(XtX, Xty, xs, cfs, disc)
    {
      var idx := itm[k];
      AddPath(XtX, Xty, xs, cfs, row[idx], CF[idx], disc);
      PicksNext(row, itm, k);
      PicksNext(cf0, itm, k);
      xs, cfs := xs + [row[idx]], cfs + [CF[idx]];
    }
    assert itm[..|itm|] == itm;
  }

  /** The normal-equation matrix X^T X over the observations `xs`, as rows. */
  ghost function GramMatrix(xs: seq<real>, cols: nat): (M: seq<seq<real>>)
    ensures |M| == cols && forall i :: 0 <= i < cols ==> |M[i]| == cols
    ensures forall i, j :: 0 <= i < cols && 0 <= j < cols ==> M[i][j] == Gram(xs, i, j)
  {
    seq(cols, (i: int) requires 0 <= i => seq(cols, (j: int) requires 0 <= j => Gram(xs, i, j)))
  }

  /** The right-hand side X^T y over the observations `xs` with cashflows `cfs`. */
  ghost function MomentVector(xs: seq<real>, cfs: seq<real>, disc: real, cols: nat): (y: seq<real>)
    requires |xs| == |cfs|
    ensures |y| == cols && forall i :: 0 <= i < cols ==> y[i] == Moment(xs, cfs, disc, i)
  {
    seq(cols, (i: int) requires 0 <= i => Moment(xs, cfs, disc, i))
  }

  /** The arrays built by `NormalEquations`, read back as a system of equations. */
  lemma NormalEquationsRows(XtX: array2<real>, Xty: array<real>, xs: seq<real>, cfs: seq<real>, disc: real, cols: nat)
    requires |xs| == |cfs| && XtX.Length0 == cols && XtX.Length1 == cols && Xty.Length == cols
    requires forall i, j :: 0 <= i < cols && 0 <= j < cols ==> XtX[i, j] == Gram(xs, i, j)
    requires forall i :: 0 <= i < cols ==> Xty[i] == Moment(xs, cfs, disc, i)
    ensures Rows(XtX) == GramMatrix(xs, cols) && Xty[..] == MomentVector(xs, cfs, disc, cols)
  {
    var M, G := Rows(XtX), GramMatrix(xs, cols);
    forall i | 0 <= i < cols
      ensures M[i] == G[i]
    {
    }
  }

  /** `XtX` and `Xty` hold the sums over the observations `xs` with cashflows `cfs`. */
  ghost predicate Accumulated(XtX: array2<real>, Xty: array<real>, xs: seq<real>, cfs: seq<real>, disc: real)
    requires |xs| == |cfs|
    reads XtX, Xty
  {
    && (forall i, j :: 0 <= i < XtX.Length0 && 0 <= j < XtX.Length1 ==> XtX[i, j] == Gram(xs, i, j))
    && (forall i :: 0 <= i < Xty.Length ==> Xty[i] == Moment(xs, cfs, disc, i))
  }

  /** The body of the accumulation loop for one in-the-money path with spot `s` and cashflow `cf`. */
  method AddPath(XtX: array2<real>, Xty: array<real>, ghost xs: seq<real>, ghost cfs: seq<real>, s: real, cf: real, disc: real)
    requires 1 <= XtX.Length0 && XtX.Length0 == XtX.Length1 == Xty.Length && |xs| == |cfs|
    requires Accumulated(XtX, Xty, xs, cfs, disc)
    modifies XtX, Xty
    ensures Accumulated(XtX, Xty, xs + [s], cfs + [cf], disc)
  {
    var cols := Xty.Length;
    var y := cf * disc;
    var phi := Basis(s, cols);
    forall i, j | 0 <= i < cols && 0 <= j < cols
      ensures Gram(xs + [s], i, j) == Gram(xs, i, j) + phi[i] * phi[j]
    {
      GramAppend(xs, s, i, j);
    }
    forall i | 0 <= i < cols
      ensures Moment(xs + [s], cfs + [cf], disc, i) == Moment(xs, cfs, disc, i) + phi[i] * y
    {
      MomentAppend(xs, cfs, s, cf, disc, i);
    }
    AddObservation(XtX, Xty, phi, y);
  }

  lemma PicksNext(v: seq<real>, idx: seq<nat>, k: nat)
    requires k < |idx| && forall k' :: 0 <= k' < |idx| ==> idx[k'] < |v|
    ensures Picks(v, idx[..k + 1]) == Picks(v, idx[..k]) + [v[idx[k]]]
  {
    assert idx[..k + 1][..k] == idx[..k];
  }

  /** One observation: `Xty[i] += phi[i] y` and `XtX[i][j] += phi[i] phi[j]`. */
  method AddObservation(XtX: array2<real>, Xty: array<real>, phi: seq<real>, y: real)
    requires XtX.Length0 == |phi| && XtX.Length1 == |phi| && Xty.Length == |phi|
    modifies XtX, Xty
    ensures forall i, j :: 0 <= i < |phi| && 0 <= j < |phi| ==> XtX[i, j] == old(XtX[i, j]) + phi[i] * phi[j]
    ensures forall i :: 0 <= i < |phi| ==> Xty[i] == old(Xty[i]) + phi[i] * y
  {
    var cols := |phi|;
    for i := 0 to cols
      invariant forall i', j :: 0 <= i' < cols && 0 <= j < cols ==>
                  XtX[i', j] == (if i' < i then old(XtX[i', j]) + phi[i'] * phi[j] else old(XtX[i', j]))
      invariant forall i' :: 0 <= i' < cols ==> Xty[i'] == (if i' < i then old(Xty[i']) + phi[i'] * y else old(Xty[i']))
    {
      Xty[i] := Xty[i] + phi[i] * y;
      for j := 0 to cols
        invariant forall i', j' :: 0 <= i' < cols && 0 <= j' < cols ==>
                    XtX[i', j'] == (if i' < i || (i' == i && j' < j) then old(XtX[i', j']) + phi[i'] * phi[j'] else old(XtX[i', j']))
        invariant forall i' :: 0 <= i' < cols ==> Xty[i'] == (if i' <= i then old(Xty[i']) + phi[i'] * y else old(Xty[i']))
      {
        XtX[i, j] := XtX[i, j] + phi[i] * phi[j];
      }
    }
  }

  // ---------------------------------------------------------------------
  // Gauss-Jordan elimination with partial pivoting
  // ---------------------------------------------------------------------

  /** A pivot smaller than this in magnitude is skipped. */
  const PivotTol: real := 0.00000000000001

  /** Column `p` of `A` is the unit vector `e_p`. */
  ghost predicate UnitColumn(A: array2<real>, p: nat)
    reads A
  {
    && p < A.Length1
    && forall r :: 0 <= r < A.Length0 ==> A[r, p] == (if r == p then 1.0 else 0.0)
  }

  /** Every entry of column `p` on or below the diagonal is below the pivot tolerance. */
  ghost predicate NegligibleBelow(A: array2<real>, p: nat)
    reads A
  {
    && p < A.Length1
    && forall r :: p <= r < A.Length0 ==> Abs(A[r, p]) < PivotTol
  }

  /** `u . x`, summed in index order. */
  function Dot(u: seq<real>, x: seq<real>): real
    requires |u| == |x|
  {
    Sum(Products(u, x))
  }

  /** The entrywise products `u[k] x[k]`. */
  function Products(u: seq<real>, x: seq<real>): seq<real>
    requires |u| == |x|
  {
    seq(|u|, k requires 0 <= k < |u| => u[k] * x[k])
  }

  /** `x` solves the square or rectangular system `M x = y`. */
  ghost predicate Solves(M: seq<seq<real>>, y: seq<real>, x: seq<real>)
  {
    && |M| == |y|
    && forall r :: 0 <= r < |M| ==> |M[r]| == |x| && Dot(M[r], x) == y[r]
  }

  /** The systems `M x = y` and `M' x = y'` have the same solutions. */
  ghost predicate SameSolutions(M: seq<seq<real>>, y: seq<real>, M': seq<seq<real>>, y': seq<real>)
  {
    forall x :: Solves(M, y, x) <==> Solves(M', y', x)
  }

  lemma SameSolutionsTransitive(M: seq<seq<real>>, y: seq<real>, M': seq<seq<real>>, y': seq<real>,
                                M'': seq<seq<real>>, y'': seq<real>)
    requires SameSolutions(M, y, M', y') && SameSolutions(M', y', M'', y'')
    ensures SameSolutions(M, y, M'', y'')
  {
  }

  /** The entries of `A`, row by row. */
  ghost function Rows(A: array2<real>): (M: seq<seq<real>>)
    reads A
    ensures |M| == A.Length0
    ensures forall r :: 0 <= r < A.Length0 ==> |M[r]| == A.Length1
    ensures forall r, c {:trigger M[r][c]} :: 0 <= r < A.Length0 && 0 <= c < A.Length1 ==> M[r][c] == A[r, c]
  {
    RowsUpTo(A, A.Length0)
  }

  /** Rows `0 .. k - 1` of `A`. */
  ghost function RowsUpTo(A: array2<real>, k: nat): (M: seq<seq<real>>)
    requires k <= A.Length0
    reads A
    ensures |M| == k
    ensures forall r :: 0 <= r < k ==> M[r] == RowUpTo(A, r, A.Length1)
  {
    if k == 0 then [] else RowsUpTo(A, k - 1) + [RowUpTo(A, k - 1, A.Length1)]
  }

  /** Entries `0 .. k - 1` of row `r` of `A`. */
  ghost function RowUpTo(A: array2<real>, r: nat, k: nat): (u: seq<real>)
    requires r < A.Length0 && k <= A.Length1
    reads A
    ensures |u| == k
    ensures forall c :: 0 <= c < k ==> u[c] == A[r, c]
  {
    if k == 0 then [] else RowUpTo(A, r, k - 1) + [A[r, k - 1]]
  }

  /** Scaling every term scales the sum. */
  lemma {:induction false} SumScale(s: seq<real>, t: seq<real>, a: real)
    requires |s| == |t| && forall k :: 0 <= k < |s| ==> s[k] == a * t[k]
    ensures Sum(s) == a * Sum(t)
  {
    if s != [] {
      SumScale(s[..|s| - 1], t[..|t| - 1], a);
    }
  }

  /** Subtracting `f` times one sequence from another, term by term, subtracts `f` times its sum. */
  lemma {:induction false} SumSubtract(s: seq<real>, t: seq<real>, q: seq<real>, f: real)
    requires |s| == |t| == |q| && forall k :: 0 <= k < |s| ==> s[k] == t[k] - f * q[k]
    ensures Sum(s) == Sum(t) - f * Sum(q)
  {
    if s != [] {
      var n := |s| - 1;
      SumSubtract(s[..n], t[..n], q[..n], f);
      assert Sum(s) == Sum(s[..n]) + s[n];
      assert Sum(t) == Sum(t[..n]) + t[n];
      assert Sum(q) == Sum(q[..n]) + q[n];
      assert f * Sum(q) == f * Sum(q[..n]) + f * q[n];
    }
  }

  /** A sum with a single non-zero term `v` at position `r`. */
  lemma {:induction false} SumSingle(s: seq<real>, r: nat, v: real)
    requires r < |s| && forall k :: 0 <= k < |s| ==> s[k] == (if k == r then v else 0.0)
    ensures Sum(s) == v
  {
    var n := |s| - 1;
    if r == n {
      SumScale(s[..n], s[..n], 0.0);
    } else {
      SumSingle(s[..n], r, v);
    }
  }

  /** Scaling the first argument scales the dot product. */
  lemma DotScale(w: seq<real>, u: seq<real>, a: real, x: seq<real>)
    requires |w| == |u| == |x|
    requires forall c :: 0 <= c < |w| ==> w[c] == a * u[c]
    ensures Dot(w, x) == a * Dot(u, x)
  {
    var pw, pu := Products(w, x), Products(u, x);
    forall k | 0 <= k < |pw|
      ensures pw[k] == a * pu[k]
    {
      assert w[k] * x[k] == a * (u[k] * x[k]);
    }
    SumScale(pw, pu, a);
  }

  /** Subtracting a multiple of `v` from `u` subtracts the same multiple of its dot product. */
  lemma DotSubtract(w: seq<real>, u: seq<real>, v: seq<real>, f: real, x: seq<real>)
    requires |w| == |u| == |v| == |x|
    requires forall c :: 0 <= c < |w| ==> w[c] == u[c] - f * v[c]
    ensures Dot(w, x) == Dot(u, x) - f * Dot(v, x)
  {
    var pw, pu, pv := Products(w, x), Products(u, x), Products(v, x);
    forall k | 0 <= k < |pw|
      ensures pw[k] == pu[k] - f * pv[k]
    {
      assert w[k] * x[k] == u[k] * x[k] - f * (v[k] * x[k]);
    }
    SumSubtract(pw, pu, pv, f);
  }

  /** The unit vector `e_r` picks entry `r`. */
  lemma DotUnit(u: seq<real>, x: seq<real>, r: nat)
    requires |u| == |x| && r < |u|
    requires forall c :: 0 <= c < |u| ==> u[c] == (if c == r then 1.0 else 0.0)
    ensures Dot(u, x) == x[r]
  {
    var p := Products(u, x);
    forall k | 0 <= k < |p|
      ensures p[k] == (if k == r then x[r] else 0.0)
    {
    }
    SumSingle(p, r, x[r]);
  }

  /** Exchanging two equations keeps the solutions. */
  lemma SwapKeepsSolutions(M: seq<seq<real>>, y: seq<real>, M': seq<seq<real>>, y': seq<real>, i: nat, piv: nat)
    requires |M| == |y| == |M'| == |y'| && i < |M| && piv < |M|
    requires forall r :: 0 <= r < |M| ==> M'[r] == M[Swapped(r, i, piv)] && y'[r] == y[Swapped(r, i, piv)]
    ensures SameSolutions(M, y, M', y')
  {
    forall x
      ensures Solves(M, y, x) <==> Solves(M', y', x)
    {
      if Solves(M', y', x) {
        forall r | 0 <= r < |M|
          ensures |M[r]| == |x| && Dot(M[r], x) == y[r]
        {
          assert Swapped(Swapped(r, i, piv), i, piv) == r;
        }
      }
    }
  }

  /** The hypotheses of one pivot step: row `i` scaled by `inv`, then cleared from the others. */
  ghost predicate PivotStep(M: seq<seq<real>>, y: seq<real>, M': seq<seq<real>>, y': seq<real>, i: nat, inv: real)
  {
    && |M| == |y| == |M'| == |y'| && i < |M| && i < |M[i]| && inv != 0.0
    && (forall r :: 0 <= r < |M| ==> |M[r]| == |M'[r]| == |M[i]|)
    && (forall c :: 0 <= c < i ==> M[i][c] == 0.0)
    && LeftColumnsKept(M, M', i)
    && PivotRowScaled(M, y, M', y', i, inv)
    && OtherRowsCleared(M, y, M', y', i)
  }

  /** The columns left of `i` are untouched. */
  ghost predicate LeftColumnsKept(M: seq<seq<real>>, M': seq<seq<real>>, i: nat)
    requires |M| == |M'| && forall r :: 0 <= r < |M| ==> i <= |M[r]| && i <= |M'[r]|
  {
    forall r, c :: 0 <= r < |M| && 0 <= c < i ==> M'[r][c] == M[r][c]
  }

  /** Equation `i` is scaled by `inv` from the diagonal on. */
  ghost predicate PivotRowScaled(M: seq<seq<real>>, y: seq<real>, M': seq<seq<real>>, y': seq<real>, i: nat, inv: real)
    requires |M| == |y| == |M'| == |y'| && i < |M| && |M'[i]| == |M[i]|
  {
    && (forall c :: i <= c < |M[i]| ==> M'[i][c] == M[i][c] * inv)
    && y'[i] == y[i] * inv
  }

  /** Every other equation loses `M[r][i]` times the new equation `i`, from the diagonal on. */
  ghost predicate OtherRowsCleared(M: seq<seq<real>>, y: seq<real>, M': seq<seq<real>>, y': seq<real>, i: nat)
    requires |M| == |y| == |M'| == |y'| && i < |M| && i < |M[i]|
    requires forall r :: 0 <= r < |M| ==> |M[r]| == |M'[r]| == |M[i]|
  {
    && (forall r, c :: 0 <= r < |M| && r != i && i <= c < |M[i]| ==> M'[r][c] == M[r][c] - M[r][i] * M'[i][c])
    && (forall r :: 0 <= r < |M| && r != i ==> y'[r] == y[r] - M[r][i] * y'[i])
  }

  /** How a pivot step changes each equation's left-hand side at a point `x`. */
  lemma PivotStepDots(M: seq<seq<real>>, y: seq<real>, M': seq<seq<real>>, y': seq<real>, i: nat, inv: real, x: seq<real>)
    requires PivotStep(M, y, M', y', i, inv) && |x| == |M[i]|
    ensures Dot(M'[i], x) == inv * Dot(M[i], x)
    ensures forall r :: 0 <= r < |M| && r != i ==> Dot(M'[r], x) == Dot(M[r], x) - M[r][i] * Dot(M'[i], x)
  {
    PivotStepPivotDot(M, y, M', y', i, inv, x);
    forall r | 0 <= r < |M| && r != i
      ensures Dot(M'[r], x) == Dot(M[r], x) - M[r][i] * Dot(M'[i], x)
    {
      PivotStepOtherDot(M, y, M', y', i, inv, x, r);
    }
  }

  lemma PivotStepPivotDot(M: seq<seq<real>>, y: seq<real>, M': seq<seq<real>>, y': seq<real>, i: nat, inv: real, x: seq<real>)
    requires PivotStep(M, y, M', y', i, inv) && |x| == |M[i]|
    ensures Dot(M'[i], x) == inv * Dot(M[i], x)
  {
    assert forall c :: 0 <= c < i ==> M'[i][c] == 0.0 && M[i][c] == 0.0;
    PivotRowDot(M[i], M'[i], inv, i, x);
  }

  lemma PivotStepOtherDot(M: seq<seq<real>>, y: seq<real>, M': seq<seq<real>>, y': seq<real>, i: nat, inv: real, x: seq<real>, r: nat)
    requires PivotStep(M, y, M', y', i, inv) && |x| == |M[i]| && r < |M| && r != i
    ensures Dot(M'[r], x) == Dot(M[r], x) - M[r][i] * Dot(M'[i], x)
  {
    var w, u, v, f := M'[r], M[r], M'[i], M[r][i];
    assert forall c :: 0 <= c < i ==> w[c] == u[c] && v[c] == 0.0;
    assert forall c :: i <= c < |w| ==> w[c] == u[c] - f * v[c];
    ClearedRowDot(w, u, v, f, i, x);
  }

  /** The pivot row, zero left of the diagonal and scaled from it on, scales its dot product. */
  lemma PivotRowDot(u: seq<real>, u': seq<real>, inv: real, i: nat, x: seq<real>)
    requires |u| == |u'| == |x| && i <= |u|
    requires forall c :: 0 <= c < i ==> u[c] == 0.0 && u'[c] == 0.0
    requires forall c :: i <= c < |u| ==> u'[c] == u[c] * inv
    ensures Dot(u', x) == inv * Dot(u, x)
  {
    forall c | 0 <= c < |u|
      ensures u'[c] == inv * u[c]
    {
    }
    DotScale(u', u, inv, x);
  }

  /** A cleared row, kept left of the diagonal where the pivot row is zero, subtracts `f` times its dot product. */
  lemma ClearedRowDot(w: seq<real>, u: seq<real>, v: seq<real>, f: real, i: nat, x: seq<real>)
    requires |w| == |u| == |v| == |x| && i <= |w|
    requires forall c :: 0 <= c < i ==> w[c] == u[c] && v[c] == 0.0
    requires forall c :: i <= c < |w| ==> w[c] == u[c] - f * v[c]
    ensures Dot(w, x) == Dot(u, x) - f * Dot(v, x)
  {
    forall c | 0 <= c < |w|
      ensures w[c] == u[c] - f * v[c]
    {
    }
    DotSubtract(w, u, v, f, x);
  }

  /** A pivot step keeps whether `x` is a solution. */
  lemma PivotSolutionsAt(M: seq<seq<real>>, y: seq<real>, M': seq<seq<real>>, y': seq<real>, i: nat, inv: real, x: seq<real>)
    requires PivotStep(M, y, M', y', i, inv)
    ensures Solves(M, y, x) <==> Solves(M', y', x)
  {
    if |x| == |M[i]| {
      PivotStepDots(M, y, M', y', i, inv, x);
      SolutionsFromDots(M, y, M', y', i, inv, x);
    }
  }

  /** Whether `x` solves the system is decided by the dot products, related as a pivot step relates them. */
  lemma SolutionsFromDots(M: seq<seq<real>>, y: seq<real>, M': seq<seq<real>>, y': seq<real>, i: nat, inv: real, x: seq<real>)
    requires |M| == |y| == |M'| == |y'| && i < |M| && i < |x| && inv != 0.0
    requires forall r :: 0 <= r < |M| ==> |M[r]| == |M'[r]| == |x|
    requires y'[i] == y[i] * inv && Dot(M'[i], x) == inv * Dot(M[i], x)
    requires forall r :: 0 <= r < |M| && r != i ==> y'[r] == y[r] - M[r][i] * y'[i]
    requires forall r :: 0 <= r < |M| && r != i ==> Dot(M'[r], x) == Dot(M[r], x) - M[r][i] * Dot(M'[i], x)
    ensures Solves(M, y, x) <==> Solves(M', y', x)
  {
    var di, di' := Dot(M[i], x), Dot(M'[i], x);
    if Solves(M', y', x) {
      ScaledEquation(di, di', y[i], y'[i], inv);
      forall r | 0 <= r < |M| && r != i
        ensures Dot(M[r], x) == y[r]
      {
        RowFromPivot(Dot(M[r], x), Dot(M'[r], x), y[r], y'[r], M[r][i], di', y'[i]);
      }
    }
    if Solves(M, y, x) {
      ScaledEquation(di, di', y[i], y'[i], inv);
      forall r | 0 <= r < |M| && r != i
        ensures Dot(M'[r], x) == y'[r]
      {
        RowFromPivot(Dot(M[r], x), Dot(M'[r], x), y[r], y'[r], M[r][i], di', y'[i]);
      }
    }
  }

  /** The pivot equation holds before the step exactly when it holds after. */
  lemma ScaledEquation(d: real, d': real, yi: real, yi': real, inv: real)
    requires inv != 0.0 && d' == inv * d && yi' == yi * inv
    ensures d == yi <==> d' == yi'
  {
    if d' == yi' {
      assert inv * d == inv * yi;
    }
  }

  /** One cleared equation holds before the step exactly when it holds after. */
  lemma RowFromPivot(d: real, d': real, yr: real, yr': real, f: real, di': real, yi': real)
    requires d' == d - f * di' && yr' == yr - f * yi' && di' == yi'
    ensures d == yr <==> d' == yr'
  {
  }

  /**
   * Scaling equation `i` by `inv != 0` and subtracting multiples of the
   * scaled equation from every other one keeps the solutions. Only the
   * columns from `i` on are touched, which is the whole row when equation
   * `i` is zero to the left of the diagonal.
   */
  lemma PivotKeepsSolutions(M: seq<seq<real>>, y: seq<real>, M': seq<seq<real>>, y': seq<real>, i: nat, inv: real)
    requires PivotStep(M, y, M', y', i, inv)
    ensures SameSolutions(M, y, M', y')
  {
    forall x
      ensures Solves(M, y, x) <==> Solves(M', y', x)
    {
      PivotSolutionsAt(M, y, M', y', i, inv, x);
    }
  }

  /** When every column of `A` is a unit column, every `x` solves `A x = x`. */
  lemma IdentitySolves(A: array2<real>, x: seq<real>)
    requires A.Length0 == A.Length1 == |x|
    requires forall p :: 0 <= p < A.Length0 ==> UnitColumn(A, p)
    ensures Solves(Rows(A), x, x)
  {
    var M := Rows(A);
    forall r | 0 <= r < |M|
      ensures Dot(M[r], x) == x[r]
    {
      forall c | 0 <= c < |x|
        ensures M[r][c] == (if c == r then 1.0 else 0.0)
      {
        assert UnitColumn(A, c);
      }
      DotUnit(M[r], x, r);
    }
  }

  /**
   * The pivot search: the first row at or below `i` whose entry in column
   * `i` has the largest magnitude.
   */
  method PickPivot(A: array2<real>, i: nat) returns (piv: nat)
    requires i < A.Length0 && i < A.Length1
    ensures i <= piv < A.Length0
    ensures forall r :: i <= r < piv ==> Abs(A[r, i]) < Abs(A[piv, i])
    ensures forall r :: piv < r < A.Length0 ==> Abs(A[r, i]) <= Abs(A[piv, i])
  {
    piv := i;
    for r := i + 1 to A.Length0
      invariant i <= piv < r
      invariant forall r' :: i <= r' < piv ==> Abs(A[r', i]) < Abs(A[piv, i])
      invariant forall r' :: piv < r' < r ==> Abs(A[r', i]) <= Abs(A[piv, i])
    {
      if Abs(A[r, i]) > Abs(A[piv, i]) {
        piv := r;
      }
    }
  }

  /** Row `r` of a matrix after rows `i` and `piv` trade places. */
  function Swapped(r: nat, i: nat, piv: nat): nat
  {
    if r == i then piv else if r == piv then i else r
  }

  /** Rows `i` and `piv` of `A` trade places, and so do entries `i` and `piv` of `b`. */
  method SwapRows(A: array2<real>, b: array<real>, i: nat, piv: nat)
    requires i < A.Length0 && piv < A.Length0 && A.Length0 == b.Length
    modifies A, b
    ensures forall r, c :: 0 <= r < A.Length0 && 0 <= c < A.Length1 ==> A[r, c] == old(A[Swapped(r, i, piv), c])
    ensures forall r :: 0 <= r < b.Length ==> b[r] == old(b[Swapped(r, i, piv)])
  {
    for c := 0 to A.Length1
      invariant forall r, c' :: 0 <= r < A.Length0 && 0 <= c' < A.Length1 ==>
                  A[r, c'] == (if c' < c then old(A[Swapped(r, i, piv), c']) else old(A[r, c']))
      invariant forall r :: 0 <= r < b.Length ==> b[r] == old(b[r])
    {
      A[i, c], A[piv, c] := A[piv, c], A[i, c];
    }
    b[i], b[piv] := b[piv], b[i];
  }

  /** `XtX[i][c] *= invd` for `c >= i`, then `Xty[i] *= invd`. */
  method ScaleRow(A: array2<real>, b: array<real>, i: nat, invd: real)
    requires i < A.Length0 && i < A.Length1 && A.Length0 == b.Length
    modifies A, b
    ensures forall r, c :: 0 <= r < A.Length0 && 0 <= c < A.Length1 ==>
              A[r, c] == (if r == i && i <= c then old(A[r, c]) * invd else old(A[r, c]))
    ensures forall r :: 0 <= r < b.Length ==> b[r] == (if r == i then old(b[r]) * invd else old(b[r]))
  {
    for c := i to A.Length1
      invariant forall r, c' :: 0 <= r < A.Length0 && 0 <= c' < A.Length1 ==>
                  A[r, c'] == (if r == i && i <= c' < c then old(A[r, c']) * invd else old(A[r, c']))
      invariant forall r :: 0 <= r < b.Length ==> b[r] == old(b[r])
    {
      A[i, c] := A[i, c] * invd;
    }
    b[i] := b[i] * invd;
  }

  /** `XtX[row][c] -= f XtX[i][c]` for `c >= i`, then `Xty[row] -= f Xty[i]`. */
  method SubtractRow(A: array2<real>, b: array<real>, row: nat, i: nat, f: real)
    requires row < A.Length0 && i < A.Length0 && i < A.Length1 && row != i && A.Length0 == b.Length
    modifies A, b
    ensures forall r, c :: 0 <= r < A.Length0 && 0 <= c < A.Length1 ==>
              A[r, c] == (if r == row && i <= c then old(A[r, c]) - f * old(A[i, c]) else old(A[r, c]))
    ensures forall r :: 0 <= r < b.Length ==> b[r] == (if r == row then old(b[r]) - f * old(b[i]) else old(b[r]))
  {
    for c := i to A.Length1
      invariant forall r, c' :: 0 <= r < A.Length0 && 0 <= c' < A.Length1 ==>
                  A[r, c'] == (if r == row && i <= c' < c then old(A[r, c']) - f * old(A[i, c']) else old(A[r, c']))
      invariant forall r :: 0 <= r < b.Length ==> b[r] == old(b[r])
    {
      A[row, c] := A[row, c] - f * A[i, c];
    }
    b[row] := b[row] - f * b[i];
  }

  /**
   * Normalising pivot row `i` by `1 / diag` and clearing column `i` from every
   * other row: afterwards column `i` is `e_i`, and the columns to the left of
   * `i` are as they were.
   */
  method EliminateColumn(A: array2<real>, b: array<real>, i: nat)
    requires A.Length0 == A.Length1 == b.Length && i < A.Length0
    requires PivotTol <= Abs(A[i, i])
    modifies A, b
    ensures UnitColumn(A, i)
    ensures forall r, c :: 0 <= r < A.Length0 && 0 <= c < i ==> A[r, c] == old(A[r, c])
    ensures forall c :: i <= c < A.Length1 ==> A[i, c] == old(A[i, c]) * (1.0 / old(A[i, i]))
    ensures forall r, c :: 0 <= r < A.Length0 && r != i && i <= c < A.Length1 ==>
              A[r, c] == old(A[r, c]) - old(A[r, i]) * A[i, c]
    ensures b[i] == old(b[i]) * (1.0 / old(A[i, i]))
    ensures forall r :: 0 <= r < b.Length && r != i ==> b[r] == old(b[r]) - old(A[r, i]) * b[i]
  {
    var diag := A[i, i];
    var invd := 1.0 / diag;
    ScaleRow(A, b, i, invd);
    ClearColumn(A, b, i);
  }

  /** The rows `M` and right-hand side `y` of a system of the shape of `A` and `b`. */
  ghost predicate Snapshot(A: array2<real>, b: array<real>, M: seq<seq<real>>, y: seq<real>)
  {
    |M| == A.Length0 && |y| == b.Length && forall r :: 0 <= r < |M| ==> |M[r]| == A.Length1
  }

  /** The columns left of `i` after `EliminateColumn`, read back on the rows `M` before it and after it. */
  lemma LeftColumnsOfRows(A: array2<real>, b: array<real>, M: seq<seq<real>>, y: seq<real>, i: nat)
    requires Snapshot(A, b, M, y) && i <= A.Length1
    requires forall r, c :: 0 <= r < A.Length0 && 0 <= c < i ==> A[r, c] == M[r][c]
    ensures LeftColumnsKept(M, Rows(A), i)
  {
  }

  /** The pivot row after `EliminateColumn`, read back on the rows `M` before it and after it. */
  lemma PivotRowOfRows(A: array2<real>, b: array<real>, M: seq<seq<real>>, y: seq<real>, i: nat)
    requires Snapshot(A, b, M, y) && A.Length0 == A.Length1 == b.Length && i < A.Length0
    requires M[i][i] != 0.0
    requires forall c :: i <= c < A.Length1 ==> A[i, c] == M[i][c] * (1.0 / M[i][i])
    requires b[i] == y[i] * (1.0 / M[i][i])
    ensures PivotRowScaled(M, y, Rows(A), b[..], i, 1.0 / M[i][i])
  {
  }

  /** The other rows after `EliminateColumn`, read back on the rows `M` before it and after it. */
  lemma OtherRowsOfRows(A: array2<real>, b: array<real>, M: seq<seq<real>>, y: seq<real>, i: nat)
    requires Snapshot(A, b, M, y) && A.Length0 == A.Length1 == b.Length && i < A.Length0
    requires forall r, c :: 0 <= r < A.Length0 && r != i && i <= c < A.Length1 ==>
               A[r, c] == M[r][c] - M[r][i] * A[i, c]
    requires forall r :: 0 <= r < b.Length && r != i ==> b[r] == y[r] - M[r][i] * b[i]
    ensures OtherRowsCleared(M, y, Rows(A), b[..], i)
  {
    var M', y' := Rows(A), b[..];
    forall r, c | 0 <= r < |M| && r != i && i <= c < |M[i]|
      ensures M'[r][c] == M[r][c] - M[r][i] * M'[i][c]
    {
      assert A[r, c] == M[r][c] - M[r][i] * A[i, c];
    }
  }

  /**
   * `EliminateColumn` on a row that is zero left of the diagonal keeps the
   * solutions of the system.
   */
  method PivotColumn(A: array2<real>, b: array<real>, i: nat)
    requires A.Length0 == A.Length1 == b.Length && i < A.Length0
    requires PivotTol <= Abs(A[i, i])
    modifies A, b
    ensures UnitColumn(A, i)
    ensures forall r, c :: 0 <= r < A.Length0 && 0 <= c < i ==> A[r, c] == old(A[r, c])
    ensures (forall c :: 0 <= c < i ==> old(A[i, c]) == 0.0) ==> SameSolutions(old(Rows(A)), old(b[..]), Rows(A), b[..])
  {
    ghost var M, y := Rows(A), b[..];
    EliminateColumn(A, b, i);
    EliminatedKeepsSolutions(A, b, M, y, i);
  }

  /** The effect of `EliminateColumn` on a row that is zero left of the diagonal keeps the solutions. */
  lemma EliminatedKeepsSolutions(A: array2<real>, b: array<real>, M: seq<seq<real>>, y: seq<real>, i: nat)
    requires Snapshot(A, b, M, y) && A.Length0 == A.Length1 == b.Length && i < A.Length0
    requires M[i][i] != 0.0
    requires forall r, c :: 0 <= r < A.Length0 && 0 <= c < i ==> A[r, c] == M[r][c]
    requires forall c :: i <= c < A.Length1 ==> A[i, c] == M[i][c] * (1.0 / M[i][i])
    requires forall r, c :: 0 <= r < A.Length0 && r != i && i <= c < A.Length1 ==>
               A[r, c] == M[r][c] - M[r][i] * A[i, c]
    requires b[i] == y[i] * (1.0 / M[i][i])
    requires forall r :: 0 <= r < b.Length && r != i ==> b[r] == y[r] - M[r][i] * b[i]
    ensures (forall c :: 0 <= c < i ==> M[i][c] == 0.0) ==> SameSolutions(M, y, Rows(A), b[..])
  {
    if forall c :: 0 <= c < i ==> M[i][c] == 0.0 {
      var inv := 1.0 / M[i][i];
      assert inv * M[i][i] == 1.0;
      LeftColumnsOfRows(A, b, M, y, i);
      PivotRowOfRows(A, b, M, y, i);
      OtherRowsOfRows(A, b, M, y, i);
      PivotKeepsSolutions(M, y, Rows(A), b[..], i, inv);
    }
  }

  /** Subtracting `XtX[row][i]` times pivot row `i` from every other row. */
  method ClearColumn(A: array2<real>, b: array<real>, i: nat)
    requires A.Length0 == A.Length1 == b.Length && i < A.Length0
    requires A[i, i] == 1.0
    modifies A, b
    ensures forall r, c :: 0 <= r < A.Length0 && 0 <= c < A.Length1 ==>
              A[r, c] == (if r != i && i <= c then old(A[r, c]) - old(A[r, i]) * old(A[i, c]) else old(A[r, c]))
    ensures forall r :: 0 <= r < b.Length ==> b[r] == (if r != i then old(b[r]) - old(A[r, i]) * old(b[i]) else old(b[r]))
  {
    var n := A.Length0;
    for row := 0 to n
      invariant forall r, c :: 0 <= r < n && 0 <= c < n ==>
                  A[r, c] == (if r < row && r != i && i <= c then old(A[r, c]) - old(A[r, i]) * old(A[i, c]) else old(A[r, c]))
      invariant forall r :: 0 <= r < n ==> b[r] == (if r < row && r != i then old(b[r]) - old(A[r, i]) * old(b[i]) else old(b[r]))
    {
      if row != i {
        var f := A[row, i];
        SubtractRow(A, b, row, i, f);
      }
    }
  }

  /**
   * The elimination loop. Each column is pivoted, or skipped when its pivot
   * is below the tolerance. Afterwards every pivoted column is a unit column
   * and every skipped column is negligible on and below the diagonal.
   */
  method Eliminate(A: array2<real>, b: array<real>) returns (ghost pivoted: set<nat>)
    requires A.Length0 == A.Length1 == b.Length
    modifies A, b
    ensures forall p :: p in pivoted ==> p < A.Length0
    ensures forall p :: 0 <= p < A.Length0 ==>
              (p in pivoted ==> UnitColumn(A, p)) && (p !in pivoted ==> NegligibleBelow(A, p))
    ensures (forall p :: 0 <= p < A.Length0 ==> p in pivoted) ==> Solves(old(Rows(A)), old(b[..]), b[..])
  {
    var n := A.Length0;
    ghost var M0, y0 := Rows(A), b[..];
    ghost var ready := true;
    pivoted := {};
    for i := 0 to n
      invariant forall p :: p in pivoted ==> p < i
      invariant forall p :: 0 <= p < i ==> (p in pivoted ==> UnitColumn(A, p)) && (p !in pivoted ==> NegligibleBelow(A, p))
      invariant ready <==> forall p :: 0 <= p < i ==> p in pivoted
      invariant ready ==> SameSolutions(M0, y0, Rows(A), b[..])
    {
      ghost var M1, y1 := Rows(A), b[..];
      var done := EliminationStep(A, b, i, pivoted, ready);
      if done {
        if ready {
          SameSolutionsTransitive(M0, y0, M1, y1, Rows(A), b[..]);
        }
        pivoted := pivoted + {i};
      } else {
        assert i !in pivoted;
        ready := false;
      }
    }
    if ready {
      IdentitySolves(A, b[..]);
    }
  }

  /**
   * One pass of the elimination loop, for column `i`: the pivot search,
   * the row exchange, and the pivot step unless the pivot is negligible.
   * When every earlier column was pivoted too, the system keeps its solutions.
   */
  method EliminationStep(A: array2<real>, b: array<real>, i: nat, ghost pivoted: set<nat>, ghost ready: bool)
    returns (done: bool)
    requires A.Length0 == A.Length1 == b.Length && i < A.Length0
    requires forall p :: 0 <= p < i ==> (p in pivoted ==> UnitColumn(A, p)) && (p !in pivoted ==> NegligibleBelow(A, p))
    requires ready ==> forall p :: 0 <= p < i ==> p in pivoted
    modifies A, b
    ensures forall p :: 0 <= p < i ==> (p in pivoted ==> UnitColumn(A, p)) && (p !in pivoted ==> NegligibleBelow(A, p))
    ensures done ==> UnitColumn(A, i)
    ensures !done ==> NegligibleBelow(A, i)
    ensures done && ready ==> SameSolutions(old(Rows(A)), old(b[..]), Rows(A), b[..])
  {
    ghost var M1, y1 := Rows(A), b[..];
    BringPivotUp(A, b, i, pivoted, ready);
    var diag := A[i, i];
    if Abs(diag) < PivotTol {
      return false;
    }
    ghost var M2, y2 := Rows(A), b[..];
    PivotColumn(A, b, i);
    if ready {
      SameSolutionsTransitive(M1, y1, M2, y2, Rows(A), b[..]);
    }
    return true;
  }

  /**
   * The pivot search and the row exchange: the largest entry on or below
   * the diagonal of column `i` moves to the diagonal.
   */
  method BringPivotUp(A: array2<real>, b: array<real>, i: nat, ghost pivoted: set<nat>, ghost ready: bool)
    requires A.Length0 == A.Length1 == b.Length && i < A.Length0
    requires forall p :: 0 <= p < i ==> (p in pivoted ==> UnitColumn(A, p)) && (p !in pivoted ==> NegligibleBelow(A, p))
    requires ready ==> forall p :: 0 <= p < i ==> p in pivoted
    modifies A, b
    ensures forall p :: 0 <= p < i ==> (p in pivoted ==> UnitColumn(A, p)) && (p !in pivoted ==> NegligibleBelow(A, p))
    ensures forall r :: i <= r < A.Length0 ==> Abs(A[r, i]) <= Abs(A[i, i])
    ensures ready ==> forall c :: 0 <= c < i ==> A[i, c] == 0.0
    ensures SameSolutions(old(Rows(A)), old(b[..]), Rows(A), b[..])
  {
    var piv := PickPivot(A, i);
    ghost var M1, y1 := Rows(A), b[..];
    if ready {
      forall c | 0 <= c < i
        ensures A[piv, c] == 0.0
      {
        assert UnitColumn(A, c);
      }
    }
    if piv != i {
      SwapRows(A, b, i, piv);
      SwapKeepsSolutions(M1, y1, Rows(A), b[..], i, piv);
    } else {
      assert Rows(A) == M1 && b[..] == y1;
    }
  }

  // ---------------------------------------------------------------------
  // Continuation value and exercise
  // ---------------------------------------------------------------------

  /** `beta[0] + beta[1] s + ... + beta[k-1] s^(k-1)`, summed in index order. */
  function PolyUpTo(beta: seq<real>, s: real, k: nat): real
    requires k <= |beta|
  {
    if k == 0 then 0.0 else PolyUpTo(beta, s, k - 1) + beta[k - 1] * Pow(s, k - 1)
  }

  /** The fitted continuation value at spot `s`. */
  function Poly(beta: seq<real>, s: real): real
  {
    PolyUpTo(beta, s, |beta|)
  }

  /** Peeling off the constant term. */
  lemma {:induction false} PolyUpToShift(beta: seq<real>, s: real, k: nat)
    requires k + 1 <= |beta|
    ensures PolyUpTo(beta, s, k + 1) == beta[0] + s * PolyUpTo(beta[1..], s, k)
  {
    if k > 0 {
      PolyUpToShift(beta, s, k - 1);
      var rest := PolyUpTo(beta[1..], s, k - 1);
      assert beta[1..][k - 1] == beta[k];
      assert Pow(s, k) == Pow(s, k - 1) * s;
      assert s * (rest + beta[k] * Pow(s, k - 1)) == s * rest + beta[k] * (Pow(s, k - 1) * s);
    }
  }

  /** The power-sum loop and Horner's rule evaluate the same polynomial. */
  lemma {:induction false} PolyIsHorner(beta: seq<real>, s: real)
    ensures Poly(beta, s) == Horner(beta, s)
    decreases |beta|
  {
    if beta != [] {
      PolyUpToShift(beta, s, |beta| - 1);
      PolyIsHorner(beta[1..], s);
    }
  }

  /** The continuation loop: `cont += beta[k] * pow; pow *= s`. */
  method ContinuationValue(beta: seq<real>, s: real) returns (cont: real)
    ensures cont == Poly(beta, s)
  {
    cont := 0.0;
    var pow := 1.0;
    for k := 0 to |beta|
      invariant cont == PolyUpTo(beta, s, k) && pow == Pow(s, k)
    {
      cont := cont + beta[k] * pow;
      pow := pow * s;
    }
  }

  /**
   * The exercise loop of one step: every path's cashflow becomes its
   * `ExerciseValue` against the fitted continuation value.
   */
  method Exercise(row: seq<real>, K: real, beta: seq<real>, disc: real, CF: array<real>)
    requires CF.Length == |row|
    modifies CF
    ensures forall j :: 0 <= j < CF.Length ==>
              CF[j] == ExerciseValue(old(CF[j]), Payoff(row[j], K, Put), Poly(beta, row[j]), disc)
  {
    for j := 0 to CF.Length
      invariant forall j' :: 0 <= j' < CF.Length ==>
                  CF[j'] == (if j' < j then ExerciseValue(old(CF[j']), Payoff(row[j'], K, Put), Poly(beta, row[j']), disc)
                             else old(CF[j']))
    {
      var payoff := Max(K - row[j], 0.0);
      if payoff <= 0.0 {
        continue;
      }
      var s := row[j];
      var cont := ContinuationValue(beta, s);
      if payoff > cont {
        CF[j] := payoff;
      } else {
        CF[j] := CF[j] * disc;
      }
    }
  }

  /** The fewest in-the-money paths a step needs to be processed. */
  const MinItm: nat := 5

  /**
   * One step of the backward induction at row `row`. With fewer than five
   * in-the-money paths nothing changes; otherwise the regression gives
   * `max(1, d) + 1` coefficients and every path's cashflow becomes its
   * `ExerciseValue` against them.
   */
  method BackwardStep(m: Math, row: seq<real>, K: real, r: real, dt: real, polyDegree: int, CF: array<real>)
    returns (itm: seq<nat>, beta: seq<real>, ghost pivoted: set<nat>)
    requires CF.Length == |row|
    modifies CF
    ensures forall k :: 0 <= k < |itm| ==> itm[k] < |row| && InTheMoney(K, row[itm[k]])
    ensures forall j :: 0 <= j < |row| && InTheMoney(K, row[j]) ==> j in itm
    ensures |itm| < MinItm ==> beta == [] && forall j :: 0 <= j < CF.Length ==> CF[j] == old(CF[j])
    ensures MinItm <= |itm| ==> |beta| == BasisSize(polyDegree)
    ensures MinItm <= |itm| ==>
              forall j :: 0 <= j < CF.Length ==>
                CF[j] == ExerciseValue(old(CF[j]), Payoff(row[j], K, Put), Poly(beta, row[j]), StepDiscount(m, r, dt))
    ensures MinItm <= |itm| && (forall p :: 0 <= p < BasisSize(polyDegree) ==> p in pivoted) ==>
              Solves(GramMatrix(Picks(row, itm), BasisSize(polyDegree)),
                     MomentVector(Picks(row, itm), Picks(old(CF[..]), itm), StepDiscount(m, r, dt), BasisSize(polyDegree)),
                     beta)
  {
    itm := ItmPaths(row, K);
    if |itm| < MinItm {
      return itm, [], {};
    }
    var cols := BasisSize(polyDegree);
    var disc := StepDiscount(m, r, dt);
    var XtX, Xty := NormalEquations(row, CF, itm, disc, cols);
    NormalEquationsRows(XtX, Xty, Picks(row, itm), Picks(CF[..], itm), disc, cols);
    pivoted := Eliminate(XtX, Xty);
    beta := Xty[..];
    Exercise(row, K, beta, disc, CF);
  }

  // ---------------------------------------------------------------------
  // The pricer
  // ---------------------------------------------------------------------

  /**
   * `lsm_american_put`. With no paths the mean is 0/0 (None). Otherwise the
   * price is the mean of cashflows that stay non-negative throughout; with no
   * time steps every path sits at `S0` and the price is the put payoff there.
   * The time step `T / steps` is infinite or NaN for zero steps and then
   * never used; it is 0 here.
   */
  method LsmAmericanPut(m: Math, S0: real, K: real, r: real, T: real, sigma: real, p: LsmParams,
                        engineOf: bv64 -> Engine)
    returns (price: Option<real>)
    requires 0 <= p.steps && 0 <= p.paths
    ensures price.None? <==> p.paths == 0
    ensures price.Some? ==> 0.0 <= price.value
    ensures p.steps == 0 && 0 < p.paths ==> price == Some(Payoff(S0, K, Put))
  {
    var N, M := p.steps, p.paths;
    var dt := if N == 0 then 0.0 else T / N as real;
    var rng := new Rng(engineOf(p.seed));
    var drift := (r - 0.5 * sigma * sigma) * dt;
    var vol := sigma * m.sqrt(dt);
    var S := SimulatePaths(m, S0, N, M, drift, vol, rng);
    var CF := MaturityCashflows(S[N], K);
    var n := N - 1;
    while n >= 1
      invariant n < N || N == 0
      invariant CF.Length == M
      invariant forall j :: 0 <= j < M ==> 0.0 <= CF[j]
      invariant N == 0 ==> forall j :: 0 <= j < M ==> CF[j] == Payoff(S0, K, Put)
    {
      label Step:
      var itm, beta, _ := BackwardStep(m, S[n], K, r, dt, p.polyDegree, CF);
      forall j | 0 <= j < M
        ensures 0.0 <= CF[j]
      {
        ExerciseValueFacts(old@Step(CF[j]), Payoff(S[n][j], K, Put), Poly(beta, S[n][j]), StepDiscount(m, r, dt));
      }
      n := n - 1;
    }
    price := MeanCashflow(CF);
    if N == 0 && 0 < M {
      Stats.MeanBetween(CF[..], Payoff(S0, K, Put), Payoff(S0, K, Put));
    }
  }
}
