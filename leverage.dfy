/**
 * `include/slv_calibration.hpp`: the leverage grid of the SLV model and the
 * iterative leverage calibration. The calibration is a placeholder: it takes
 * the model local volatility equal to the target, so every pass multiplies a
 * node by `sigma / max(sigma, 1e-6)`, which is 1 unless the target is below
 * the floor. It sweeps the grid in place, row by row, `iterations` times.
 */
module Leverage {
  import opened Numerics
  import opened Dupire
  import opened Slv

  /** Leverage values `L[j][i]` on the time axis `t` and the spot axis `S`. */
  class LeverageGrid {
    var t: seq<real>
    var S: seq<real>
    var L: seq<seq<real>>

    constructor (t0: seq<real>, S0: seq<real>, L0: seq<seq<real>>)
      ensures t == t0 && S == S0 && L == L0
    {
      t, S, L := t0, S0, L0;
    }
  }

  /** The floor the sweep puts under the model volatility it divides by. */
  const ModelVolFloor: real := 0.000001

  /** `M` has at least `rows` rows and each of them at least `cols` entries. */
  predicate Covers(M: seq<seq<real>>, rows: nat, cols: nat)
  {
    rows <= |M| && forall j :: 0 <= j < rows ==> cols <= |M[j]|
  }

  /** `A` and `B` have the same number of rows and equal row lengths. */
  predicate SameShape(A: seq<seq<real>>, B: seq<seq<real>>)
  {
    |A| == |B| && forall j :: 0 <= j < |A| ==> |A[j]| == |B[j]|
  }

  /** One update of a node: the leverage times target over floored model volatility (the two are equal). */
  function SweepNode(l: real, sigma: real): real
  {
    l * sigma / Max(sigma, ModelVolFloor)
  }

  /** A node after `k` updates. */
  function NodeAfter(l: real, sigma: real, k: nat): real
  {
    if k == 0 then l else SweepNode(NodeAfter(l, sigma, k - 1), sigma)
  }

  /**
   * The number of updates node (j, i) has had when pass `k + 1` has reached
   * row `j0`, column `i0`: the nodes before it in row-major order have had one
   * more than the rest.
   */
  function UpdatesAt(k: nat, j0: nat, i0: nat, j: nat, i: nat): nat
  {
    if j < j0 || (j == j0 && i < i0) then k + 1 else k
  }

  /**
   * `L` is `L0` with every node in the leading `rows x cols` block updated
   * `UpdatesAt(k, j0, i0, j, i)` times against `sigma`, and every other entry
   * as it was.
   */
  predicate SweptTo(L0: seq<seq<real>>, L: seq<seq<real>>, sigma: seq<seq<real>>,
                    rows: nat, cols: nat, k: nat, j0: nat, i0: nat)
  {
    && Covers(sigma, rows, cols)
    && SameShape(L0, L)
    && forall j, i :: 0 <= j < |L| && 0 <= i < |L[j]| ==>
         L[j][i] == (if j < rows && i < cols
                     then NodeAfter(L0[j][i], sigma[j][i], UpdatesAt(k, j0, i0, j, i))
                     else L0[j][i])
  }

  /** `k` complete passes over the leading `rows x cols` block. */
  predicate Swept(L0: seq<seq<real>>, L: seq<seq<real>>, sigma: seq<seq<real>>,
                  rows: nat, cols: nat, k: nat)
  {
    SweptTo(L0, L, sigma, rows, cols, k, 0, 0)
  }

  /**
   * `calibrate_leverage_iterative`: only `lev.L` changes; for `iterations > 0`
   * every node of the |t| x |S| block has been updated exactly `iterations`
   * times and every entry outside it is unchanged; for `iterations <= 0`
   * nothing changes. The Heston parameters are not read.
   */
  method CalibrateLeverageIterative(target: DupireSurface, h: HestonParams, lev: LeverageGrid, iterations: int)
    requires 0 < iterations ==> Covers(target.sigma, |lev.t|, |lev.S|) && Covers(lev.L, |lev.t|, |lev.S|)
    modifies lev
    ensures lev.t == old(lev.t) && lev.S == old(lev.S)
    ensures iterations <= 0 ==> lev.L == old(lev.L)
    ensures 0 < iterations ==> Swept(old(lev.L), lev.L, target.sigma, |lev.t|, |lev.S|, iterations)
  {
    ghost var L0 := lev.L;
    var iter := 0;
    while iter < iterations
      invariant 0 <= iter && (0 < iterations ==> iter <= iterations)
      invariant lev.t == old(lev.t) && lev.S == old(lev.S)
      invariant iterations <= 0 ==> iter == 0
      invariant iter == 0 ==> lev.L == L0
      invariant 0 < iterations ==> Swept(L0, lev.L, target.sigma, |lev.t|, |lev.S|, iter)
    {
      SweepPass(target, lev, L0, iter);
      iter := iter + 1;
    }
  }

  /** One pass of the sweep, rows in order of time. */
  method SweepPass(target: DupireSurface, lev: LeverageGrid, ghost L0: seq<seq<real>>, ghost k: nat)
    requires Covers(L0, |lev.t|, |lev.S|)
    requires Swept(L0, lev.L, target.sigma, |lev.t|, |lev.S|, k)
    modifies lev
    ensures lev.t == old(lev.t) && lev.S == old(lev.S)
    ensures Swept(L0, lev.L, target.sigma, |lev.t|, |lev.S|, k + 1)
  {
    var j := 0;
    while j < |lev.t|
      invariant j <= |lev.t|
      invariant lev.t == old(lev.t) && lev.S == old(lev.S)
      invariant SweptTo(L0, lev.L, target.sigma, |lev.t|, |lev.S|, k, j, 0)
    {
      SweepRow(target, lev, L0, k, j);
      j := j + 1;
    }
    PassComplete(L0, lev.L, target.sigma, |lev.t|, |lev.S|, k);
  }

  /** One row of a pass, nodes in order of spot. */
  method SweepRow(target: DupireSurface, lev: LeverageGrid, ghost L0: seq<seq<real>>, ghost k: nat, j: nat)
    requires j < |lev.t| && Covers(L0, |lev.t|, |lev.S|)
    requires SweptTo(L0, lev.L, target.sigma, |lev.t|, |lev.S|, k, j, 0)
    modifies lev
    ensures lev.t == old(lev.t) && lev.S == old(lev.S)
    ensures SweptTo(L0, lev.L, target.sigma, |lev.t|, |lev.S|, k, j + 1, 0)
  {
    var i := 0;
    while i < |lev.S|
      invariant i <= |lev.S|
      invariant lev.t == old(lev.t) && lev.S == old(lev.S)
      invariant SweptTo(L0, lev.L, target.sigma, |lev.t|, |lev.S|, k, j, i)
    {
      var sigTarget := target.sigma[j][i];
      var sigModel := sigTarget;
      var eps := ModelVolFloor;
      lev.L := lev.L[j := lev.L[j][i := lev.L[j][i] * sigTarget / Max(sigModel, eps)]];
      i := i + 1;
    }
    RowComplete(L0, lev.L, target.sigma, |lev.t|, |lev.S|, k, j);
  }

  /** Reaching the end of row `j` is reaching the start of row `j + 1`. */
  lemma RowComplete(L0: seq<seq<real>>, L: seq<seq<real>>, sigma: seq<seq<real>>,
                    rows: nat, cols: nat, k: nat, j: nat)
    requires SweptTo(L0, L, sigma, rows, cols, k, j, cols)
    ensures SweptTo(L0, L, sigma, rows, cols, k, j + 1, 0)
  {
    forall j', i | 0 <= j' < |L| && 0 <= i < |L[j']| && j' < rows && i < cols
      ensures UpdatesAt(k, j, cols, j', i) == UpdatesAt(k, j + 1, 0, j', i)
    {}
  }

  /** Reaching the end of the last row is the start of the next pass. */
  lemma PassComplete(L0: seq<seq<real>>, L: seq<seq<real>>, sigma: seq<seq<real>>,
                     rows: nat, cols: nat, k: nat)
    requires SweptTo(L0, L, sigma, rows, cols, k, rows, 0)
    ensures Swept(L0, L, sigma, rows, cols, k + 1)
  {
    forall j, i | 0 <= j < |L| && 0 <= i < |L[j]| && j < rows && i < cols
      ensures UpdatesAt(k, rows, 0, j, i) == UpdatesAt(k + 1, 0, 0, j, i)
    {}
  }

  // ---------------------------------------------------------------------
  // What the sweep does to a node
  // ---------------------------------------------------------------------

  /** A target at or above the floor leaves the node unchanged however many passes run. */
  lemma {:induction false} NodeKeptAboveFloor(l: real, sigma: real, k: nat)
    requires ModelVolFloor <= sigma
    ensures NodeAfter(l, sigma, k) == l
  {
    if k > 0 {
      NodeKeptAboveFloor(l, sigma, k - 1);
    }
  }

  /** Below the floor each update scales the node by `sigma / 1e-6`, a factor in [0, 1) for a non-negative target. */
  lemma SweepNodeBelowFloor(l: real, sigma: real)
    requires 0.0 <= sigma < ModelVolFloor
    ensures SweepNode(l, sigma) == l * (sigma / ModelVolFloor)
    ensures 0.0 <= sigma / ModelVolFloor < 1.0
  {}

  /** Below the floor a non-negative leverage never increases and stays non-negative. */
  lemma {:induction false} NodeShrinksBelowFloor(l: real, sigma: real, k: nat)
    requires 0.0 <= sigma < ModelVolFloor && 0.0 <= l
    ensures 0.0 <= NodeAfter(l, sigma, k) <= l
  {
    if k > 0 {
      NodeShrinksBelowFloor(l, sigma, k - 1);
      var prev := NodeAfter(l, sigma, k - 1);
      SweepNodeBelowFloor(prev, sigma);
      var q := sigma / ModelVolFloor;
      assert NodeAfter(l, sigma, k) == prev * q;
      ProductNonNegative(prev, q);
      ProductNonNegative(prev, 1.0 - q);
      assert prev * q == prev - prev * (1.0 - q);
    }
  }

  /** When every target in the block is at or above the floor, any number of passes leaves `L` as it was. */
  lemma SweepKeepsGridAboveFloor(L0: seq<seq<real>>, L: seq<seq<real>>, sigma: seq<seq<real>>,
                                 rows: nat, cols: nat, k: nat)
    requires Swept(L0, L, sigma, rows, cols, k)
    requires forall j, i :: 0 <= j < rows && 0 <= i < cols ==> ModelVolFloor <= sigma[j][i]
    ensures L == L0
  {
    forall j, i | 0 <= j < |L| && 0 <= i < |L[j]| && j < rows && i < cols
      ensures L[j][i] == L0[j][i]
    {
      NodeKeptAboveFloor(L0[j][i], sigma[j][i], UpdatesAt(k, 0, 0, j, i));
    }
    assert forall j :: 0 <= j < |L| ==> L[j] == L0[j];
  }
}
