/**
 * The Dupire local-volatility grid of `include/dupire.hpp`: times `t`,
 * spots `S` and a matrix `sigma` with one row per time and one entry per
 * spot, read by a bilinear interpolation that clamps in time and, at the
 * first and last time, in spot.
 */
module Dupire {
  import opened Numerics

  datatype DupireSurface = DupireSurface(t: seq<real>, S: seq<real>, sigma: seq<seq<real>>)

  /** `sigma` is |t| x |S|. */
  predicate Shaped(d: DupireSurface)
  {
    |d.sigma| == |d.t| && forall j :: 0 <= j < |d.sigma| ==> |d.sigma[j]| == |d.S|
  }

  /** Ascending order, which `std::upper_bound` needs of its range. */
  predicate Ascending(s: seq<real>)
  {
    forall i, j :: 0 <= i <= j < |s| ==> s[i] <= s[j]
  }

  predicate StrictlyIncreasing(s: seq<real>)
  {
    forall i, j :: 0 <= i < j < |s| ==> s[i] < s[j]
  }

  /** `DupireSurface::at`: the node value at time index `it` and spot index `ix`. */
  function At(d: DupireSurface, it: nat, ix: nat): real
    requires Shaped(d) && it < |d.t| && ix < |d.S|
  {
    d.sigma[it][ix]
  }

  /**
   * `std::upper_bound` as an index: every entry before `k` is at most `x`,
   * and on an ascending range every entry from `k` on exceeds it.
   */
  function UpperBound(s: seq<real>, x: real): (k: nat)
    ensures k <= |s|
    ensures forall j :: 0 <= j < k ==> s[j] <= x
    ensures k < |s| ==> x < s[k]
    ensures Ascending(s) ==> forall j :: k <= j < |s| ==> x < s[j]
  {
    if s == [] || x < s[0] then 0 else 1 + UpperBound(s[1..], x)
  }

  /** The bracketing pair `i1 = max(1, k) - 1`, `i2 = min(i1 + 1, |s| - 1)`. */
  function Bracket(s: seq<real>, x: real): (b: (nat, nat))
    requires s != []
    ensures b.0 <= b.1 < |s| && b.1 <= b.0 + 1
    ensures x < s[0] ==> b == (0, IMin(1, |s| - 1))
    ensures s[0] <= x ==> s[b.0] <= x
    ensures s[0] <= x && b.0 < b.1 ==> x < s[b.1]
    ensures b.0 == b.1 ==> b.0 == 0 || b.0 == |s| - 1
  {
    var k := UpperBound(s, x);
    var i1 := if k == 0 then 0 else k - 1;
    (i1, IMin(i1 + 1, |s| - 1))
  }

  /** The interpolation weight `(x - s[i1]) / max(1e-12, s[i2] - s[i1])`. */
  function Weight(s: seq<real>, x: real): real
    requires s != []
  {
    var (i1, i2) := Bracket(s, x);
    (x - s[i1]) / Max(0.000000000001, s[i2] - s[i1])
  }

  /** The weight lies in [0, 1] for a query between the first and last entry. */
  lemma WeightInUnit(s: seq<real>, x: real)
    requires s != [] && s[0] <= x <= s[|s| - 1]
    ensures 0.0 <= Weight(s, x) <= 1.0
  {
    var (i1, i2) := Bracket(s, x);
    var gap := Max(0.000000000001, s[i2] - s[i1]);
    if i1 < i2 {
      assert 0.0 <= x - s[i1] < s[i2] - s[i1] <= gap;
    } else {
      assert i1 == |s| - 1;
    }
  }

  /** One row read at spot `St`, with the spot weight of lines 24-26 and 39-41. */
  function SpotInterp(S: seq<real>, row: seq<real>, St: real): real
    requires S != [] && |row| == |S|
  {
    var (i1, i2) := Bracket(S, St);
    Lerp(row[i1], row[i2], Weight(S, St))
  }

  /** A first or last time row: clamped to the end values outside the spot range. */
  function EdgeRow(S: seq<real>, row: seq<real>, St: real): real
    requires S != [] && |row| == |S|
  {
    if St <= S[0] then row[0]
    else if St >= S[|S| - 1] then row[|S| - 1]
    else SpotInterp(S, row, St)
  }

  /**
   * `DupireSurface::bilinear(St, tt)`: 0 on an empty axis; at or before the
   * first time (at or after the last) the first (last) row read with spot
   * clamping; otherwise the time-weighted mix of the two bracketing rows.
   */
  function Bilinear(d: DupireSurface, St: real, tt: real): (r: real)
    requires Shaped(d) && Ascending(d.t) && Ascending(d.S)
    ensures d.t == [] || d.S == [] ==> r == 0.0
    ensures d.t != [] && d.S != [] && tt <= d.t[0] && St <= d.S[0] ==> r == d.sigma[0][0]
    ensures d.t != [] && d.S != [] && tt <= d.t[0] && d.S[0] < St && d.S[|d.S| - 1] <= St ==>
              r == d.sigma[0][|d.S| - 1]
    ensures d.t != [] && d.S != [] && d.t[0] < tt && d.t[|d.t| - 1] <= tt && St <= d.S[0] ==>
              r == d.sigma[|d.t| - 1][0]
    ensures d.t != [] && d.S != [] && d.t[0] < tt && d.t[|d.t| - 1] <= tt &&
            d.S[0] < St && d.S[|d.S| - 1] <= St ==>
              r == d.sigma[|d.t| - 1][|d.S| - 1]
  {
    if d.t == [] || d.S == [] then 0.0
    else if tt <= d.t[0] then EdgeRow(d.S, d.sigma[0], St)
    else if tt >= d.t[|d.t| - 1] then EdgeRow(d.S, d.sigma[|d.t| - 1], St)
    else
      var (j1, j2) := Bracket(d.t, tt);
      Lerp(SpotInterp(d.S, d.sigma[j1], St), SpotInterp(d.S, d.sigma[j2], St), Weight(d.t, tt))
  }

  /** On a strictly increasing axis `upper_bound` at a node is the next index. */
  lemma UpperBoundAtNode(s: seq<real>, i: nat)
    requires StrictlyIncreasing(s) && i < |s|
    ensures UpperBound(s, s[i]) == i + 1
  {
    var k := UpperBound(s, s[i]);
    assert i < k;
    assert k <= i + 1;
  }

  /** At a node the weight is 0 and the lower bracket is the node itself. */
  lemma BracketAtNode(s: seq<real>, i: nat)
    requires StrictlyIncreasing(s) && i < |s|
    ensures Bracket(s, s[i]).0 == i && Weight(s, s[i]) == 0.0
  {
    UpperBoundAtNode(s, i);
  }

  lemma SpotInterpAtNode(S: seq<real>, row: seq<real>, i: nat)
    requires StrictlyIncreasing(S) && |row| == |S| && i < |S|
    ensures SpotInterp(S, row, S[i]) == row[i]
  {
    BracketAtNode(S, i);
  }

  lemma EdgeRowAtNode(S: seq<real>, row: seq<real>, i: nat)
    requires StrictlyIncreasing(S) && |row| == |S| && i < |S|
    ensures EdgeRow(S, row, S[i]) == row[i]
  {
    if S[i] <= S[0] {
      assert i == 0;
    } else if S[i] >= S[|S| - 1] {
      assert i == |S| - 1;
    } else {
      SpotInterpAtNode(S, row, i);
    }
  }

  /** On strictly increasing axes the interpolation reproduces every node exactly. */
  lemma BilinearAtNode(d: DupireSurface, j: nat, i: nat)
    requires Shaped(d) && StrictlyIncreasing(d.t) && StrictlyIncreasing(d.S)
    requires j < |d.t| && i < |d.S|
    ensures Bilinear(d, d.S[i], d.t[j]) == At(d, j, i)
  {
    if d.t[j] <= d.t[0] {
      assert j == 0;
      EdgeRowAtNode(d.S, d.sigma[0], i);
    } else if d.t[j] >= d.t[|d.t| - 1] {
      assert j == |d.t| - 1;
      EdgeRowAtNode(d.S, d.sigma[j], i);
    } else {
      BracketAtNode(d.t, j);
      SpotInterpAtNode(d.S, d.sigma[j], i);
    }
  }

  /** Beyond the last spot a row reads its last entry, whatever the spot. */
  lemma SpotInterpAboveRange(S: seq<real>, row: seq<real>, St: real)
    requires Ascending(S) && S != [] && |row| == |S| && S[|S| - 1] <= St
    ensures SpotInterp(S, row, St) == row[|S| - 1]
  {
    assert UpperBound(S, St) == |S|;
  }

  /** Spots at or above the last spot all give the value at the last spot: flat extrapolation. */
  lemma BilinearFlatAboveSpots(d: DupireSurface, St: real, tt: real)
    requires Shaped(d) && Ascending(d.t) && StrictlyIncreasing(d.S) && d.S != []
    requires d.S[|d.S| - 1] <= St
    ensures Bilinear(d, St, tt) == Bilinear(d, d.S[|d.S| - 1], tt)
  {
    if d.t != [] && d.t[0] < tt < d.t[|d.t| - 1] {
      var (j1, j2) := Bracket(d.t, tt);
      SpotInterpAboveRange(d.S, d.sigma[j1], St);
      SpotInterpAboveRange(d.S, d.sigma[j2], St);
      SpotInterpAboveRange(d.S, d.sigma[j1], d.S[|d.S| - 1]);
      SpotInterpAboveRange(d.S, d.sigma[j2], d.S[|d.S| - 1]);
    }
  }

  /**
   * Below the first spot a row is not clamped: it continues the line through
   * its first two entries, with a negative spot weight.
   */
  lemma SpotInterpBelowRange(S: seq<real>, row: seq<real>, St: real)
    requires |S| >= 2 && |row| == |S| && S[0] < S[1] && St < S[0]
    ensures Weight(S, St) < 0.0
    ensures SpotInterp(S, row, St) == Lerp(row[0], row[1], Weight(S, St))
  {
    assert St - S[0] < 0.0 < Max(0.000000000001, S[1] - S[0]);
  }

  /**
   * Below the first spot (with the first two spots distinct) the surface is
   * not clamped in spot except at the first and last time: strictly inside
   * the time range it is the time-weighted mix of the two bracketing rows,
   * each continued as the line through its first two entries with a negative
   * spot weight; at or before the first time (at or after the last) it is the
   * first (last) row's first entry.
   */
  lemma BilinearBelowSpots(d: DupireSurface, St: real, tt: real)
    requires Shaped(d) && Ascending(d.t) && Ascending(d.S) && d.t != []
    requires |d.S| >= 2 && d.S[0] < d.S[1] && St < d.S[0]
    ensures Weight(d.S, St) < 0.0
    ensures tt <= d.t[0] ==> Bilinear(d, St, tt) == d.sigma[0][0]
    ensures d.t[0] < tt && d.t[|d.t| - 1] <= tt ==> Bilinear(d, St, tt) == d.sigma[|d.t| - 1][0]
    ensures d.t[0] < tt < d.t[|d.t| - 1] ==>
              var (j1, j2) := Bracket(d.t, tt);
              var w := Weight(d.S, St);
              d.t[j1] <= tt < d.t[j2] &&
              Bilinear(d, St, tt) ==
                Lerp(Lerp(d.sigma[j1][0], d.sigma[j1][1], w), Lerp(d.sigma[j2][0], d.sigma[j2][1], w), Weight(d.t, tt))
  {
    SpotInterpBelowRange(d.S, d.sigma[0], St);
    if d.t[0] < tt < d.t[|d.t| - 1] {
      var (j1, j2) := Bracket(d.t, tt);
      assert j1 < j2 by {
        assert UpperBound(d.t, tt) < |d.t|;
      }
      SpotInterpBelowRange(d.S, d.sigma[j1], St);
      SpotInterpBelowRange(d.S, d.sigma[j2], St);
    }
  }

  /**
   * An instance of `BilinearBelowSpots`: a surface with every row equal to [1, 2] on spots
   * [1, 2]: below the first spot, at an interior time, the result is 0,
   * under every node value, while at the first time the same spot reads 1.
   */
  lemma BilinearExtrapolatesBelowSpots()
    ensures var d := DupireSurface([0.0, 1.0, 2.0], [1.0, 2.0], [[1.0, 2.0], [1.0, 2.0], [1.0, 2.0]]);
            Shaped(d) && Ascending(d.t) && Ascending(d.S)
            && Bilinear(d, 0.0, 1.0) == 0.0 && Bilinear(d, 0.0, 0.0) == 1.0
  {
    var d := DupireSurface([0.0, 1.0, 2.0], [1.0, 2.0], [[1.0, 2.0], [1.0, 2.0], [1.0, 2.0]]);
    assert UpperBound(d.t, 1.0) == 2;
    assert Bracket(d.t, 1.0) == (1, 2);
    assert UpperBound(d.S, 0.0) == 0;
    assert Weight(d.S, 0.0) == -1.0;
    assert SpotInterp(d.S, d.sigma[1], 0.0) == 0.0;
    assert SpotInterp(d.S, d.sigma[2], 0.0) == 0.0;
  }

  /** Inside the spot range a row lies between its two bracketing entries. */
  lemma SpotInterpBetween(S: seq<real>, row: seq<real>, St: real)
    requires S != [] && |row| == |S| && S[0] <= St <= S[|S| - 1]
    ensures var (i1, i2) := Bracket(S, St);
            S[i1] <= St && (i1 < i2 ==> St < S[i2])
            && Min(row[i1], row[i2]) <= SpotInterp(S, row, St) <= Max(row[i1], row[i2])
  {
    WeightInUnit(S, St);
  }

  /**
   * Strictly inside the time range and inside the spot range the result is a
   * convex combination of the four surrounding nodes, so it lies between
   * their least and greatest value.
   */
  lemma BilinearInsideCell(d: DupireSurface, St: real, tt: real)
    requires Shaped(d) && Ascending(d.t) && Ascending(d.S) && d.t != [] && d.S != []
    requires d.t[0] < tt < d.t[|d.t| - 1] && d.S[0] <= St <= d.S[|d.S| - 1]
    ensures var (j1, j2) := Bracket(d.t, tt);
            var (i1, i2) := Bracket(d.S, St);
            var lo := Min(Min(d.sigma[j1][i1], d.sigma[j1][i2]), Min(d.sigma[j2][i1], d.sigma[j2][i2]));
            var hi := Max(Max(d.sigma[j1][i1], d.sigma[j1][i2]), Max(d.sigma[j2][i1], d.sigma[j2][i2]));
            d.t[j1] <= tt < d.t[j2] && lo <= Bilinear(d, St, tt) <= hi
  {
    var (j1, j2) := Bracket(d.t, tt);
    assert j1 < j2 by {
      assert UpperBound(d.t, tt) < |d.t|;
    }
    WeightInUnit(d.t, tt);
    SpotInterpBetween(d.S, d.sigma[j1], St);
    SpotInterpBetween(d.S, d.sigma[j2], St);
  }
}
