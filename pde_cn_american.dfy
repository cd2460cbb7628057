/**
 * `src/pde_cn_american.cpp`: the Crank–Nicolson pricer of an American call
 * or put. Grid, coefficients, Thomas sweep and boundary values are those of
 * `src/pde_cn.cpp`, and so is the right-hand side, which counts the boundary
 * term of `t_{j+1}` twice (lines 33 and 40 or 45). After the boundary values
 * each backward step lifts every node to at least its exercise value,
 * `V[i] = max(V[i], payoff(S[i]))`.
 *
 * The pricer on arrays follows the source: its steps are
 * `AsWrittenAmericanStep`, the European step as written and then the
 * projection. `AmericanStep`, `AmericanBackward` and `AmericanPrice` are the
 * intended scheme, built on the corrected `PdeCn.Step`. The projection
 * lemmas hold for both. A division by a zero pivot gives `None` here too.
 */
module PdeCnAmerican {
  import opened Numerics
  import opened OptionTypes
  import opened PdeCn

  // ---------------------------------------------------------------------
  // The early-exercise projection
  // ---------------------------------------------------------------------

  /** The exercise value at node `i`: the payoff at spot `S[i]`. */
  function ExerciseValue(p: CnProblem, i: int): real
    requires Runs(p)
  {
    Payoff(Node(p, i), p.K, p.kind)
  }

  /** Lines 71-75: every node lifted to at least its exercise value. */
  function Exercise(p: CnProblem, V: seq<real>): (W: seq<real>)
    requires Runs(p) && |V| == p.N + 1
    ensures |W| == |V|
  {
    seq(|V|, i requires 0 <= i < |V| => Max(V[i], ExerciseValue(p, i)))
  }

  /** `V` is nowhere below the exercise value. */
  predicate AboveExercise(p: CnProblem, V: seq<real>)
    requires Runs(p) && |V| == p.N + 1
  {
    forall i :: 0 <= i <= p.N ==> ExerciseValue(p, i) <= V[i]
  }

  /**
   * The projection gives the least values that are at least `V` and at least
   * the exercise value: every node of the result is one of the two, and any
   * `U` above both is above the result.
   */
  lemma ExerciseIsLeastAbove(p: CnProblem, V: seq<real>, U: seq<real>)
    requires Runs(p) && |V| == p.N + 1 && |U| == p.N + 1
    ensures AboveExercise(p, Exercise(p, V))
    ensures forall i :: 0 <= i <= p.N ==> V[i] <= Exercise(p, V)[i]
    ensures forall i :: 0 <= i <= p.N ==> Exercise(p, V)[i] == V[i] || Exercise(p, V)[i] == ExerciseValue(p, i)
    ensures AboveExercise(p, U) && (forall i :: 0 <= i <= p.N ==> V[i] <= U[i]) ==>
              forall i :: 0 <= i <= p.N ==> Exercise(p, V)[i] <= U[i]
  {}

  /** Values already at or above the exercise value are left as they are. */
  lemma ExerciseKeepsAbove(p: CnProblem, V: seq<real>)
    requires Runs(p) && |V| == p.N + 1
    ensures AboveExercise(p, V) <==> Exercise(p, V) == V
  {
    if Exercise(p, V) == V {
      assert forall i :: 0 <= i <= p.N ==> ExerciseValue(p, i) <= Exercise(p, V)[i];
    }
  }

  /** Projecting twice is projecting once. */
  lemma ExerciseIdempotent(p: CnProblem, V: seq<real>)
    requires Runs(p) && |V| == p.N + 1
    ensures Exercise(p, Exercise(p, V)) == Exercise(p, V)
  {
    ExerciseIsLeastAbove(p, V, V);
    ExerciseKeepsAbove(p, Exercise(p, V));
  }

  // ---------------------------------------------------------------------
  // Marching back from expiry
  // ---------------------------------------------------------------------

  /** One step of the American solver: the European step, then the projection. */
  function AmericanStep(m: Math, p: CnProblem, V: seq<real>, j: int): (r: Option<seq<real>>)
    requires Runs(p) && |V| == p.N + 1
    ensures r.Some? ==> |r.value| == p.N + 1
  {
    match Step(m, p, V, j)
    case None => None
    case Some(W) => Some(Exercise(p, W))
  }

  /** The American step on values of the grid's length. */
  function AmericanCnStep(m: Math, p: CnProblem): (step: (seq<real>, int) -> Option<seq<real>>)
    requires Runs(p)
    ensures KeepsLength(step, p.N + 1)
  {
    (V: seq<real>, j: int) => if |V| == p.N + 1 then AmericanStep(m, p, V, j) else None
  }

  /** The values at `t_j`: the payoff at `t_M = T`, then one American step at a time back to `t_j`. */
  function AmericanBackward(m: Math, p: CnProblem, j: int): (r: Option<seq<real>>)
    requires Runs(p)
    ensures r.Some? ==> |r.value| == p.N + 1
  {
    March(AmericanCnStep(m, p), Terminal(p), p.M, j)
  }

  /** The values at `t_j` are one American step from those at `t_{j+1}`. */
  lemma AmericanBackwardStep(m: Math, p: CnProblem, j: int, V: seq<real>)
    requires Runs(p) && j < p.M && AmericanBackward(m, p, j + 1) == Some(V)
    ensures AmericanBackward(m, p, j) == AmericanStep(m, p, V, j)
  {
    assert |V| == p.N + 1;
    assert AmericanCnStep(m, p)(V, j) == AmericanStep(m, p, V, j);
  }

  /** With no step left to take the values are the payoff: at `t_M`, and at `t_0` when `M <= 0`. */
  lemma AmericanBackwardFrom(m: Math, p: CnProblem, j: int)
    requires Runs(p) && p.M <= j
    ensures AmericanBackward(m, p, j) == Some(Terminal(p))
    ensures p.M <= 0 ==> AmericanBackward(m, p, 0) == Some(Terminal(p))
  {}

  /** Once a step meets a zero pivot, there are no values at `t_0`. */
  lemma AmericanBackwardStaysNone(m: Math, p: CnProblem, j: int)
    requires Runs(p) && 0 <= j && AmericanBackward(m, p, j) == None
    ensures AmericanBackward(m, p, 0) == None
  {
    MarchStaysNone(AmericanCnStep(m, p), Terminal(p), p.M, j, 0);
  }

  /** The values before a step of the American solver, when it gives values at `t_j < t_M`. */
  lemma AmericanFromLater(m: Math, p: CnProblem, j: int, V: seq<real>)
    requires Runs(p) && j < p.M && AmericanBackward(m, p, j) == Some(V)
    ensures AmericanBackward(m, p, j + 1).Some?
    ensures var U := AmericanBackward(m, p, j + 1).value;
            Step(m, p, U, j).Some? && V == Exercise(p, Step(m, p, U, j).value)
  {
    MarchFromLater(AmericanCnStep(m, p), Terminal(p), p.M, j);
    AmericanBackwardStep(m, p, j, AmericanBackward(m, p, j + 1).value);
  }

  /** At every time the values are at or above the exercise value: at expiry they are the payoff, later the projection. */
  lemma AmericanAboveExercise(m: Math, p: CnProblem, j: int, V: seq<real>)
    requires Runs(p) && AmericanBackward(m, p, j) == Some(V)
    ensures AboveExercise(p, V)
  {
    if j < p.M {
      AmericanFromLater(m, p, j, V);
      var U := AmericanBackward(m, p, j + 1).value;
      ExerciseIsLeastAbove(p, Step(m, p, U, j).value, Step(m, p, U, j).value);
    }
  }

  /**
   * The boundary nodes after a step at `t_j < t_M`, for `r >= 0`, `T >= 0`
   * and a positive strike: a put's `V[0]` is the strike `K`, since exercise
   * beats the discounted strike; a call keeps 0 at node 0 and
   * `3K - K e^{-r (T - t_j)}` at node N, which is above the payoff `2K`.
   */
  lemma AmericanBoundaries(m: Math, p: CnProblem, j: int, V: seq<real>)
    requires Runs(p) && 0.0 <= p.r && 0.0 <= p.T && 0.0 < p.K && 0 <= j < p.M
    requires AmericanBackward(m, p, j) == Some(V)
    ensures p.kind == Put ==> V[0] == p.K
    ensures p.kind == Call ==> V[0] == 0.0 && V[p.N] == HighValue(m, p, StepTime(p, j))
  {
    AmericanFromLater(m, p, j, V);
    var U := AmericanBackward(m, p, j + 1).value;
    var W := Step(m, p, U, j).value;
    StepSolvesCn(m, p, U, j, W, 0);
    TimeBeforeExpiry(p, j);
    ExercisedBoundaries(m, p, StepTime(p, j), W[0], W[p.N], V[0], V[p.N]);
  }

  /** The boundary values of time `t <= T` after the projection. */
  lemma ExercisedBoundaries(m: Math, p: CnProblem, t: real, w0: real, wN: real, v0: real, vN: real)
    requires Runs(p) && 0.0 <= p.r && 0.0 < p.K && t <= p.T
    requires w0 == LowValue(m, p, t) && wN == HighValue(m, p, t)
    requires v0 == Max(w0, ExerciseValue(p, 0)) && vN == Max(wN, ExerciseValue(p, p.N))
    ensures p.kind == Put ==> v0 == p.K
    ensures p.kind == Call ==> v0 == 0.0 && vN == wN
  {
    assert Node(p, 0) == 0.0;
    assert Node(p, p.N) == SMax(p);
  }

  /** `t_j <= T` for `0 <= j < M` and `T >= 0`. */
  lemma TimeBeforeExpiry(p: CnProblem, j: int)
    requires 0.0 <= p.T && 0 <= j < p.M
    ensures StepTime(p, j) <= p.T
  {
    var f := j as real / p.M as real;
    assert StepTime(p, j) == f * p.T;
    ScaleNonNegative(1.0 - f, p.T);
  }

  // ---------------------------------------------------------------------
  // The price
  // ---------------------------------------------------------------------

  /** `pde_crank_nicolson_american`: the values at `t_0` read off at `S0`; `None` when a step would divide by zero. */
  function AmericanPrice(m: Math, p: CnProblem, S0: real): Option<real>
    requires InGrid(p, S0)
  {
    match AmericanBackward(m, p, 0)
    case None => None
    case Some(V) => Some(Interpolate(p, V, S0))
  }

  /**
   * For a spot at or above 0 the price is at least the payoff read off at
   * the same spot: between the two bracketing nodes, or at node N from there
   * on.
   */
  lemma AmericanPriceAbovePayoff(m: Math, p: CnProblem, S0: real)
    requires InGrid(p, S0) && 0.0 <= S0 / SpotStep(p) && AmericanPrice(m, p, S0).Some?
    ensures Interpolate(p, Terminal(p), S0) <= AmericanPrice(m, p, S0).value
  {
    var V := AmericanBackward(m, p, 0).value;
    AmericanAboveExercise(m, p, 0, V);
    InterpolateMonotone(p, Terminal(p), V, S0);
  }

  // ---------------------------------------------------------------------
  // The right-hand side as written
  // ---------------------------------------------------------------------

  /** The American step as `src/pde_cn_american.cpp` writes it: the right-hand side that counts the old boundary twice. */
  function AsWrittenAmericanStep(m: Math, p: CnProblem, V: seq<real>, j: int): (r: Option<seq<real>>)
    requires Runs(p) && |V| == p.N + 1
    ensures r.Some? ==> |r.value| == p.N + 1
  {
    match AsWrittenStep(m, p, V, j)
    case None => None
    case Some(W) => Some(Exercise(p, W))
  }

  /**
   * The projection does not hide the extra boundary term: on the witness
   * call, row 1 of the corrected step is `53 / 1.02` and that of the step as
   * written `55 / 1.02`, both above the exercise value 50 at spot 150.
   */
  lemma AsWrittenAmericanStepDiffers(m: Math)
    ensures AsWrittenAmericanStep(m, Witness, Terminal(Witness), 0).Some?
    ensures AmericanStep(m, Witness, Terminal(Witness), 0).Some?
    ensures AsWrittenAmericanStep(m, Witness, Terminal(Witness), 0).value[1]
            != AmericanStep(m, Witness, Terminal(Witness), 0).value[1]
  {
    var p, VT := Witness, Terminal(Witness);
    WitnessStepRows(m);
    var W := Step(m, p, VT, 0).value;
    var U := AsWrittenStep(m, p, VT, 0).value;
    assert ExerciseValue(p, 1) == 50.0;
    assert Exercise(p, W)[1] != Exercise(p, U)[1];
  }


  /** The American step as written on values of the grid's length. */
  function AsWrittenAmericanCnStep(m: Math, p: CnProblem): (step: (seq<real>, int) -> Option<seq<real>>)
    requires Runs(p)
    ensures KeepsLength(step, p.N + 1)
  {
    (V: seq<real>, j: int) => if |V| == p.N + 1 then AsWrittenAmericanStep(m, p, V, j) else None
  }

  /** The values at `t_j` the source computes: the payoff at `t_M`, then one American step as written at a time. */
  function AsWrittenAmericanBackward(m: Math, p: CnProblem, j: int): (r: Option<seq<real>>)
    requires Runs(p)
    ensures r.Some? ==> |r.value| == p.N + 1
  {
    March(AsWrittenAmericanCnStep(m, p), Terminal(p), p.M, j)
  }

  lemma AsWrittenAmericanBackwardStep(m: Math, p: CnProblem, j: int, V: seq<real>)
    requires Runs(p) && j < p.M && AsWrittenAmericanBackward(m, p, j + 1) == Some(V)
    ensures AsWrittenAmericanBackward(m, p, j) == AsWrittenAmericanStep(m, p, V, j)
  {
    assert |V| == p.N + 1;
    assert AsWrittenAmericanCnStep(m, p)(V, j) == AsWrittenAmericanStep(m, p, V, j);
  }

  lemma AsWrittenAmericanBackwardFrom(m: Math, p: CnProblem, j: int)
    requires Runs(p) && p.M <= j
    ensures AsWrittenAmericanBackward(m, p, j) == Some(Terminal(p))
    ensures p.M <= 0 ==> AsWrittenAmericanBackward(m, p, 0) == Some(Terminal(p))
  {}

  lemma AsWrittenAmericanBackwardStaysNone(m: Math, p: CnProblem, j: int)
    requires Runs(p) && 0 <= j && AsWrittenAmericanBackward(m, p, j) == None
    ensures AsWrittenAmericanBackward(m, p, 0) == None
  {
    MarchStaysNone(AsWrittenAmericanCnStep(m, p), Terminal(p), p.M, j, 0);
  }

  /** The source's values at every time are at or above the exercise value, whatever the right-hand side. */
  lemma AsWrittenAmericanAboveExercise(m: Math, p: CnProblem, j: int, V: seq<real>)
    requires Runs(p) && AsWrittenAmericanBackward(m, p, j) == Some(V)
    ensures AboveExercise(p, V)
  {
    if j < p.M {
      MarchFromLater(AsWrittenAmericanCnStep(m, p), Terminal(p), p.M, j);
      var U := AsWrittenAmericanBackward(m, p, j + 1).value;
      AsWrittenAmericanBackwardStep(m, p, j, U);
      var W := AsWrittenStep(m, p, U, j).value;
      ExerciseIsLeastAbove(p, W, W);
    }
  }

  /**
   * The boundary nodes the source leaves after a step at `t_j < t_M`, for
   * `r >= 0`, `T >= 0` and a positive strike: the boundary assignment runs
   * after the right-hand side as written, so a put's `V[0]` is again `K` and
   * a call keeps 0 at node 0 and `3K - K e^{-r (T - t_j)}` at node N.
   */
  lemma AsWrittenAmericanBoundaries(m: Math, p: CnProblem, j: int, V: seq<real>)
    requires Runs(p) && 0.0 <= p.r && 0.0 <= p.T && 0.0 < p.K && 0 <= j < p.M
    requires AsWrittenAmericanBackward(m, p, j) == Some(V)
    ensures p.kind == Put ==> V[0] == p.K
    ensures p.kind == Call ==> V[0] == 0.0 && V[p.N] == HighValue(m, p, StepTime(p, j))
  {
    MarchFromLater(AsWrittenAmericanCnStep(m, p), Terminal(p), p.M, j);
    var U := AsWrittenAmericanBackward(m, p, j + 1).value;
    AsWrittenAmericanBackwardStep(m, p, j, U);
    var W := AsWrittenStep(m, p, U, j).value;
    AsWrittenStepBoundaries(m, p, U, j, W);
    TimeBeforeExpiry(p, j);
    ExercisedBoundaries(m, p, StepTime(p, j), W[0], W[p.N], V[0], V[p.N]);
  }

  /** The price `pde_crank_nicolson_american` returns: the values as written at `t_0`, read off at `S0`. */
  function AsWrittenAmericanPrice(m: Math, p: CnProblem, S0: real): Option<real>
    requires InGrid(p, S0)
  {
    match AsWrittenAmericanBackward(m, p, 0)
    case None => None
    case Some(V) => Some(Interpolate(p, V, S0))
  }

  /** The source's price, too, is at least the payoff read off at the same spot. */
  lemma AsWrittenAmericanPriceAbovePayoff(m: Math, p: CnProblem, S0: real)
    requires InGrid(p, S0) && 0.0 <= S0 / SpotStep(p) && AsWrittenAmericanPrice(m, p, S0).Some?
    ensures Interpolate(p, Terminal(p), S0) <= AsWrittenAmericanPrice(m, p, S0).value
  {
    var V := AsWrittenAmericanBackward(m, p, 0).value;
    AsWrittenAmericanAboveExercise(m, p, 0, V);
    InterpolateMonotone(p, Terminal(p), V, S0);
  }

  /** On the witness call at spot 150 the source's American price is `55 / 1.02`, the intended one `53 / 1.02`. */
  lemma AsWrittenAmericanPriceDiffers(m: Math)
    ensures InGrid(Witness, 150.0)
    ensures AsWrittenAmericanPrice(m, Witness, 150.0) != AmericanPrice(m, Witness, 150.0)
  {
    var p, VT := Witness, Terminal(Witness);
    AsWrittenAmericanStepDiffers(m);
    var W := AmericanStep(m, p, VT, 0).value;
    var U := AsWrittenAmericanStep(m, p, VT, 0).value;
    AmericanBackwardFrom(m, p, p.M);
    AsWrittenAmericanBackwardFrom(m, p, p.M);
    AmericanBackwardStep(m, p, 0, VT);
    AsWrittenAmericanBackwardStep(m, p, 0, VT);
    assert AmericanBackward(m, p, 0) == Some(W);
    assert AsWrittenAmericanBackward(m, p, 0) == Some(U);
    assert Node(p, 1) == 150.0;
    InterpolateAtNode(p, W, 1);
    InterpolateAtNode(p, U, 1);
    assert AmericanPrice(m, p, 150.0) == Some(W[1]);
    assert AsWrittenAmericanPrice(m, p, 150.0) == Some(U[1]);
  }

  // ---------------------------------------------------------------------
  // The solver on arrays
  // ---------------------------------------------------------------------

  /** Lines 71-75: the projection in place, with the payoff of the grid `S`. */
  method ProjectEarlyExercise(p: CnProblem, S: array<real>, V: array<real>)
    requires Runs(p) && S.Length == p.N + 1 && V.Length == p.N + 1 && S != V
    requires forall i :: 0 <= i <= p.N ==> S[i] == Node(p, i)
    modifies V
    ensures V[..] == Exercise(p, old(V[..]))
  {
    ghost var V0 := V[..];
    var i := 0;
    while i <= p.N
      invariant 0 <= i <= p.N + 1
      invariant forall k :: 0 <= k <= p.N ==> V[k] == (if k < i then Exercise(p, V0)[k] else V0[k])
    {
      var payoff := if p.kind == Call then Max(S[i] - p.K, 0.0) else Max(p.K - S[i], 0.0);
      V[i] := Max(V[i], payoff);
      i := i + 1;
    }
  }

  /**
   * `B` gives the values at every time level as `AsWrittenAmericanBackward`
   * defines them; the trigger keeps the time loop from unfolding a step.
   */
  ghost predicate AmericanTrajectory(m: Math, p: CnProblem, B: int -> Option<seq<real>>)
    requires Runs(p)
  {
    forall k {:trigger AsWrittenAmericanBackward(m, p, k)} :: B(k) == AsWrittenAmericanBackward(m, p, k)
  }

  /** Lines 31-75: one pass of the time loop, the European step as written and then the projection. */
  method AmericanTimeStep(m: Math, p: CnProblem, S: array<real>, a: array<real>, b: array<real>, c: array<real>,
                          V: array<real>, j: int, ghost B: int -> Option<seq<real>>) returns (ok: bool)
    requires Runs(p) && S.Length == p.N + 1 && V.Length == p.N + 1
    requires V != a && V != b && V != c && V != S
    requires forall i :: 0 <= i <= p.N ==> S[i] == Node(p, i)
    requires Bands(a[..], b[..], c[..]) == Coefficients(p) && AmericanTrajectory(m, p, B)
    requires 0 <= j < p.M && B(j + 1) == Some(V[..])
    modifies V
    ensures B(j) == if ok then Some(V[..]) else None
    ensures !ok ==> B(0) == None
  {
    assert B(j + 1) == AsWrittenAmericanBackward(m, p, j + 1);
    ghost var V0 := V[..];
    ok := CnSolveStep(m, p, a, b, c, V, j);
    ProjectEarlyExercise(p, S, V);
    AsWrittenAmericanBackwardStep(m, p, j, V0);
    if !ok {
      AsWrittenAmericanBackwardStaysNone(m, p, j);
    }
  }

  /** Line 30: the time loop, from the values at expiry in `V` back to `t_0`. */
  method AmericanTimeLoop(m: Math, p: CnProblem, S: array<real>, a: array<real>, b: array<real>, c: array<real>,
                          V: array<real>, ghost B: int -> Option<seq<real>>) returns (ok: bool)
    requires Runs(p) && S.Length == p.N + 1 && V.Length == p.N + 1
    requires V != a && V != b && V != c && V != S
    requires forall i :: 0 <= i <= p.N ==> S[i] == Node(p, i)
    requires Bands(a[..], b[..], c[..]) == Coefficients(p) && AmericanTrajectory(m, p, B)
    requires B(p.M) == Some(V[..]) && (p.M <= 0 ==> B(0) == B(p.M))
    modifies V
    ensures B(0) == if ok then Some(V[..]) else None
  {
    var j := p.M - 1;
    while j >= 0
      invariant j < p.M && (-1 <= j || j + 1 == p.M)
      invariant B(j + 1) == Some(V[..])
    {
      ok := AmericanTimeStep(m, p, S, a, b, c, V, j, B);
      if !ok {
        return;
      }
      j := j - 1;
    }
    ok := true;
  }

  /** `pde_crank_nicolson_american`: the price the source computes, `None` when a pivot is zero. */
  method PdeCrankNicolsonAmerican(m: Math, S0: real, p: CnProblem) returns (price: Option<real>)
    requires InGrid(p, S0)
    ensures price == AsWrittenAmericanPrice(m, p, S0)
  {
    var S := SpotGrid(p);
    var V := TerminalValues(p, S);
    var a, b, c := FillCoefficients(p);
    ghost var B := (k: int) => AsWrittenAmericanBackward(m, p, k);
    AsWrittenAmericanBackwardFrom(m, p, p.M);
    var ok := AmericanTimeLoop(m, p, S, a, b, c, V, B);
    if !ok {
      return None;
    }
    var v := ReadOff(p, S, V, S0);
    price := Some(v);
  }
}
