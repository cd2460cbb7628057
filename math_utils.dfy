/**
 * Random-stream building blocks of `include/math_utils.hpp`: the seeded
 * generator, correlated normal pairs, the radical inverse, the stateful and
 * the index-based Halton generators, Box-Muller, and the stateless 64-bit
 * hash used for reproducible per-path draws.
 */
module MathUtils {
  import opened Numerics

  // ---------------------------------------------------------------------
  // The seeded generator
  // ---------------------------------------------------------------------

  /** An infinite stream of draws, indexed by how many were taken before. */
  type Stream = nat -> real

  /**
   * What a seeded `std::mt19937_64` feeds the library: the variate the
   * normal distribution returns and the variate the uniform distribution
   * returns at each position of the request order.
   */
  datatype Engine = Engine(gauss: Stream, canonical: Stream)

  /** `std::uniform_real_distribution(0, 1)` never leaves [0, 1]. */
  ghost predicate CanonicalInUnit(e: Engine)
  {
    forall k :: 0.0 <= e.canonical(k) <= 1.0
  }

  /** `std::nextafter(1.0, 0.0)`, the largest double below 1: 1 - 2^-53. */
  const BelowOne: real := 1.0 - 1.0 / 9007199254740992.0

  /** The uniform draw `RNG::uni` makes of a canonical variate. */
  function UniOf(c: real): (u: real)
    ensures u <= c && u < 1.0
    ensures 0.0 <= c ==> 0.0 <= u
    ensures c < BelowOne ==> u == c
  {
    Min(c, BelowOne)
  }

  /** `struct RNG`: one engine and the number of variates taken from it. */
  class Rng {
    const engine: Engine
    var taken: nat

    constructor (e: Engine)
      ensures engine == e && taken == 0
    {
      engine := e;
      taken := 0;
    }

    /** `gauss()`: the next normal variate. */
    method Gauss() returns (z: real)
      modifies this
      ensures z == engine.gauss(old(taken)) && taken == old(taken) + 1
    {
      z := engine.gauss(taken);
      taken := taken + 1;
    }

    /** `uni()`: the next uniform variate, kept strictly below 1. */
    method Uni() returns (u: real)
      modifies this
      ensures u == UniOf(engine.canonical(old(taken))) && taken == old(taken) + 1
      ensures CanonicalInUnit(engine) ==> 0.0 <= u < 1.0
    {
      u := UniOf(engine.canonical(taken));
      taken := taken + 1;
    }
  }

  // ---------------------------------------------------------------------
  // Correlated normal pairs
  // ---------------------------------------------------------------------

  /** The pair `correlated_gaussians` builds from two independent draws. */
  function Correlate(m: Math, rho: real, u1: real, u2: real): (z: (real, real))
    ensures z.0 == u1
    ensures rho == 0.0 ==> z.1 == u2
    ensures rho == 1.0 ==> z.1 == u1
    ensures rho == -1.0 ==> z.1 == -u1
  {
    (u1, rho * u1 + m.sqrt(Max(0.0, 1.0 - rho * rho)) * u2)
  }

  /** `correlated_gaussians`: two draws, in order, turned into a correlated pair. */
  method CorrelatedGaussians(m: Math, rho: real, rng: Rng) returns (z1: real, z2: real)
    modifies rng
    ensures (z1, z2) == Correlate(m, rho, rng.engine.gauss(old(rng.taken)), rng.engine.gauss(old(rng.taken) + 1))
    ensures rng.taken == old(rng.taken) + 2
  {
    var u1 := rng.Gauss();
    var u2 := rng.Gauss();
    z1, z2 := Correlate(m, rho, u1, u2).0, Correlate(m, rho, u1, u2).1;
  }

  // ---------------------------------------------------------------------
  // Radical inverse
  // ---------------------------------------------------------------------

  lemma DivShrinks(k: nat, b: nat)
    requires 0 < k && 2 <= b
    ensures k / b < k
  {}

  /** The base-`b` digits of `k`, lowest first; each is below `b`. */
  function Digits(k: nat, b: nat): (ds: seq<nat>)
    requires 2 <= b
    ensures forall i :: 0 <= i < |ds| ==> ds[i] < b
    ensures k == 0 <==> ds == []
    decreases k
  {
    if k == 0 then [] else DivShrinks(k, b); [k % b] + Digits(k / b, b)
  }

  lemma DigitsUnroll(k: nat, b: nat)
    requires 2 <= b && 0 < k
    ensures k / b < k
    ensures Digits(k, b) != [] && Digits(k, b)[0] == k % b && Digits(k, b)[1..] == Digits(k / b, b)
  {
    DivShrinks(k, b);
  }

  /** `f d0 + f inv d1 + f inv^2 d2 + ...`: the digits weighted by the powers of `inv`. */
  function WeightedSum(ds: seq<nat>, inv: real, f: real): real
  {
    if ds == [] then 0.0 else f * ds[0] as real + WeightedSum(ds[1..], inv, f * inv)
  }

  /**
   * The base-`b` radical inverse of `n`: its digits mirrored about the radix
   * point, `0.d0 d1 d2 ...` in base `b`.
   */
  function RadicalInverseOf(n: nat, b: nat): real
    requires 2 <= b
  {
    WeightedSum(Digits(n, b), 1.0 / b as real, 1.0 / b as real)
  }

  /** One digit below `B` at weight `f`, plus a tail below `f inv B = f`, stays below `f B`. */
  lemma DigitStepBound(total: real, f: real, d: real, inv: real, B: real, rest: real)
    requires 0.0 < f && 0.0 <= d <= B - 1.0 && inv * B == 1.0
    requires total == f * d + rest && 0.0 <= rest < (f * inv) * B
    ensures 0.0 <= total < f * B
  {
    assert (f * inv) * B == f * (inv * B);
    ProductNonNegative(f, d);
    ProductNonNegative(f, B - 1.0 - d);
    assert f * B == f * d + f * (B - 1.0 - d) + f;
  }

  /** Digits below `b` weighted from `f` on by the powers of `1 / b` sum to less than `f b`. */
  lemma {:induction false} WeightedSumBounds(ds: seq<nat>, b: nat, inv: real, f: real)
    requires 2 <= b && 0.0 < inv && inv * (b as real) == 1.0 && 0.0 < f
    requires forall i :: 0 <= i < |ds| ==> ds[i] < b
    ensures 0.0 <= WeightedSum(ds, inv, f) < f * (b as real)
  {
    if ds == [] {
      ProductPositive(f, b as real);
    } else {
      ProductPositive(f, inv);
      WeightedSumBounds(ds[1..], b, inv, f * inv);
      assert ds[0] < b;
      DigitStepBound(WeightedSum(ds, inv, f), f, ds[0] as real, inv, b as real, WeightedSum(ds[1..], inv, f * inv));
    }
  }

  /** The radical inverse of 0 is 0, and every radical inverse lies in [0, 1). */
  lemma RadicalInverseInUnit(n: nat, b: nat)
    requires 2 <= b
    ensures n == 0 ==> RadicalInverseOf(n, b) == 0.0
    ensures 0.0 <= RadicalInverseOf(n, b) < 1.0
  {
    var inv := 1.0 / b as real;
    assert inv * (b as real) == 1.0;
    WeightedSumBounds(Digits(n, b), b, inv, inv);
  }

  /** What the digit loop still adds from the `k` left to consume at the current weight `f`. */
  function DigitLoop(k: nat, b: nat, inv: real, f: real): real
    requires 2 <= b
    decreases k
  {
    if k == 0 then 0.0 else DivShrinks(k, b); f * (k % b) as real + DigitLoop(k / b, b, inv, f * inv)
  }

  lemma DigitLoopUnroll(k: nat, b: nat, inv: real, f: real)
    requires 2 <= b && 0 < k
    ensures k / b < k
    ensures DigitLoop(k, b, inv, f) == f * (k % b) as real + DigitLoop(k / b, b, inv, f * inv)
  {
    DivShrinks(k, b);
  }

  /** The digit loop peels exactly the digits of `k`, so it adds their weighted sum. */
  lemma {:induction false} DigitLoopIsWeightedSum(k: nat, b: nat, inv: real, f: real)
    requires 2 <= b
    ensures DigitLoop(k, b, inv, f) == WeightedSum(Digits(k, b), inv, f)
    decreases k
  {
    if k != 0 {
      DigitLoopUnroll(k, b, inv, f);
      DigitsUnroll(k, b);
      DigitLoopIsWeightedSum(k / b, b, inv, f * inv);
    }
  }

  /**
   * `radical_inverse`: the digit loop, peeling the lowest digit of `n` each
   * round; the partial sum plus what the remaining digits will add is always
   * the radical inverse of `n`.
   */
  method RadicalInverse(n: nat, base: nat) returns (result: real)
    requires 2 <= base
    ensures result == RadicalInverseOf(n, base)
    ensures n == 0 ==> result == 0.0
    ensures 0.0 <= result < 1.0
  {
    var inv := 1.0 / base as real;
    var f := inv;
    result := 0.0;
    var k: nat := n;
    DigitLoopIsWeightedSum(n, base, inv, inv);
    RadicalInverseInUnit(n, base);
    while k > 0
      invariant result + DigitLoop(k, base, inv, f) == RadicalInverseOf(n, base)
      decreases k
    {
      DigitLoopUnroll(k, base, inv, f);
      result := result + f * (k % base) as real;
      k := k / base;
      f := f * inv;
    }
  }

  // ---------------------------------------------------------------------
  // Halton points
  // ---------------------------------------------------------------------

  const Eps: real := 0.000000000001

  /** The two separate `if`s that keep a coordinate away from exact 0 and 1. */
  function EpsClamp(u: real): (c: real)
    ensures Eps <= c <= 1.0 - Eps
    ensures Eps <= u <= 1.0 - Eps ==> c == u
    ensures u < Eps ==> c == Eps
    ensures 1.0 - Eps < u ==> c == 1.0 - Eps
  {
    var lifted := if u < Eps then Eps else u;
    if lifted > 1.0 - Eps then 1.0 - Eps else lifted
  }

  /** One coordinate of a shifted Halton point at index `n` in base `b`. */
  function HaltonCoordinate(n: nat, b: nat, shift: real): (u: real)
    requires 2 <= b
    ensures Eps <= u <= 1.0 - Eps
  {
    EpsClamp(FmodOne(RadicalInverseOf(n, b) + shift))
  }

  const TwoTo64: nat := 0x1_0000_0000_0000_0000

  /** `n + 1` on a 64-bit unsigned counter: the largest value wraps to 0. */
  function Increment64(n: nat): (r: nat)
    requires n < TwoTo64
    ensures r < TwoTo64
  {
    if n + 1 == TwoTo64 then 0 else n + 1
  }

  /** The wrapping increment is addition modulo 2^64. */
  lemma Increment64IsModular(n: nat)
    requires n < TwoTo64
    ensures Increment64(n) == (n + 1) % TwoTo64
  {}

  /** `struct Halton2D`: the next index and the two random shifts. */
  class Halton2D {
    var n: nat
    var shift1: real
    var shift2: real

    ghost predicate Valid()
      reads this
    {
      n < TwoTo64
    }

    /** `Halton2D(seed)`: index 1 and the first two uniforms of `RNG(seed)` as shifts. */
    constructor (engine: Engine)
      ensures Valid() && n == 1
      ensures shift1 == UniOf(engine.canonical(0)) && shift2 == UniOf(engine.canonical(1))
    {
      var r := new Rng(engine);
      var s1 := r.Uni();
      var s2 := r.Uni();
      n, shift1, shift2 := 1, s1, s2;
    }

    /** `next`: the point at index `n` (bases 2 and 3), clamped, and `n` advanced with wrap-around. */
    method Next() returns (u1: real, u2: real)
      requires Valid()
      modifies this
      ensures Valid() && n == Increment64(old(n))
      ensures shift1 == old(shift1) && shift2 == old(shift2)
      ensures u1 == HaltonCoordinate(old(n), 2, shift1)
      ensures u2 == HaltonCoordinate(old(n), 3, shift2)
      ensures Eps <= u1 <= 1.0 - Eps && Eps <= u2 <= 1.0 - Eps
    {
      var r2 := RadicalInverse(n, 2);
      var r3 := RadicalInverse(n, 3);
      u1 := FmodOne(r2 + shift1);
      u2 := FmodOne(r3 + shift2);
      n := Increment64(n);
      if u1 < Eps {
        u1 := Eps;
      }
      if u1 > 1.0 - Eps {
        u1 := 1.0 - Eps;
      }
      if u2 < Eps {
        u2 := Eps;
      }
      if u2 > 1.0 - Eps {
        u2 := 1.0 - Eps;
      }
    }
  }

  // ---------------------------------------------------------------------
  // Box-Muller
  // ---------------------------------------------------------------------

  /** The radius `sqrt(-2 log u1)` of a Box-Muller pair. */
  function BoxMullerRadius(m: Math, u1: real): (r: real)
    ensures 0.0 < u1 <= 1.0 ==> 0.0 <= r
  {
    LogSign(m, u1);
    m.sqrt(-2.0 * m.log(u1))
  }

  /** `box_muller`: the radius times the cosine and the sine of the angle `2 pi u2`. */
  function BoxMuller(m: Math, u1: real, u2: real): (real, real)
  {
    var r := BoxMullerRadius(m, u1);
    var theta := 2.0 * Pi * u2;
    (r * m.cos(theta), r * m.sin(theta))
  }

  // ---------------------------------------------------------------------
  // Stateless hash-based draws
  // ---------------------------------------------------------------------

  /** `mix64`: wrapping add, then three xor-shift/multiply rounds. */
  function Mix64(x: bv64): bv64
  {
    var a := x + 0x9e37_79b9_7f4a_7c15;
    var b := (a ^ (a >> 30)) * 0xbf58_476d_1ce4_e5b9;
    var c := (b ^ (b >> 27)) * 0x94d0_49bb_1331_11eb;
    c ^ (c >> 31)
  }

  /**
   * `mix64` is the SplitMix64 output function: from state 0 the generator's
   * first two outputs are the published SplitMix64 values.
   */
  lemma Mix64SplitMixOutputs()
    ensures Mix64(0) == 0xe220_a839_7b1d_cdaf
    ensures Mix64(0x9e37_79b9_7f4a_7c15) == 0x6e78_9e6a_a1b9_65f4
  {}

  /**
   * `u01_from_u64`: bits 11..63 of `x` as an integer k, scaled by 2^-53. The
   * mask keeps all 53 bits the shift leaves, so k is `x` divided by 2^11.
   */
  function U01FromU64(x: bv64): (u: real)
    ensures 0.0 <= u < 1.0
    ensures (u * 9007199254740992.0).Floor as real == u * 9007199254740992.0
  {
    var k := x as int / 2048;
    assert 0 <= k < 9007199254740992 by {
      assert x as int < TwoTo64;
    }
    ScaleBack(k, 9007199254740992.0);
    k as real / 9007199254740992.0
  }

  lemma ScaleBack(k: int, d: real)
    requires 0.0 < d
    ensures (k as real / d) * d == k as real
  {}

  /** The two uniforms `normals_from_index` derives from (seed, path, step), floored at 1e-12. */
  function IndexUniforms(seed: bv64, i: bv64, k: bv64): (u: (real, real))
    ensures Eps <= u.0 < 1.0 && Eps <= u.1 < 1.0
    ensures u.0 == Max(Eps, U01FromU64(Mix64(seed ^ (i * 0x9e37_79b9_7f4a_7c15 + k * 0x94d0_49bb_1331_11eb))))
    ensures u.1 == Max(Eps, U01FromU64(Mix64((seed + 0xdead_beef_cafe_babe) ^ (i * 0xbf58_476d_1ce4_e5b9 + k * 0x9e37_79b9_7f4a_7c15))))
  {
    var h1 := Mix64(seed ^ (i * 0x9e37_79b9_7f4a_7c15 + k * 0x94d0_49bb_1331_11eb));
    var h2 := Mix64((seed + 0xdead_beef_cafe_babe) ^ (i * 0xbf58_476d_1ce4_e5b9 + k * 0x9e37_79b9_7f4a_7c15));
    (Max(Eps, U01FromU64(h1)), Max(Eps, U01FromU64(h2)))
  }

  /**
   * `normals_from_index`: a Box-Muller pair from the floored uniforms, so the
   * logarithm is only ever taken of a number in [1e-12, 1).
   */
  function NormalsFromIndex(m: Math, seed: bv64, i: bv64, k: bv64): (z: (real, real))
    ensures exists u1, u2 :: Eps <= u1 < 1.0 && Eps <= u2 < 1.0 && z == BoxMuller(m, u1, u2)
  {
    var u := IndexUniforms(seed, i, k);
    BoxMuller(m, u.0, u.1)
  }

  /** A Cranley-Patterson shift hashed from a seed: `u01_from_u64(mix64(seed))`. */
  function HashedShift(seed: bv64): (s: real)
    ensures 0.0 <= s < 1.0
  {
    U01FromU64(Mix64(seed))
  }

  /** `i + 1` on a 64-bit unsigned index, which wraps to 0 after the largest index. */
  function WrappedSuccessor(i: bv64): nat
  {
    Increment64(i as int)
  }

  /**
   * `halton_from_index`: the point the stateful generator returns on its
   * (i+1)-th call, with shifts hashed from the seed instead of drawn.
   */
  method HaltonFromIndex(seed: bv64, i: bv64) returns (u1: real, u2: real)
    ensures u1 == HaltonCoordinate(WrappedSuccessor(i), 2, HashedShift(seed))
    ensures u2 == HaltonCoordinate(WrappedSuccessor(i), 3, HashedShift(seed ^ 0xabcd_ef01_2345_6789))
    ensures Eps <= u1 <= 1.0 - Eps && Eps <= u2 <= 1.0 - Eps
  {
    var index := WrappedSuccessor(i);
    u1 := ShiftedCoordinate(index, 2, HashedShift(seed));
    u2 := ShiftedCoordinate(index, 3, HashedShift(seed ^ 0xabcd_ef01_2345_6789));
  }

  /** One coordinate of `halton_from_index`: radical inverse, shift, fractional part, clamp. */
  method ShiftedCoordinate(index: nat, base: nat, shift: real) returns (u: real)
    requires 2 <= base
    ensures u == HaltonCoordinate(index, base, shift)
  {
    var r := RadicalInverse(index, base);
    u := ClampAwayFromEnds(FmodOne(r + shift));
  }

  /** The two guards of `halton_from_index` that keep a coordinate inside [1e-12, 1 - 1e-12]. */
  method ClampAwayFromEnds(x: real) returns (u: real)
    ensures u == EpsClamp(x)
  {
    u := x;
    if u < Eps {
      u := Eps;
    }
    if u > 1.0 - Eps {
      u := 1.0 - Eps;
    }
  }

  /**
   * The index-based generator agrees with the stateful one: for the same
   * shifts, index i of the former is the (i+1)-th call of the latter, whose
   * counter then holds i + 1.
   */
  lemma {:induction false} HaltonCallIndex(calls: nat)
    requires calls < TwoTo64 - 1
    ensures HaltonIndexAfter(calls) == calls + 1
  {
    if calls > 0 {
      HaltonCallIndex(calls - 1);
    }
  }

  /** The counter of a fresh `Halton2D` after `calls` calls of `Next`. */
  function HaltonIndexAfter(calls: nat): (n: nat)
    ensures n < TwoTo64
  {
    if calls == 0 then 1 else Increment64(HaltonIndexAfter(calls - 1))
  }
}
