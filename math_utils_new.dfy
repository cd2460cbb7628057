/**
 * The alternative utility header `include/math_utils_new.hpp`: a Halton
 * generator without the epsilon clamp but with reset and skip, the
 * MurmurHash64A-style indexed uniform, linear interpolation, clamping and the
 * Beasley-Springer-Moro inverse normal CDF. Its `radical_inverse` is the same
 * digit loop as the live header's and is modelled once, by
 * `MathUtils.RadicalInverse`.
 */
module MathUtilsNew {
  import opened Numerics
  import opened MathUtils

  // ---------------------------------------------------------------------
  // Halton2D with reset and skip
  // ---------------------------------------------------------------------

  /** The unclamped point at index `n`: the fractional part of radical inverse plus shift. */
  function ShiftedHaltonPoint(n: nat, shift1: real, shift2: real): (x: (real, real))
    requires 0.0 <= shift1 && 0.0 <= shift2
    ensures 0.0 <= x.0 < 1.0 && 0.0 <= x.1 < 1.0
  {
    RadicalInverseInUnit(n, 2);
    RadicalInverseInUnit(n, 3);
    (FmodOne(RadicalInverseOf(n, 2) + shift1), FmodOne(RadicalInverseOf(n, 3) + shift2))
  }

  /** With no shift the point is the pair of radical inverses itself. */
  lemma UnshiftedPointIsRadicalInverse(n: nat)
    ensures ShiftedHaltonPoint(n, 0.0, 0.0) == (RadicalInverseOf(n, 2), RadicalInverseOf(n, 3))
  {
    RadicalInverseInUnit(n, 2);
    RadicalInverseInUnit(n, 3);
    FmodOneOfFraction(RadicalInverseOf(n, 2));
    FmodOneOfFraction(RadicalInverseOf(n, 3));
  }

  lemma FmodOneOfFraction(x: real)
    requires 0.0 <= x < 1.0
    ensures FmodOne(x + 0.0) == x
  {
    assert Trunc(x) == 0;
  }

  class Halton2D {
    var n: nat
    var shift1: real
    var shift2: real

    ghost predicate Valid()
      reads this
    {
      n < TwoTo64 && 0.0 <= shift1 < 1.0 && 0.0 <= shift2 < 1.0
    }

    /** `Halton2D()`: index 1 and no shift. */
    constructor Unshifted()
      ensures Valid() && n == 1 && shift1 == 0.0 && shift2 == 0.0
    {
      n, shift1, shift2 := 1, 0.0, 0.0;
    }

    /** `Halton2D(seed)`: index 1 and the first two uniforms of `RNG(seed)` as shifts. */
    constructor Seeded(engine: Engine)
      requires CanonicalInUnit(engine)
      ensures Valid() && n == 1
      ensures shift1 == UniOf(engine.canonical(0)) && shift2 == UniOf(engine.canonical(1))
    {
      var r := new Rng(engine);
      var s1 := r.Uni();
      var s2 := r.Uni();
      n, shift1, shift2 := 1, s1, s2;
    }

    /** `next`: the point at index `n`, in [0, 1) per coordinate, then `n` advanced by one. */
    method Next() returns (x1: real, x2: real)
      requires Valid()
      modifies this`n
      ensures Valid() && n == (old(n) + 1) % TwoTo64
      ensures (x1, x2) == ShiftedHaltonPoint(old(n), shift1, shift2)
      ensures 0.0 <= x1 < 1.0 && 0.0 <= x2 < 1.0
    {
      var r2 := RadicalInverse(n, 2);
      var r3 := RadicalInverse(n, 3);
      x1 := FmodOne(r2 + shift1);
      x2 := FmodOne(r3 + shift2);
      assert (x1, x2) == ShiftedHaltonPoint(n, shift1, shift2);
      n := (n + 1) % TwoTo64;
    }

    /** `reset`: back to index 1, shifts kept. */
    method Reset()
      requires Valid()
      modifies this`n
      ensures Valid() && n == 1
    {
      n := 1;
    }

    /** `skip`: the index moves on by `count`, wrapping like a 64-bit counter. */
    method Skip(count: nat)
      requires Valid() && count < TwoTo64
      modifies this`n
      ensures Valid() && n == (old(n) + count) % TwoTo64
    {
      n := (n + count) % TwoTo64;
    }
  }

  // ---------------------------------------------------------------------
  // Indexed uniform from a MurmurHash64A-style mix
  // ---------------------------------------------------------------------

  const MurmurM: bv64 := 0xc6a4_a793_5bd1_e995

  /** The 64-bit hash `hash_uniform` computes before scaling. */
  function HashBits(index: bv64, seed: bv64): bv64
  {
    var h0 := seed ^ (8 * MurmurM);
    var k0 := index * MurmurM;
    var k1 := k0 ^ (k0 >> 47);
    var k2 := k1 * MurmurM;
    var h1 := (h0 ^ k2) * MurmurM;
    var h2 := h1 ^ (h1 >> 47);
    var h3 := h2 * MurmurM;
    h3 ^ (h3 >> 47)
  }

  const Uint64Max: real := 18446744073709551615.0

  /** `hash_uniform` as written: the hash divided by 2^64 - 1, a value in the closed interval [0, 1]. */
  function HashUniform(index: bv64, seed: bv64): (u: real)
    ensures 0.0 <= u <= 1.0
  {
    HashBits(index, seed) as int as real / Uint64Max
  }

  /**
   * The closed upper end is reached: index 0 with this seed hashes to
   * 2^64 - 1, and the result is exactly 1.
   */
  lemma HashUniformReachesOne()
    ensures HashBits(0, 0xa15a_c5c2_7d2c_5b48) == 0xffff_ffff_ffff_ffff
    ensures HashUniform(0, 0xa15a_c5c2_7d2c_5b48) == 1.0
  {}

  /**
   * The half-open uniform the documentation promises, made the way the live
   * header makes one: the top 53 bits of the same hash scaled by 2^-53.
   */
  function HashUniformHalfOpen(index: bv64, seed: bv64): (u: real)
    ensures 0.0 <= u < 1.0
    ensures (u * 9007199254740992.0).Floor as real == u * 9007199254740992.0
  {
    U01FromU64(HashBits(index, seed))
  }

  // ---------------------------------------------------------------------
  // Interpolation and clamping
  // ---------------------------------------------------------------------

  /** `linear_interp`: y0 for nodes closer than 1e-12, else the line through both nodes. */
  function LinearInterp(x0: real, y0: real, x1: real, y1: real, x: real): (y: real)
    ensures Abs(x1 - x0) < 0.000000000001 ==> y == y0
    ensures x == x0 ==> y == y0
    ensures x == x1 && 0.000000000001 <= Abs(x1 - x0) ==> y == y1
  {
    if Abs(x1 - x0) < 0.000000000001 then y0
    else
      var t := (x - x0) / (x1 - x0);
      y0 + t * (y1 - y0)
  }

  /** Between distinct nodes the interpolant stays between the two node values. */
  lemma LinearInterpBetween(x0: real, y0: real, x1: real, y1: real, x: real)
    requires 0.000000000001 <= x1 - x0 && x0 <= x <= x1
    ensures Min(y0, y1) <= LinearInterp(x0, y0, x1, y1, x) <= Max(y0, y1)
  {
    QuotientInUnitClosed(x - x0, x1 - x0);
    ScaleByFraction((x - x0) / (x1 - x0), y1 - y0);
  }

  lemma ScaleByFraction(t: real, d: real)
    requires 0.0 <= t <= 1.0
    ensures 0.0 <= d ==> 0.0 <= t * d <= d
    ensures d < 0.0 ==> d <= t * d <= 0.0
  {
    assert t * d - d == (t - 1.0) * d;
  }

  lemma QuotientInUnitClosed(a: real, b: real)
    requires 0.0 <= a <= b && 0.0 < b
    ensures 0.0 <= a / b <= 1.0
  {}

  /** `clamp`: `max(lo, min(value, hi))`. */
  function Clamp(value: real, lo: real, hi: real): (c: real)
    ensures lo <= hi ==> lo <= c <= hi
    ensures lo <= value <= hi ==> c == value
    ensures hi < lo ==> c == lo
  {
    Max(lo, Min(value, hi))
  }

  lemma ClampIdempotent(value: real, lo: real, hi: real)
    ensures Clamp(Clamp(value, lo, hi), lo, hi) == Clamp(value, lo, hi)
  {}

  // ---------------------------------------------------------------------
  // Inverse normal CDF
  // ---------------------------------------------------------------------

  /** A double that may be one of the infinities. */
  datatype Extended = NegInfinity | PosInfinity | Finite(v: real)

  function Negate(x: Extended): Extended
  {
    match x
    case NegInfinity => PosInfinity
    case PosInfinity => NegInfinity
    case Finite(v) => Finite(-v)
  }

  /** The numerator coefficients a0..a3 of the central region, in r = u^2. */
  const CentralNumerator: seq<real> := [2.50662823884, -18.61500062529, 41.39119773534, -25.44106049637]

  /** The denominator coefficients 1, b1..b4 of the central region, in r = u^2. */
  const CentralDenominator: seq<real> := [1.0, -8.47351093090, 23.08336743743, -21.06224101826, 3.13082909833]

  /** The tail correction applied to t = sqrt(-2 log s). */
  function TailValue(t: real): real
  {
    var den := 1.0 + 0.99229 * t + 0.04481 * t * t;
    if den == 0.0 then t else t - (2.30753 + 0.27061 * t) / den
  }

  /** The central rational approximation at u = p - 1/2, a ratio of polynomials in u^2. */
  function CentralValue(u: real): real
  {
    var r := u * u;
    Ratio(u, Horner(CentralNumerator, r), Horner(CentralDenominator, r))
  }

  function Ratio(u: real, num: real, den: real): real
  {
    if den == 0.0 then 0.0 else u * num / den
  }

  /** The tail formula at p: built on the smaller of p and 1 - p, signed like p - 1/2. */
  function TailBranch(m: Math, p: real): real
  {
    var s := if p - 0.5 > 0.0 then 1.0 - p else p;
    var result := TailValue(m.sqrt(-2.0 * m.log(s)));
    if p - 0.5 > 0.0 then result else -result
  }

  /**
   * `norm_inv_cdf`: the infinities outside (0, 1); inside, the rational
   * central approximation for |p - 1/2| < 0.42 and the tail formula beyond.
   */
  function NormInvCdf(m: Math, p: real): (x: Extended)
    ensures p <= 0.0 <==> x == NegInfinity
    ensures 1.0 <= p <==> x == PosInfinity
  {
    if p <= 0.0 || p >= 1.0 then
      (if p <= 0.5 then NegInfinity else PosInfinity)
    else if Abs(p - 0.5) < 0.42 then
      Finite(CentralValue(p - 0.5))
    else
      Finite(TailBranch(m, p))
  }

  lemma RatioOdd(u: real, num: real, den: real)
    ensures Ratio(-u, num, den) == -Ratio(u, num, den)
  {}

  lemma SquareOfNegation(u: real)
    ensures (-u) * (-u) == u * u
  {}

  lemma CentralValueOdd(u: real)
    ensures CentralValue(-u) == -CentralValue(u)
  {
    SquareOfNegation(u);
    RatioOdd(u, Horner(CentralNumerator, u * u), Horner(CentralDenominator, u * u));
  }

  lemma TailBranchOdd(m: Math, p: real)
    requires p != 0.5
    ensures TailBranch(m, 1.0 - p) == -TailBranch(m, p)
  {
    if p - 0.5 > 0.0 {
      assert !((1.0 - p) - 0.5 > 0.0);
    } else {
      assert (1.0 - p) - 0.5 > 0.0;
      assert 1.0 - (1.0 - p) == p;
    }
  }

  /** Over the reals the approximation is odd about 1/2: f(1 - p) = -f(p). */
  lemma NormInvCdfAntisymmetric(m: Math, p: real)
    requires 0.0 < p < 1.0
    ensures NormInvCdf(m, 1.0 - p) == Negate(NormInvCdf(m, p))
  {
    assert (1.0 - p) - 0.5 == -(p - 0.5);
    if Abs(p - 0.5) < 0.42 {
      CentralValueOdd(p - 0.5);
    } else {
      TailBranchOdd(m, p);
    }
  }
}
