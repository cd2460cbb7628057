/**
 * Shared numeric vocabulary for the pricing library.
 *
 * IEEE `double` is modelled as `real`. The C math library is not axiomatised:
 * every operation that needs `exp`, `log`, `sqrt`, `pow`, `erf`, `cos` or `sin`
 * takes a `Math` value: a `Libm` record of functions that is `Lawful`, which
 * states the handful of facts the proofs rely on (positivity, signs, ranges). Every
 * property proved here therefore holds for any implementation of the library
 * that has those facts, the true mathematical functions included.
 */
module Numerics {

  datatype Option<T> = None | Some(value: T)

  /** The C math library functions the library calls. */
  datatype Libm = Libm(exp: real -> real, log: real -> real, sqrt: real -> real,
                       pow: (real, real) -> real, erf: real -> real,
                       cos: real -> real, sin: real -> real)

  /**
   * The only facts about the C math library that the proofs use: `exp` is
   * positive and compares with 1 by the sign of its argument (`ExpSignLaw`);
   * `log` is non-positive on (0, 1] (`LogSignLaw`); `sqrt` is non-negative on
   * [0, inf), positive on (0, inf), 0 at 0 and 1 at 1; `pow` is positive for a
   * positive base and 1 for exponent 0; `erf` is odd and lies in [-1, 1].
   */
  ghost predicate Lawful(m: Libm)
  {
    && (forall x :: 0.0 < m.exp(x))
    && (forall x :: ExpSignLaw(m, x))
    && (forall x :: LogSignLaw(m, x))
    && (forall x :: 0.0 <= x ==> 0.0 <= m.sqrt(x))
    && (forall x :: 0.0 < x ==> 0.0 < m.sqrt(x))
    && m.sqrt(0.0) == 0.0
    && m.sqrt(1.0) == 1.0
    && (forall x, y :: 0.0 < x ==> 0.0 < m.pow(x, y))
    && (forall x :: 0.0 < x ==> m.pow(x, 0.0) == 1.0)
    && (forall x :: -1.0 <= m.erf(x) <= 1.0)
    && (forall x :: ErfOddLaw(m, x))
  }

  /**
   * How `exp` compares with 1, by the sign of its argument. Kept apart from
   * the laws above so that it is brought in by `ExpSign` where a proof needs
   * it, not at every `exp` in sight.
   */
  ghost predicate ExpSignLaw(m: Libm, x: real)
  {
    && (x <= 0.0 ==> m.exp(x) <= 1.0)
    && (x < 0.0 ==> m.exp(x) < 1.0)
    && (0.0 <= x ==> 1.0 <= m.exp(x))
  }

  /** `erf` is odd; brought in by `ErfOdd`. */
  ghost predicate ErfOddLaw(m: Libm, x: real)
  {
    m.erf(-x) == -m.erf(x)
  }

  /** `log` is non-positive on (0, 1]; brought in by `LogSign`. */
  ghost predicate LogSignLaw(m: Libm, x: real)
  {
    0.0 < x <= 1.0 ==> m.log(x) <= 0.0
  }

  /**
   * A math library with those facts. The witness, a library of step
   * functions, shows that the facts are consistent.
   */
  type Math = m: Libm | Lawful(m)
    witness Libm(x => if x < 0.0 then 0.5 else 1.0, x => 0.0, x => if 0.0 < x then 1.0 else 0.0,
                 (x, y) => 1.0, x => 0.0, x => 1.0, x => 0.0)

  lemma ExpSign(m: Math, x: real)
    ensures x <= 0.0 ==> m.exp(x) <= 1.0
    ensures x < 0.0 ==> m.exp(x) < 1.0
    ensures 0.0 <= x ==> 1.0 <= m.exp(x)
  {
    assert ExpSignLaw(m, x);
  }

  lemma ErfOdd(m: Math, x: real)
    ensures m.erf(-x) == -m.erf(x)
  {
    assert ErfOddLaw(m, x);
  }

  lemma LogSign(m: Math, x: real)
    ensures 0.0 < x <= 1.0 ==> m.log(x) <= 0.0
  {
    assert LogSignLaw(m, x);
  }

  /** `M_PI` as the library spells it out. */
  const Pi: real := 3.141592653589793

  /** `std::max` and `std::min` on doubles (no NaN in this model). */
  function Max(a: real, b: real): real { if a < b then b else a }
  function Min(a: real, b: real): real { if b < a then b else a }
  function Abs(x: real): real { if x < 0.0 then -x else x }
  function IMax(a: int, b: int): int { if a < b then b else a }
  function IMin(a: int, b: int): int { if b < a then b else a }

  /** C++ conversion of a double to an integer type: truncation toward zero. */
  function Trunc(x: real): (n: int)
    ensures Abs(n as real) <= Abs(x) < Abs(n as real) + 1.0
    ensures (0.0 <= x ==> 0 <= n) && (x <= 0.0 ==> n <= 0)
  {
    if 0.0 <= x then x.Floor else -((-x).Floor)
  }

  /** C++ `/` on integers: the quotient truncated toward zero (Dafny's `/` is Euclidean). */
  function CDiv(a: int, b: int): int
    requires b != 0
  {
    if (0 <= a) == (0 < b) then Abs0(a) / Abs0(b) else -(Abs0(a) / Abs0(b))
  }
  function Abs0(a: int): nat { if a < 0 then -a else a }

  /** `std::fmod(x, 1.0)`: x minus its truncation, with the sign of x. */
  function FmodOne(x: real): (r: real)
    ensures 0.0 <= x ==> 0.0 <= r < 1.0
    ensures x <= 0.0 ==> -1.0 < r <= 0.0
  {
    x - Trunc(x) as real
  }

  /** Standard normal cumulative distribution, `0.5 * (1 + erf(x / sqrt 2))`. */
  function NormCdf(m: Math, x: real): (p: real)
    ensures 0.0 <= p <= 1.0
  {
    var root2 := m.sqrt(2.0);
    0.5 * (1.0 + m.erf(x / root2))
  }

  /** The normal distribution is symmetric: N(-x) = 1 - N(x). */
  lemma NormCdfSymmetric(m: Math, x: real)
    ensures NormCdf(m, -x) == 1.0 - NormCdf(m, x)
  {
    var root2 := m.sqrt(2.0);
    assert 0.0 < root2;
    assert -x / root2 == -(x / root2);
    ErfOdd(m, x / root2);
  }

  /** Standard normal density as the library writes it: `exp(-x*x/2) / sqrt(2*pi)`. */
  function NormPdf(m: Math, x: real): (d: real)
    ensures 0.0 < d
  {
    var e := m.exp(-0.5 * x * x);
    var root2pi := m.sqrt(2.0 * Pi);
    e / root2pi
  }

  /** `(1 - w) * a + w * b`, the weighted average the interpolators write out. */
  function Lerp(a: real, b: real, w: real): (r: real)
    ensures 0.0 <= w <= 1.0 ==> Min(a, b) <= r <= Max(a, b)
    ensures w == 0.0 ==> r == a
    ensures w == 1.0 ==> r == b
    ensures a == b ==> r == a
  {
    LerpFromFirst(a, b, w);
    (1.0 - w) * a + w * b
  }

  /** Interpolating between larger end points with the same weight in [0, 1] gives a larger value. */
  lemma LerpMonotone(a0: real, b0: real, a1: real, b1: real, w: real)
    requires a0 <= a1 && b0 <= b1 && 0.0 <= w <= 1.0
    ensures Lerp(a0, b0, w) <= Lerp(a1, b1, w)
  {
    ScaleNonNegative(1.0 - w, a1 - a0);
    ScaleNonNegative(w, b1 - b0);
  }

  lemma LerpFromFirst(a: real, b: real, w: real)
    ensures (1.0 - w) * a + w * b == a + (b - a) * w
    ensures 0.0 <= w <= 1.0 ==> Min(a, b) <= (1.0 - w) * a + w * b <= Max(a, b)
  {
    if 0.0 <= w <= 1.0 {
      assert (b - a) - (b - a) * w == (b - a) * (1.0 - w);
      if a <= b {
        ProductNonNegative(b - a, 1.0 - w);
        ProductNonNegative(b - a, w);
      } else {
        ProductNonNegative(a - b, 1.0 - w);
        ProductNonNegative(a - b, w);
        assert (b - a) * w == -((a - b) * w);
      }
    }
  }

  /** `x * y` with its sign rule for two operands of the same strict sign. */
  function SignedProduct(x: real, y: real): (r: real)
    ensures 0.0 < x && 0.0 < y ==> 0.0 < r
    ensures x < 0.0 && y < 0.0 ==> 0.0 < r
  {
    x * y
  }

  /** `x * x`, kept as one term so that squares written in several places are recognised as equal. */
  function Square(x: real): (y: real)
    ensures 0.0 <= y
    ensures x != 0.0 ==> 0.0 < y
  {
    SignedProduct(x, x)
  }

  lemma ProductPositive(x: real, y: real)
    requires 0.0 < x && 0.0 < y
    ensures 0.0 < x * y
  {}

  lemma Distribute(a: real, b: real, f: real)
    ensures (a + b) * f == a * f + b * f
  {}

  lemma ProductNonNegative(x: real, y: real)
    requires 0.0 <= x && 0.0 <= y
    ensures 0.0 <= x * y
  {}

  /** Scaling by a positive factor keeps a positive value positive. */
  lemma ScalePositive(x: real, g: real)
    requires 0.0 < g
    ensures 0.0 < x ==> 0.0 < x * g
  {
    if 0.0 < x {
      ProductPositive(x, g);
    }
  }

  /** A non-negative factor keeps a non-negative value non-negative. */
  lemma ScaleNonNegative(g: real, x: real)
    requires 0.0 <= g
    ensures 0.0 <= x ==> 0.0 <= g * x
  {
    if 0.0 <= x {
      ProductNonNegative(g, x);
    }
  }

  function Sum(s: seq<real>): real
  {
    if s == [] then 0.0 else Sum(s[..|s| - 1]) + s[|s| - 1]
  }

  lemma {:induction false} SumNonNegative(s: seq<real>)
    requires forall i :: 0 <= i < |s| ==> 0.0 <= s[i]
    ensures 0.0 <= Sum(s)
  {
    if s != [] {
      SumNonNegative(s[..|s| - 1]);
    }
  }

  lemma SumAppend(s: seq<real>, x: real)
    ensures Sum(s + [x]) == Sum(s) + x
  {
    assert (s + [x])[..|s|] == s;
  }

  /** Horner's rule: the polynomial with coefficients `cs`, lowest degree first, at `x`. */
  function Horner(cs: seq<real>, x: real): real
  {
    if cs == [] then 0.0 else cs[0] + x * Horner(cs[1..], x)
  }
}
