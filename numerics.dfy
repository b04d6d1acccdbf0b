/**
 * Numerics shared by every part of the stick-figure model: the constant
 * M_PI, the C++ helpers std::min/std::max/std::abs/std::fmod/std::ceil and
 * the truncating conversion to int, all over exact reals, and the libm
 * functions (sqrt, cos, sin, atan2) as an uninterpreted bundle `Math`.
 */
module Numerics {

  /** M_PI as written in the segment header (Preliminary/include/Segment.h:15). */
  const Pi: real := 3.14159265358979323846
  const TwoPi: real := 2.0 * Pi

  function Abs(x: real): (r: real)
    ensures r >= 0.0
    ensures r == x || r == -x
  {
    if x < 0.0 then -x else x
  }

  /** std::max(a, b): returns a unless a < b. */
  function Max(a: real, b: real): (r: real)
    ensures r >= a && r >= b
    ensures r == a || r == b
  {
    if a < b then b else a
  }

  /** std::min(a, b): returns a unless b < a. */
  function Min(a: real, b: real): (r: real)
    ensures r <= a && r <= b
    ensures r == a || r == b
  {
    if b < a then b else a
  }

  /** static_cast<int> of a double: rounds toward zero. */
  function Trunc(x: real): (n: int)
    ensures x >= 0.0 ==> n as real <= x < n as real + 1.0
    ensures x < 0.0 ==> n as real - 1.0 < x <= n as real
  {
    if x >= 0.0 then x.Floor else -((-x).Floor)
  }

  /** std::ceil, as an integer. */
  function Ceil(x: real): (n: int)
    ensures n as real - 1.0 < x <= n as real
  {
    -((-x).Floor)
  }

  // The product lemmas below take the product p as a parameter: stating facts
  // about a named product keeps the solver's reasoning linear.

  lemma MulNonneg(a: real, b: real, p: real)
    requires a >= 0.0 && b >= 0.0 && p == a * b
    ensures p >= 0.0
  {}

  lemma MulPos(a: real, b: real, p: real)
    requires a > 0.0 && b > 0.0 && p == a * b
    ensures p > 0.0
  {}

  lemma Square(a: real, p: real)
    requires p == a * a
    ensures p >= 0.0
    ensures p == 0.0 <==> a == 0.0
  {
    if a > 0.0 {
      MulPos(a, a, p);
    } else if a < 0.0 {
      MulPos(-a, -a, p);
    }
  }

  lemma SumOfNonneg(p: real, q: real, s: real)
    requires p >= 0.0 && q >= 0.0 && s == p + q
    ensures s >= 0.0
    ensures s == 0.0 <==> p == 0.0 && q == 0.0
  {}

  /** a*a + b*b is non-negative and vanishes only at a = b = 0. */
  lemma SumOfSquares(a: real, b: real, s: real)
    requires s == a * a + b * b
    ensures s >= 0.0
    ensures s == 0.0 <==> a == 0.0 && b == 0.0
  {
    var p, q := a * a, b * b;
    Square(a, p);
    Square(b, q);
    SumOfNonneg(p, q, s);
  }

  /** A product p = y*d with |d| < 1 stays strictly inside (-y, y) and has the sign of d. */
  lemma UnitScale(y: real, d: real, p: real)
    requires y > 0.0 && -1.0 < d < 1.0 && p == y * d
    ensures -y < p < y
    ensures d >= 0.0 ==> p >= 0.0
    ensures d <= 0.0 ==> p <= 0.0
  {
    MulPos(y, 1.0 - d, y - p);
    MulPos(y, 1.0 + d, y + p);
    if d >= 0.0 {
      MulNonneg(y, d, p);
    } else {
      MulNonneg(y, -d, -p);
    }
  }

  lemma SignOfQuotient(x: real, y: real, q: real)
    requires y > 0.0 && q * y == x
    ensures x >= 0.0 <==> q >= 0.0
    ensures x < y <==> q < 1.0
  {
    if q < 0.0 { MulPos(-q, y, -x); }
    if q >= 0.0 { MulNonneg(q, y, x); }
    if q >= 1.0 { MulNonneg(q - 1.0, y, x - y); }
    if q < 1.0 { MulPos(1.0 - q, y, y - x); }
  }

  lemma Distribute(x: real, y: real, q: real, t: real)
    requires q * y == x
    ensures x - y * t == y * (q - t)
  {}

  /** The remainder x - y*n, for n the quotient x/y = q rounded toward zero. */
  lemma RemainderBounds(x: real, y: real, q: real, n: int)
    requires y > 0.0 && q * y == x
    requires q >= 0.0 ==> n as real <= q < n as real + 1.0
    requires q < 0.0 ==> n as real - 1.0 < q <= n as real
    ensures var r := x - y * n as real;
      -y < r < y && (x >= 0.0 ==> r >= 0.0) && (x < 0.0 ==> r <= 0.0) && (0.0 <= x < y ==> r == x)
  {
    var t := n as real;
    SignOfQuotient(x, y, q);
    Distribute(x, y, q, t);
    UnitScale(y, q - t, x - y * t);
    if 0.0 <= x < y {
      assert n == 0;
    }
  }

  lemma QuotientTimes(x: real, y: real)
    requires y > 0.0
    ensures (x / y) * y == x
  {}

  /**
   * std::fmod(x, y) for y > 0: x minus y times the truncated quotient. The
   * result has the sign of x, lies strictly between -y and y, and is x itself
   * when x already lies in [0, y).
   */
  function Fmod(x: real, y: real): (r: real)
    requires y > 0.0
    ensures -y < r < y
    ensures x >= 0.0 ==> r >= 0.0
    ensures x < 0.0 ==> r <= 0.0
    ensures 0.0 <= x < y ==> r == x
  {
    QuotientTimes(x, y);
    RemainderBounds(x, y, x / y, Trunc(x / y));
    x - y * Trunc(x / y) as real
  }

  /**
   * The libm functions the model needs, kept uninterpreted. The model never
   * evaluates them; it only relies on the facts in `Sound`.
   */
  datatype Math = Math(sqrt: real -> real, cos: real -> real, sin: real -> real, atan2: (real, real) -> real)

  /** The only facts about libm the proofs use. */
  ghost predicate Sound(m: Math)
  {
    m.sqrt(0.0) == 0.0 &&
    (forall x: real {:trigger m.sqrt(x)} :: x >= 0.0 ==> m.sqrt(x) >= 0.0) &&
    (forall x: real {:trigger m.sqrt(x)} :: x > 0.0 ==> m.sqrt(x) > 0.0) &&
    (forall x: real {:trigger m.sqrt(x)} :: x >= 0.0 ==> m.sqrt(x) * m.sqrt(x) == x) &&
    (forall a: real {:trigger m.cos(a)} {:trigger m.sin(a)} :: m.cos(a) * m.cos(a) + m.sin(a) * m.sin(a) == 1.0)
  }
}
