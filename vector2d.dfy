/**
 * The 2D vector value type (Preliminary/src/Vector2D.cpp). The arithmetic
 * operators, comparisons and products are functions on the `Vec` value; the
 * compound assignments and `normalize()`, which overwrite x and y in place,
 * are methods of `MutableVector`.
 */
module Vector2D {
  import opened Numerics

  datatype Vec = Vec(x: real, y: real)

  /** The default constructor's vector. */
  const Zero: Vec := Vec(0.0, 0.0)

  /** Tolerance of the component-wise `==`. */
  const Epsilon: real := 0.000001

  function Add(a: Vec, b: Vec): Vec { Vec(a.x + b.x, a.y + b.y) }

  function Sub(a: Vec, b: Vec): Vec { Vec(a.x - b.x, a.y - b.y) }

  function Scale(v: Vec, k: real): Vec { Vec(v.x * k, v.y * k) }

  /** `operator/`: division by zero gives the vector back unchanged. */
  function Div(v: Vec, k: real): Vec
  {
    if k == 0.0 then v else Vec(v.x / k, v.y / k)
  }

  /** `operator==`: both components closer than Epsilon. */
  predicate ApproxEq(a: Vec, b: Vec)
  {
    Abs(a.x - b.x) < Epsilon && Abs(a.y - b.y) < Epsilon
  }

  predicate NotApproxEq(a: Vec, b: Vec)
  {
    !ApproxEq(a, b)
  }

  function LengthSquared(v: Vec): real { v.x * v.x + v.y * v.y }

  function DistanceSquared(a: Vec, b: Vec): real { LengthSquared(Sub(a, b)) }

  /** `length()`; `magnitude()` is declared as its alias. */
  function Length(m: Math, v: Vec): real { m.sqrt(LengthSquared(v)) }

  function Distance(m: Math, a: Vec, b: Vec): real { Length(m, Sub(a, b)) }

  /** `normalized()`: the zero-length vector maps to (0, 0). */
  function Normalized(m: Math, v: Vec): Vec
  {
    var len := Length(m, v);
    if len == 0.0 then Vec(0.0, 0.0) else Vec(v.x / len, v.y / len)
  }

  function Dot(a: Vec, b: Vec): real { a.x * b.x + a.y * b.y }

  function Cross(a: Vec, b: Vec): real { a.x * b.y - a.y * b.x }

  lemma AddThenSub(a: Vec, b: Vec)
    ensures Sub(Add(a, b), b) == a
    ensures Add(Sub(a, b), b) == a
  {}

  lemma DivByZero(v: Vec)
    ensures Div(v, 0.0) == v
  {}

  /** Dividing by a non-zero k undoes scaling by k. */
  lemma DivUndoesScale(v: Vec, k: real)
    requires k != 0.0
    ensures Div(Scale(v, k), k) == v
  {}

  lemma ApproxEqReflexive(a: Vec)
    ensures ApproxEq(a, a)
  {}

  lemma ApproxEqSymmetric(a: Vec, b: Vec)
    ensures ApproxEq(a, b) <==> ApproxEq(b, a)
  {}

  /** `==` is not transitive: 0 ~ 6e-7 ~ 1.2e-6, but 0 and 1.2e-6 differ by more than Epsilon. */
  lemma ApproxEqNotTransitive()
    ensures ApproxEq(Vec(0.0, 0.0), Vec(0.0000006, 0.0))
    ensures ApproxEq(Vec(0.0000006, 0.0), Vec(0.0000012, 0.0))
    ensures !ApproxEq(Vec(0.0, 0.0), Vec(0.0000012, 0.0))
  {}

  lemma NotApproxEqIsNegation(a: Vec, b: Vec)
    ensures NotApproxEq(a, b) <==> !ApproxEq(a, b)
  {}

  lemma LengthSquaredNonneg(v: Vec)
    ensures LengthSquared(v) >= 0.0
    ensures LengthSquared(v) == 0.0 <==> v == Zero
  {
    SumOfSquares(v.x, v.y, LengthSquared(v));
  }

  lemma DistanceSquaredSymmetric(a: Vec, b: Vec)
    ensures DistanceSquared(a, b) == DistanceSquared(b, a)
    ensures DistanceSquared(a, b) >= 0.0
  {
    assert (a.x - b.x) * (a.x - b.x) == (b.x - a.x) * (b.x - a.x);
    assert (a.y - b.y) * (a.y - b.y) == (b.y - a.y) * (b.y - a.y);
    LengthSquaredNonneg(Sub(a, b));
  }

  lemma DistanceSymmetric(m: Math, a: Vec, b: Vec)
    requires Sound(m)
    ensures Distance(m, a, b) == Distance(m, b, a)
    ensures Distance(m, a, b) >= 0.0
  {
    DistanceSquaredSymmetric(a, b);
  }

  /** The length is zero exactly for the zero vector, and positive otherwise. */
  lemma LengthZeroIffZero(m: Math, v: Vec)
    requires Sound(m)
    ensures Length(m, v) >= 0.0
    ensures Length(m, v) == 0.0 <==> v == Zero
  {
    LengthSquaredNonneg(v);
  }

  lemma NormalizedZero(m: Math)
    ensures Normalized(m, Zero) == Zero
  {
    var len := Length(m, Zero);
    if len != 0.0 {
      assert 0.0 / len == 0.0;
    }
  }

  /** A non-zero vector normalizes to unit squared length. */
  lemma NormalizedIsUnit(m: Math, v: Vec)
    requires Sound(m) && v != Zero
    ensures LengthSquared(Normalized(m, v)) == 1.0
  {
    var s := LengthSquared(v);
    var len := Length(m, v);
    LengthSquaredNonneg(v);
    assert len * len == s && len > 0.0;
    var u := Normalized(m, v);
    assert u == Vec(v.x / len, v.y / len);
    assert u.x * u.x == (v.x * v.x) / (len * len);
    assert u.y * u.y == (v.y * v.y) / (len * len);
    assert LengthSquared(u) == s / s;
  }

  lemma DotSymmetric(a: Vec, b: Vec)
    ensures Dot(a, b) == Dot(b, a)
  {}

  lemma CrossAntisymmetric(a: Vec, b: Vec)
    ensures Cross(a, b) == -Cross(b, a)
    ensures Cross(a, a) == 0.0
  {}

  /**
   * A Vector2D object whose compound assignments (`+=`, `-=`, `*=`, `/=`)
   * and `normalize()` overwrite its components in place.
   */
  class MutableVector {
    var x: real
    var y: real

    function Value(): Vec
      reads this
    {
      Vec(x, y)
    }

    constructor (v: Vec)
      ensures Value() == v
    {
      x, y := v.x, v.y;
    }

    method AddAssign(v: Vec)
      modifies this
      ensures Value() == Add(old(Value()), v)
    {
      x := x + v.x;
      y := y + v.y;
    }

    method SubAssign(v: Vec)
      modifies this
      ensures Value() == Sub(old(Value()), v)
    {
      x := x - v.x;
      y := y - v.y;
    }

    method ScaleAssign(k: real)
      modifies this
      ensures Value() == Scale(old(Value()), k)
    {
      x := x * k;
      y := y * k;
    }

    /** `/=`: a zero divisor leaves the vector unchanged. */
    method DivAssign(k: real)
      modifies this
      ensures Value() == Div(old(Value()), k)
      ensures k == 0.0 ==> Value() == old(Value())
    {
      if k != 0.0 {
        x := x / k;
        y := y / k;
      }
    }

    /** `normalize()`: agrees with `Normalized`, so it is a no-op on the zero vector. */
    method Normalize(m: Math)
      requires Sound(m)
      modifies this
      ensures Value() == Normalized(m, old(Value()))
      ensures old(Value()) == Zero ==> Value() == Zero
    {
      var len := m.sqrt(x * x + y * y);
      assert len == Length(m, old(Value()));
      if len != 0.0 {
        x := x / len;
        y := y / len;
      }
    }
  }
}
