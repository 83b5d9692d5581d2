/**
 * Three-component vectors (cpp-renderer/Vector3d.h), also used for the
 * System.Numerics `Vector3` values of the C# renderer.
 *
 * `Vec3` is the value a vector holds; the pure operations of the header
 * (`Dot`, `Cross`, the magnitudes, the binary operators) are functions on it.
 * The class `Vector3d` is the mutable C++ object: its setters and compound
 * operators update the three stored components in place, and its binary
 * operators copy the left operand and apply the compound form to the copy.
 */
module Vectors {
  import opened Numeric

  datatype Vec3 = Vec3(x: real, y: real, z: real)

  const Zero := Vec3(0.0, 0.0, 0.0)

  function Add(a: Vec3, b: Vec3): Vec3 { Vec3(a.x + b.x, a.y + b.y, a.z + b.z) }
  function Sub(a: Vec3, b: Vec3): Vec3 { Vec3(a.x - b.x, a.y - b.y, a.z - b.z) }
  function Neg(a: Vec3): Vec3 { Vec3(-a.x, -a.y, -a.z) }
  function Scale(a: Vec3, s: real): Vec3 { Vec3(a.x * s, a.y * s, a.z * s) }
  function MulElem(a: Vec3, b: Vec3): Vec3 { Vec3(a.x * b.x, a.y * b.y, a.z * b.z) }

  predicate NoZeroComponent(a: Vec3) { a.x != 0.0 && a.y != 0.0 && a.z != 0.0 }

  /** Element-by-element division; the header asserts that no divisor is 0. */
  function DivElem(a: Vec3, b: Vec3): Vec3
    requires NoZeroComponent(b)
  {
    Vec3(a.x / b.x, a.y / b.y, a.z / b.z)
  }

  /** Division by a scalar; the header asserts that the divisor is not 0. */
  function DivScalar(a: Vec3, s: real): Vec3
    requires s != 0.0
  {
    Vec3(a.x / s, a.y / s, a.z / s)
  }

  function Dot(a: Vec3, b: Vec3): real { a.x * b.x + a.y * b.y + a.z * b.z }

  function Cross(a: Vec3, b: Vec3): Vec3
  {
    Vec3(a.y * b.z - a.z * b.y, a.z * b.x - a.x * b.z, a.x * b.y - a.y * b.x)
  }

  function SquaredMagnitude(a: Vec3): real { Square(a.x) + Square(a.y) + Square(a.z) }

  function Magnitude(a: Vec3, sqrt: real -> real): real { sqrt(SquaredMagnitude(a)) }

  /**
   * `GetNormalized`: the vector divided by its magnitude, or the vector
   * itself when the magnitude is not positive.
   */
  function Normalized(a: Vec3, sqrt: real -> real): (r: Vec3)
    ensures Magnitude(a, sqrt) <= 0.0 ==> r == a
    ensures Magnitude(a, sqrt) > 0.0 ==> Scale(r, Magnitude(a, sqrt)) == a
  {
    var m := Magnitude(a, sqrt);
    if m > 0.0 then DivScalar(a, m) else a
  }

  /** Component `i` of a vector, as `Get(i)` and `operator[]` read it. */
  function Component(a: Vec3, i: nat): real
    requires i < 3
  {
    if i == 0 then a.x else if i == 1 then a.y else a.z
  }

  /** Two vectors whose non-zero components sit on different axes are orthogonal. */
  lemma DotOfDisjointSupports(a: Vec3, b: Vec3)
    requires (a.x == 0.0 || b.x == 0.0) && (a.y == 0.0 || b.y == 0.0) && (a.z == 0.0 || b.z == 0.0)
    ensures Dot(a, b) == 0.0
  {
  }

  /** A vector with a single non-zero component of 1 or -1 is a unit vector. */
  lemma AxisIsUnit(a: Vec3)
    requires || ((a.x == 1.0 || a.x == -1.0) && a.y == 0.0 && a.z == 0.0)
             || (a.x == 0.0 && (a.y == 1.0 || a.y == -1.0) && a.z == 0.0)
             || (a.x == 0.0 && a.y == 0.0 && (a.z == 1.0 || a.z == -1.0))
    ensures SquaredMagnitude(a) == 1.0
  {
    assert Square(0.0) == 0.0 && Square(1.0) == 1.0 && Square(-1.0) == 1.0;
  }

  /** The squared magnitude is never negative, and it is 0 only for the zero vector. */
  lemma SquaredMagnitudeSign(a: Vec3)
    ensures SquaredMagnitude(a) >= 0.0
    ensures SquaredMagnitude(a) == 0.0 <==> a == Zero
  {
    SquareSign(a.x);
    SquareSign(a.y);
    SquareSign(a.z);
    assert a == Vec3(a.x, a.y, a.z);
  }

  /** The cross product is orthogonal to both of its operands. */
  lemma CrossOrthogonal(a: Vec3, b: Vec3)
    ensures Dot(a, Cross(a, b)) == 0.0
    ensures Dot(b, Cross(a, b)) == 0.0
  {
    var c := Cross(a, b);
    calc {
      Dot(a, c);
      a.x * (a.y * b.z - a.z * b.y) + a.y * (a.z * b.x - a.x * b.z) + a.z * (a.x * b.y - a.y * b.x);
      (a.x * a.y * b.z - a.x * a.z * b.y) + (a.y * a.z * b.x - a.y * a.x * b.z) + (a.z * a.x * b.y - a.z * a.y * b.x);
      0.0;
    }
    calc {
      Dot(b, c);
      b.x * (a.y * b.z - a.z * b.y) + b.y * (a.z * b.x - a.x * b.z) + b.z * (a.x * b.y - a.y * b.x);
      (b.x * a.y * b.z - b.x * a.z * b.y) + (b.y * a.z * b.x - b.y * a.x * b.z) + (b.z * a.x * b.y - b.z * a.y * b.x);
      0.0;
    }
  }

  /** The cross product is anti-commutative. */
  lemma CrossAntiCommutative(a: Vec3, b: Vec3)
    ensures Cross(b, a) == Neg(Cross(a, b))
  {
  }

  /** `Dot` is symmetric and the squared magnitude is a vector's dot product with itself. */
  lemma DotProperties(a: Vec3, b: Vec3)
    ensures Dot(a, b) == Dot(b, a)
    ensures SquaredMagnitude(a) == Dot(a, a)
  {
  }

  /** Over the reals, subtracting what was added gives back the original. */
  lemma AddSubCancel(a: Vec3, b: Vec3)
    ensures Sub(Add(a, b), b) == a
  {
  }

  /** Negation is an involution. */
  lemma NegInvolutive(a: Vec3)
    ensures Neg(Neg(a)) == a
  {
  }

  /** With a real square root, a non-zero vector normalises to unit length. */
  lemma NormalizedIsUnit(a: Vec3, sqrt: real -> real)
    requires IsSqrt(sqrt)
    requires a != Zero
    ensures SquaredMagnitude(Normalized(a, sqrt)) == 1.0
  {
    SquaredMagnitudeSign(a);
    var s := SquaredMagnitude(a);
    var m := sqrt(s);
    assert Square(m) == s && m >= 0.0;
    assert m != 0.0;
    assert Normalized(a, sqrt) == DivScalar(a, m);
    QuotientMagnitude(a, m, s);
  }

  /** Dividing by m divides the squared magnitude by m². */
  lemma QuotientMagnitude(a: Vec3, m: real, s: real)
    requires m != 0.0 && Square(m) == s && s == SquaredMagnitude(a)
    ensures SquaredMagnitude(DivScalar(a, m)) == 1.0
  {
    QuotientSquare(a.x, m);
    QuotientSquare(a.y, m);
    QuotientSquare(a.z, m);
    SumOfQuotients(Square(a.x), Square(a.y), Square(a.z), s);
    assert s / s == 1.0;
  }

  /** Quotients by a common non-zero divisor add up to the quotient of the sum. */
  lemma SumOfQuotients(p: real, q: real, r: real, d: real)
    requires d != 0.0
    ensures p / d + q / d + r / d == (p + q + r) / d
  {
  }

  lemma QuotientSquare(p: real, m: real)
    requires m != 0.0
    ensures Square(m) != 0.0
    ensures Square(p / m) == Square(p) / Square(m)
  {
    SquareSign(m);
    var q := p / m;
    assert p == q * m;
    assert p * p == (q * q) * (m * m);
  }

  /**
   * The mutable C++ vector. Its three stored components are the fields
   * `x`, `y`, `z`; `Value()` is the vector they hold.
   */
  class Vector3d {
    var x: real
    var y: real
    var z: real

    function Value(): Vec3
      reads this
    {
      Vec3(x, y, z)
    }

    /** The default constructor: the zero vector. */
    constructor ()
      ensures Value() == Zero
    {
      x, y, z := 0.0, 0.0, 0.0;
    }

    constructor FromComponents(fx: real, fy: real, fz: real)
      ensures Value() == Vec3(fx, fy, fz)
    {
      x, y, z := fx, fy, fz;
    }

    /** The constructor from a C array reads its first three entries. */
    constructor FromArray(values: array<real>)
      requires values.Length >= 3
      ensures Value() == Vec3(values[0], values[1], values[2])
    {
      x, y, z := values[0], values[1], values[2];
    }

    /** The copy constructor. */
    constructor Copy(other: Vector3d)
      ensures Value() == other.Value()
    {
      x, y, z := other.x, other.y, other.z;
    }

    /** `operator=`: copies the components (a self-assignment changes nothing). */
    method Assign(other: Vector3d)
      modifies this
      ensures Value() == old(other.Value())
    {
      if other != this {
        x, y, z := other.x, other.y, other.z;
      }
    }

    method Set(fx: real, fy: real, fz: real)
      modifies this
      ensures Value() == Vec3(fx, fy, fz)
    {
      x, y, z := fx, fy, fz;
    }

    method SetX(v: real)
      modifies this
      ensures Value() == old(Value()).(x := v)
    {
      x := v;
    }

    method SetY(v: real)
      modifies this
      ensures Value() == old(Value()).(y := v)
    {
      y := v;
    }

    method SetZ(v: real)
      modifies this
      ensures Value() == old(Value()).(z := v)
    {
      z := v;
    }

    /** `Get(i)` asserts `i < 3`. */
    function Get(i: nat): (r: real)
      requires i < 3
      reads this
      ensures r == Component(Value(), i)
    {
      if i == 0 then x else if i == 1 then y else z
    }

    /** `operator==` compares the three components exactly. */
    function Equals(other: Vector3d): (r: bool)
      reads this, other
      ensures r <==> Value() == other.Value()
    {
      x == other.x && y == other.y && z == other.z
    }

    /** `operator!=` is the negation of `operator==`. */
    function NotEquals(other: Vector3d): (r: bool)
      reads this, other
      ensures r <==> Value() != other.Value()
    {
      !Equals(other)
    }

    /** `operator+=`; also correct when `other` is this very vector. */
    method AddAssign(other: Vector3d)
      modifies this
      ensures Value() == Add(old(Value()), old(other.Value()))
    {
      SetX(x + other.x);
      SetY(y + other.y);
      SetZ(z + other.z);
    }

    /** `operator-=`. */
    method SubAssign(other: Vector3d)
      modifies this
      ensures Value() == Sub(old(Value()), old(other.Value()))
    {
      SetX(x - other.x);
      SetY(y - other.y);
      SetZ(z - other.z);
    }

    /** `operator*=` with a vector: element by element. */
    method MulAssign(other: Vector3d)
      modifies this
      ensures Value() == MulElem(old(Value()), old(other.Value()))
    {
      SetX(x * other.x);
      SetY(y * other.y);
      SetZ(z * other.z);
    }

    /** `operator*=` with a scalar. */
    method ScaleAssign(s: real)
      modifies this
      ensures Value() == Scale(old(Value()), s)
    {
      SetX(x * s);
      SetY(y * s);
      SetZ(z * s);
    }

    /** `operator/=` with a vector; each divisor component is asserted non-zero. */
    method DivAssign(other: Vector3d)
      requires NoZeroComponent(other.Value())
      modifies this
      ensures Value() == DivElem(old(Value()), old(other.Value()))
    {
      SetX(x / other.x);
      SetY(y / other.y);
      SetZ(z / other.z);
    }

    /** `operator/=` with a scalar, which is asserted non-zero. */
    method DivScalarAssign(s: real)
      requires s != 0.0
      modifies this
      ensures Value() == DivScalar(old(Value()), s)
    {
      SetX(x / s);
      SetY(y / s);
      SetZ(z / s);
    }

    /** Binary `operator+`: copy, then `+=`; neither operand changes. */
    method Plus(other: Vector3d) returns (r: Vector3d)
      ensures fresh(r) && r.Value() == Add(Value(), other.Value())
    {
      r := new Vector3d.Copy(this);
      r.AddAssign(other);
    }

    /** Binary `operator-`: copy, then `-=`. */
    method Minus(other: Vector3d) returns (r: Vector3d)
      ensures fresh(r) && r.Value() == Sub(Value(), other.Value())
    {
      r := new Vector3d.Copy(this);
      r.SubAssign(other);
    }

    /** Binary `operator*` with a vector: copy, then element-wise `*=`. */
    method Times(other: Vector3d) returns (r: Vector3d)
      ensures fresh(r) && r.Value() == MulElem(Value(), other.Value())
    {
      r := new Vector3d.Copy(this);
      r.MulAssign(other);
    }

    /** Binary `operator*` with a scalar: copy, then `*=`. */
    method TimesScalar(s: real) returns (r: Vector3d)
      ensures fresh(r) && r.Value() == Scale(Value(), s)
    {
      r := new Vector3d.Copy(this);
      r.ScaleAssign(s);
    }

    /** Binary `operator/` with a vector: copy, then element-wise `/=`. */
    method Divided(other: Vector3d) returns (r: Vector3d)
      requires NoZeroComponent(other.Value())
      ensures fresh(r) && r.Value() == DivElem(Value(), other.Value())
    {
      r := new Vector3d.Copy(this);
      r.DivAssign(other);
    }

    /** Binary `operator/` with a scalar: copy, then `/=`. */
    method DividedScalar(s: real) returns (r: Vector3d)
      requires s != 0.0
      ensures fresh(r) && r.Value() == DivScalar(Value(), s)
    {
      r := new Vector3d.Copy(this);
      r.DivScalarAssign(s);
    }

    /** Unary `operator-`, which `GetOpposite` calls. */
    method Negated() returns (r: Vector3d)
      ensures fresh(r) && r.Value() == Neg(Value())
    {
      r := new Vector3d.FromComponents(-x, -y, -z);
    }

    /** `oppose`: this vector becomes its opposite. */
    method Oppose()
      modifies this
      ensures Value() == Neg(old(Value()))
    {
      var o := Negated();
      Assign(o);
    }

    /** `GetNormalized`: a copy, divided by the magnitude only when that is positive. */
    method GetNormalized(sqrt: real -> real) returns (r: Vector3d)
      ensures fresh(r) && r.Value() == Normalized(Value(), sqrt)
    {
      r := new Vector3d.Copy(this);
      var m := Magnitude(Value(), sqrt);
      if m > 0.0 {
        r.DivScalarAssign(m);
      }
    }

    /** `normalize`: this vector becomes its normalised copy. */
    method Normalize(sqrt: real -> real)
      modifies this
      ensures Value() == Normalized(old(Value()), sqrt)
    {
      var n := GetNormalized(sqrt);
      Assign(n);
    }
  }
}
