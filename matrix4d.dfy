/**
 * 4x4 matrices (cpp-renderer/Matrix4d.h).
 *
 * A matrix is 16 doubles. The class comment documents a column-major layout:
 * the element in row r, column c is stored at index 4c + r, which `Entry`
 * reads. The pure operations (`Product`, `Transposed`, the translation and
 * scaling matrices, `AffineMul`) are functions on the 16-element sequence;
 * the class `Matrix4d` holds the 16 values in an array and its mutators
 * overwrite that array in place.
 */
module Matrices {
  import opened Vectors

  datatype Option<T> = None | Some(value: T)

  predicate IsMatrix(m: seq<real>) { |m| == 16 }

  /** The element in row `r`, column `c` under the documented column-major layout. */
  function Entry(m: seq<real>, r: nat, c: nat): real
    requires IsMatrix(m) && r < 4 && c < 4
  {
    m[4 * c + r]
  }

  /** Sixteen values given row by row, stored column by column (the 16-value constructor). */
  function FromRowWise(rows: seq<real>): (m: seq<real>)
    requires |rows| == 16
    ensures IsMatrix(m)
    ensures forall r, c :: 0 <= r < 4 && 0 <= c < 4 ==> Entry(m, r, c) == rows[4 * r + c]
  {
    [rows[0], rows[4], rows[8], rows[12],
     rows[1], rows[5], rows[9], rows[13],
     rows[2], rows[6], rows[10], rows[14],
     rows[3], rows[7], rows[11], rows[15]]
  }

  function Identity(): (m: seq<real>)
    ensures IsMatrix(m)
    ensures forall r, c :: 0 <= r < 4 && 0 <= c < 4 ==> Entry(m, r, c) == if r == c then 1.0 else 0.0
  {
    [1.0, 0.0, 0.0, 0.0,
     0.0, 1.0, 0.0, 0.0,
     0.0, 0.0, 1.0, 0.0,
     0.0, 0.0, 0.0, 1.0]
  }

  /** Row `r` of `a` times column `c` of `b`. */
  function Cell(a: seq<real>, b: seq<real>, r: nat, c: nat): real
    requires IsMatrix(a) && IsMatrix(b) && r < 4 && c < 4
  {
    Entry(a, r, 0) * Entry(b, 0, c) + Entry(a, r, 1) * Entry(b, 1, c)
      + Entry(a, r, 2) * Entry(b, 2, c) + Entry(a, r, 3) * Entry(b, 3, c)
  }

  /** `operator*` between matrices: the ordinary matrix product `a · b`. */
  function Product(a: seq<real>, b: seq<real>): (m: seq<real>)
    requires IsMatrix(a) && IsMatrix(b)
    ensures IsMatrix(m)
    ensures forall r, c :: 0 <= r < 4 && 0 <= c < 4 ==> Entry(m, r, c) == Cell(a, b, r, c)
  {
    [Cell(a, b, 0, 0), Cell(a, b, 1, 0), Cell(a, b, 2, 0), Cell(a, b, 3, 0),
     Cell(a, b, 0, 1), Cell(a, b, 1, 1), Cell(a, b, 2, 1), Cell(a, b, 3, 1),
     Cell(a, b, 0, 2), Cell(a, b, 1, 2), Cell(a, b, 2, 2), Cell(a, b, 3, 2),
     Cell(a, b, 0, 3), Cell(a, b, 1, 3), Cell(a, b, 2, 3), Cell(a, b, 3, 3)]
  }

  /** `GetTransposed`: rows become columns. */
  function Transposed(m: seq<real>): (t: seq<real>)
    requires IsMatrix(m)
    ensures IsMatrix(t)
    ensures forall r, c :: 0 <= r < 4 && 0 <= c < 4 ==> Entry(t, r, c) == Entry(m, c, r)
  {
    FromRowWise(m)
  }

  /** The matrix `GetTranslated` multiplies by. */
  function TranslationMatrix(t: Vec3): (m: seq<real>)
    ensures IsMatrix(m)
  {
    FromRowWise([1.0, 0.0, 0.0, t.x,
                 0.0, 1.0, 0.0, t.y,
                 0.0, 0.0, 1.0, t.z,
                 0.0, 0.0, 0.0, 1.0])
  }

  /** The matrix `GetScaled` multiplies by. */
  function ScalingMatrix(s: Vec3): (m: seq<real>)
    ensures IsMatrix(m)
  {
    FromRowWise([s.x, 0.0, 0.0, 0.0,
                 0.0, s.y, 0.0, 0.0,
                 0.0, 0.0, s.z, 0.0,
                 0.0, 0.0, 0.0, 1.0])
  }

  /** `SetTranslation` as a value: indices 12 to 14 take the vector and index 15 becomes 1. */
  function WithTranslation(m: seq<real>, t: Vec3): (r: seq<real>)
    requires IsMatrix(m)
    ensures IsMatrix(r)
  {
    m[12 := t.x][13 := t.y][14 := t.z][15 := 1.0]
  }

  /** `GetTranslation`: indices 12 to 14. */
  function TranslationOf(m: seq<real>): Vec3
    requires IsMatrix(m)
  {
    Vec3(m[12], m[13], m[14])
  }

  /** `AffineMul`: the upper-left 3x3 block applied to a vector. */
  function AffineMul(m: seq<real>, v: Vec3): Vec3
    requires IsMatrix(m)
  {
    Vec3(m[0] * v.x + m[4] * v.y + m[8] * v.z,
         m[1] * v.x + m[5] * v.y + m[9] * v.z,
         m[2] * v.x + m[6] * v.y + m[10] * v.z)
  }

  /** Row `r` of `m` applied to the homogeneous point (v, 1). */
  function HomogeneousRow(m: seq<real>, r: nat, v: Vec3): real
    requires IsMatrix(m) && r < 4
  {
    m[r] * v.x + m[r + 4] * v.y + m[r + 8] * v.z + m[r + 12]
  }

  /**
   * `operator*` with a vector: homogeneous coordinates, divided by the fourth
   * row's result `w`. There is no result when `w` is 0 (the double division
   * would give an infinity).
   */
  function TransformPoint(m: seq<real>, v: Vec3): (r: Option<Vec3>)
    requires IsMatrix(m)
    ensures r.Some? <==> HomogeneousRow(m, 3, v) != 0.0
    ensures r.Some? ==> Scale(r.value, HomogeneousRow(m, 3, v))
                        == Vec3(HomogeneousRow(m, 0, v), HomogeneousRow(m, 1, v), HomogeneousRow(m, 2, v))
  {
    var w := HomogeneousRow(m, 3, v);
    if w == 0.0 then None
    else Some(Vec3(HomogeneousRow(m, 0, v) / w, HomogeneousRow(m, 1, v) / w, HomogeneousRow(m, 2, v) / w))
  }

  /** Transposing twice gives back the matrix. */
  lemma TransposeInvolutive(m: seq<real>)
    requires IsMatrix(m)
    ensures Transposed(Transposed(m)) == m
  {
  }

  /** The identity is neutral on both sides of the product. */
  lemma {:induction false} ProductIdentity(m: seq<real>)
    requires IsMatrix(m)
    ensures Product(Identity(), m) == m
    ensures Product(m, Identity()) == m
  {
    var i := Identity();
    forall k | 0 <= k < 16
      ensures Product(i, m)[k] == m[k] && Product(m, i)[k] == m[k]
    {
      var r, c := k % 4, k / 4;
      assert k == 4 * c + r;
      assert Product(i, m)[k] == Cell(i, m, r, c);
      assert Product(m, i)[k] == Cell(m, i, r, c);
    }
  }

  /** Postmultiplying a translation by another adds the two offsets. */
  lemma TranslationsCompose(a: Vec3, b: Vec3)
    ensures Product(TranslationMatrix(a), TranslationMatrix(b)) == TranslationMatrix(Add(a, b))
  {
    var p := Product(TranslationMatrix(a), TranslationMatrix(b));
    var q := TranslationMatrix(Add(a, b));
    forall k | 0 <= k < 16 ensures p[k] == q[k] {
      var r, c := k % 4, k / 4;
      assert k == 4 * c + r;
    }
  }

  /** A translation matrix moves a point by its offset; a scaling matrix scales it per axis. */
  lemma TranslationAndScalingAct(t: Vec3, s: Vec3, v: Vec3)
    ensures TransformPoint(TranslationMatrix(t), v) == Some(Add(v, t))
    ensures TransformPoint(ScalingMatrix(s), v) == Some(MulElem(v, s))
  {
    var tm, sm := TranslationMatrix(t), ScalingMatrix(s);
    assert HomogeneousRow(tm, 3, v) == 1.0 && HomogeneousRow(sm, 3, v) == 1.0;
    assert HomogeneousRow(tm, 0, v) == v.x + t.x && HomogeneousRow(sm, 0, v) == v.x * s.x;
    assert HomogeneousRow(tm, 1, v) == v.y + t.y && HomogeneousRow(sm, 1, v) == v.y * s.y;
    assert HomogeneousRow(tm, 2, v) == v.z + t.z && HomogeneousRow(sm, 2, v) == v.z * s.z;
    var w := TransformPoint(sm, v);
    assert w.Some?;
    assert w.value.x == v.x * s.x;
    assert w.value.y == v.y * s.y;
    assert w.value.z == v.z * s.z;
    assert w.value == MulElem(v, s);
  }

  /** `AffineMul` ignores the translation entries 12 to 14. */
  lemma AffineMulIgnoresTranslation(m: seq<real>, t: Vec3, v: Vec3)
    requires IsMatrix(m)
    ensures AffineMul(WithTranslation(m, t), v) == AffineMul(m, v)
    ensures AffineMul(TranslationMatrix(t), v) == v
  {
    var w := WithTranslation(m, t);
    assert forall i :: 0 <= i < 12 ==> w[i] == m[i];
    var tm := TranslationMatrix(t);
    assert tm[0] == tm[5] == tm[10] == 1.0;
    assert tm[1] == tm[2] == tm[4] == tm[6] == tm[8] == tm[9] == 0.0;
    assert AffineMul(tm, v) == Vec3(v.x, v.y, v.z);
  }

  /** `GetTranslation` reads back what `SetTranslation` wrote; the 3x3 block is untouched. */
  lemma TranslationRoundTrip(m: seq<real>, t: Vec3)
    requires IsMatrix(m)
    ensures TranslationOf(WithTranslation(m, t)) == t
    ensures forall i :: 0 <= i < 12 ==> WithTranslation(m, t)[i] == m[i]
  {
  }

  /**
   * The mutable C++ matrix. `elements` is the union's 16-double array; the
   * `[4][4]` view of the same union is addressed as `[row][col]`, i.e. index
   * 4 * row + col.
   */
  class Matrix4d {
    const elements: array<real>

    ghost predicate Valid()
      reads this
    {
      elements.Length == 16
    }

    function Elements(): (m: seq<real>)
      reads this, elements
      requires Valid()
      ensures IsMatrix(m)
    {
      elements[..]
    }

    /** The default constructor: the identity. */
    constructor ()
      ensures Valid() && fresh(elements) && Elements() == Identity()
    {
      elements := new real[16](i requires 0 <= i < 16 => Identity()[i]);
    }

    /** The 16-value constructor: values given row by row, stored column-major. */
    constructor FromValues(m00: real, m01: real, m02: real, m03: real,
                           m10: real, m11: real, m12: real, m13: real,
                           m20: real, m21: real, m22: real, m23: real,
                           m30: real, m31: real, m32: real, m33: real)
      ensures Valid() && fresh(elements)
      ensures Elements() == FromRowWise([m00, m01, m02, m03, m10, m11, m12, m13,
                                         m20, m21, m22, m23, m30, m31, m32, m33])
    {
      var m := FromRowWise([m00, m01, m02, m03, m10, m11, m12, m13,
                            m20, m21, m22, m23, m30, m31, m32, m33]);
      elements := new real[16](i requires 0 <= i < 16 => m[i]);
    }

    /**
     * The constructor from vectors: each vector is a row of the 3x4 upper part,
     * the translation column is 0 and the last row is (four, 1).
     */
    constructor FromVectors(one: Vec3, two: Vec3, three: Vec3, four: Vec3)
      ensures Valid() && fresh(elements)
      ensures Elements() == FromRowWise([one.x, one.y, one.z, 0.0, two.x, two.y, two.z, 0.0,
                                         three.x, three.y, three.z, 0.0, four.x, four.y, four.z, 1.0])
    {
      var m := FromRowWise([one.x, one.y, one.z, 0.0, two.x, two.y, two.z, 0.0,
                            three.x, three.y, three.z, 0.0, four.x, four.y, four.z, 1.0]);
      elements := new real[16](i requires 0 <= i < 16 => m[i]);
    }

    /** The constructor from a pointer copies 16 doubles verbatim. */
    constructor FromPointer(p: array<real>)
      requires p.Length >= 16
      ensures Valid() && fresh(elements) && Elements() == p[..16]
    {
      elements := new real[16](i reads p requires 0 <= i < 16 => p[i]);
    }

    /** The constructor from a `[4][4]` array copies it verbatim: entry [r][c] lands at 4r + c. */
    constructor FromArray44(a: array2<real>)
      requires a.Length0 == 4 && a.Length1 == 4
      ensures Valid() && fresh(elements)
      ensures forall r, c :: 0 <= r < 4 && 0 <= c < 4 ==> Elements()[4 * r + c] == a[r, c]
    {
      elements := new real[16](i reads a requires 0 <= i < 16 => a[i / 4, i % 4]);
    }

    /** The copy constructor. */
    constructor Copy(other: Matrix4d)
      requires other.Valid()
      ensures Valid() && fresh(elements) && Elements() == other.Elements()
    {
      elements := new real[16](i reads other, other.elements requires 0 <= i < 16 => other.elements[i]);
    }

    /** `Set(pointer)` and `operator=`: all 16 values are overwritten. */
    method SetAll(values: seq<real>)
      requires Valid() && |values| == 16
      modifies elements
      ensures Elements() == values
    {
      forall i | 0 <= i < 16 {
        elements[i] := values[i];
      }
    }

    /** `identity()`. */
    method SetIdentity()
      requires Valid()
      modifies elements
      ensures Elements() == Identity()
    {
      SetAll(Identity());
    }

    /**
     * `Get(i)` asserts `i < 16`: flat index i is column i / 4, row i % 4, the
     * same element the `[4][4]` view gives at [i / 4][i % 4].
     */
    function GetIndex(i: nat): (v: real)
      requires Valid() && i < 16
      reads this, elements
      ensures v == Entry(Elements(), i % 4, i / 4)
      ensures v == Get(i / 4, i % 4)
    {
      elements[i]
    }

    /** `Get(row, col)` and `operator()`: the `[4][4]` view, index 4 * row + col. */
    function Get(row: nat, col: nat): (v: real)
      requires Valid() && row < 4 && col < 4
      reads this, elements
      ensures v == Entry(Elements(), col, row)
      ensures v == Entry(Transposed(Elements()), row, col)
    {
      elements[4 * row + col]
    }

    /** `Set(row, col, value)`: writes index 4 * row + col. */
    method Set(row: nat, col: nat, value: real)
      requires Valid() && row < 4 && col < 4
      modifies elements
      ensures Elements() == old(Elements())[4 * row + col := value]
      ensures Get(row, col) == value
    {
      elements[4 * row + col] := value;
    }

    /** `SetRow` with four values: indices row, row + 4, row + 8, row + 12. */
    method SetRow(row: nat, values: seq<real>)
      requires Valid() && row < 4 && |values| == 4
      modifies elements
      ensures forall c :: 0 <= c < 4 ==> Entry(Elements(), row, c) == values[c]
      ensures forall r, c :: 0 <= r < 4 && r != row && 0 <= c < 4 ==> Entry(Elements(), r, c) == Entry(old(Elements()), r, c)
    {
      elements[row + 0] := values[0];
      elements[row + 4] := values[1];
      elements[row + 8] := values[2];
      elements[row + 12] := values[3];
    }

    /** `SetColumn` with four values: indices 4 * col to 4 * col + 3. */
    method SetColumn(col: nat, values: seq<real>)
      requires Valid() && col < 4 && |values| == 4
      modifies elements
      ensures forall r :: 0 <= r < 4 ==> Entry(Elements(), r, col) == values[r]
      ensures forall r, c :: 0 <= r < 4 && 0 <= c < 4 && c != col ==> Entry(Elements(), r, c) == Entry(old(Elements()), r, c)
    {
      elements[col * 4 + 0] := values[0];
      elements[col * 4 + 1] := values[1];
      elements[col * 4 + 2] := values[2];
      elements[col * 4 + 3] := values[3];
    }

    /** `SetRow` with a vector: the fourth entry of the row is not modified. */
    method SetRowVector(row: nat, v: Vec3)
      requires Valid() && row < 4
      modifies elements
      ensures Entry(Elements(), row, 0) == v.x && Entry(Elements(), row, 1) == v.y && Entry(Elements(), row, 2) == v.z
      ensures forall r, c :: 0 <= r < 4 && 0 <= c < 4 && (r != row || c == 3) ==> Entry(Elements(), r, c) == Entry(old(Elements()), r, c)
    {
      elements[row + 0] := v.x;
      elements[row + 4] := v.y;
      elements[row + 8] := v.z;
    }

    /** `SetColumn` with a vector: the fourth entry of the column is not modified. */
    method SetColumnVector(col: nat, v: Vec3)
      requires Valid() && col < 4
      modifies elements
      ensures Entry(Elements(), 0, col) == v.x && Entry(Elements(), 1, col) == v.y && Entry(Elements(), 2, col) == v.z
      ensures forall r, c :: 0 <= r < 4 && 0 <= c < 4 && (c != col || r == 3) ==> Entry(Elements(), r, c) == Entry(old(Elements()), r, c)
    {
      elements[col * 4 + 0] := v.x;
      elements[col * 4 + 1] := v.y;
      elements[col * 4 + 2] := v.z;
    }

    method SetTranslation(t: Vec3)
      requires Valid()
      modifies elements
      ensures Elements() == WithTranslation(old(Elements()), t)
    {
      elements[12] := t.x;
      elements[13] := t.y;
      elements[14] := t.z;
      elements[15] := 1.0;
    }

    function GetTranslation(): (t: Vec3)
      requires Valid()
      reads this, elements
      ensures t == TranslationOf(Elements())
    {
      Vec3(elements[12], elements[13], elements[14])
    }

    /** `GetTransposed`: a new matrix, this one unchanged. */
    method GetTransposed() returns (r: Matrix4d)
      requires Valid()
      ensures r.Valid() && fresh(r.elements) && r.Elements() == Transposed(Elements())
    {
      var m := Elements();
      r := new Matrix4d.FromValues(m[0], m[1], m[2], m[3], m[4], m[5], m[6], m[7],
                                   m[8], m[9], m[10], m[11], m[12], m[13], m[14], m[15]);
    }

    /** `transpose`. */
    method Transpose()
      requires Valid()
      modifies elements
      ensures Elements() == Transposed(old(Elements()))
    {
      SetAll(Transposed(Elements()));
    }

    /** `operator*` between matrices: a new matrix `this · other`. */
    method Times(other: Matrix4d) returns (r: Matrix4d)
      requires Valid() && other.Valid()
      ensures r.Valid() && fresh(r.elements) && r.Elements() == Product(Elements(), other.Elements())
    {
      var p := Product(Elements(), other.Elements());
      var buffer := new real[16](i requires 0 <= i < 16 => p[i]);
      r := new Matrix4d.FromPointer(buffer);
    }

    /** `mul`, `postmul` and `operator*=`: this matrix becomes `this · other` (also when other is this). */
    method PostMul(other: Matrix4d)
      requires Valid() && other.Valid()
      modifies elements
      ensures Elements() == Product(old(Elements()), old(other.Elements()))
    {
      SetAll(Product(Elements(), other.Elements()));
    }

    /** `premul`: this matrix becomes `other · this`. */
    method PreMul(other: Matrix4d)
      requires Valid() && other.Valid()
      modifies elements
      ensures Elements() == Product(old(other.Elements()), old(Elements()))
    {
      SetAll(Product(other.Elements(), Elements()));
    }

    /** `GetTranslated`: this matrix postmultiplied by a translation. */
    method GetTranslated(t: Vec3) returns (r: Matrix4d)
      requires Valid()
      ensures r.Valid() && fresh(r.elements) && r.Elements() == Product(Elements(), TranslationMatrix(t))
    {
      var tm := new Matrix4d.FromValues(1.0, 0.0, 0.0, t.x, 0.0, 1.0, 0.0, t.y,
                                        0.0, 0.0, 1.0, t.z, 0.0, 0.0, 0.0, 1.0);
      r := Times(tm);
    }

    /** `translate`. */
    method Translate(t: Vec3)
      requires Valid()
      modifies elements
      ensures Elements() == Product(old(Elements()), TranslationMatrix(t))
    {
      SetAll(Product(Elements(), TranslationMatrix(t)));
    }

    /** `GetScaled`: this matrix postmultiplied by a scaling. */
    method GetScaled(s: Vec3) returns (r: Matrix4d)
      requires Valid()
      ensures r.Valid() && fresh(r.elements) && r.Elements() == Product(Elements(), ScalingMatrix(s))
    {
      var sm := new Matrix4d.FromValues(s.x, 0.0, 0.0, 0.0, 0.0, s.y, 0.0, 0.0,
                                        0.0, 0.0, s.z, 0.0, 0.0, 0.0, 0.0, 1.0);
      r := Times(sm);
    }

    /** `scale`. */
    method Scale(s: Vec3)
      requires Valid()
      modifies elements
      ensures Elements() == Product(old(Elements()), ScalingMatrix(s))
    {
      SetAll(Product(Elements(), ScalingMatrix(s)));
    }

    function AffineMulVector(v: Vec3): (r: Vec3)
      requires Valid()
      reads this, elements
      ensures r == AffineMul(Elements(), v)
    {
      AffineMul(Elements(), v)
    }

    /** `operator==`: a loop over the 16 elements that stops at the first difference. */
    method Equals(other: Matrix4d) returns (same: bool)
      requires Valid() && other.Valid()
      ensures same <==> Elements() == other.Elements()
    {
      var i := 0;
      while i < 16
        invariant 0 <= i <= 16
        invariant forall k :: 0 <= k < i ==> elements[k] == other.elements[k]
      {
        if elements[i] != other.elements[i] {
          return false;
        }
        i := i + 1;
      }
      return true;
    }

    /** `operator!=`: the negation of `operator==`. */
    method NotEquals(other: Matrix4d) returns (differ: bool)
      requires Valid() && other.Valid()
      ensures differ <==> exists k :: 0 <= k < 16 && Elements()[k] != other.Elements()[k]
    {
      var same := Equals(other);
      differ := !same;
    }
  }
}
