/**
 * The movable viewport of the C# renderer (Data/Viewport.cs).
 *
 * The viewport keeps an accumulated translation, rotation and zoom factor,
 * the System.Numerics matrices built from them, and the four corners, the two
 * spans and the projection direction derived from those matrices. The corners
 * are always recomputed from four fixed initial corners. Rays are clipped
 * against the volume's box by the slab method.
 *
 * System.Numerics matrices are row-major with row vectors: `Transform(v, m)`
 * is (x, y, z, 1) · m with the fourth column ignored. Cosine, sine and square
 * root are parameters fixed when the viewport is built.
 */
module Viewports {
  import opened Numeric
  import opened Vectors
  import opened CsVolumes

  datatype Option<T> = None | Some(value: T)

  datatype Vec2 = Vec2(x: real, y: real)

  const InitialUpperLeft := Vec3(-0.7, 0.7, 0.0)
  const InitialUpperRight := Vec3(0.7, 0.7, 0.0)
  const InitialBottomRight := Vec3(0.7, -0.7, 0.0)
  const InitialBottomLeft := Vec3(-0.7, -0.7, 0.0)

  /** The zoom factor never drops below this. */
  const MinScaling := 0.01

  // ---- System.Numerics matrices (M11 .. M44 stored row by row) ----

  function Identity(): (m: seq<real>)
    ensures |m| == 16
  {
    [1.0, 0.0, 0.0, 0.0, 0.0, 1.0, 0.0, 0.0, 0.0, 0.0, 1.0, 0.0, 0.0, 0.0, 0.0, 1.0]
  }

  function CreateScale(s: real): (m: seq<real>)
    ensures |m| == 16
  {
    [s, 0.0, 0.0, 0.0, 0.0, s, 0.0, 0.0, 0.0, 0.0, s, 0.0, 0.0, 0.0, 0.0, 1.0]
  }

  function CreateTranslation(t: Vec3): (m: seq<real>)
    ensures |m| == 16
  {
    [1.0, 0.0, 0.0, 0.0, 0.0, 1.0, 0.0, 0.0, 0.0, 0.0, 1.0, 0.0, t.x, t.y, t.z, 1.0]
  }

  /** `CreateRotationX` for an angle whose cosine is `c` and sine is `s`. */
  function CreateRotationX(c: real, s: real): (m: seq<real>)
    ensures |m| == 16
  {
    [1.0, 0.0, 0.0, 0.0, 0.0, c, s, 0.0, 0.0, -s, c, 0.0, 0.0, 0.0, 0.0, 1.0]
  }

  /** `CreateRotationY` for an angle whose cosine is `c` and sine is `s`. */
  function CreateRotationY(c: real, s: real): (m: seq<real>)
    ensures |m| == 16
  {
    [c, 0.0, -s, 0.0, 0.0, 1.0, 0.0, 0.0, s, 0.0, c, 0.0, 0.0, 0.0, 0.0, 1.0]
  }

  /** `Vector3.Transform(v, m)`: the point (v, 1) times the matrix, fourth column dropped. */
  function Transform(v: Vec3, m: seq<real>): Vec3
    requires |m| == 16
  {
    Vec3(v.x * m[0] + v.y * m[4] + v.z * m[8] + m[12],
         v.x * m[1] + v.y * m[5] + v.z * m[9] + m[13],
         v.x * m[2] + v.y * m[6] + v.z * m[10] + m[14])
  }

  lemma TransformScale(v: Vec3, s: real)
    ensures Transform(v, CreateScale(s)) == Scale(v, s)
  {
  }

  lemma TransformTranslation(v: Vec3, t: Vec3)
    ensures Transform(v, CreateTranslation(t)) == Add(v, t)
  {
  }

  /** A rotation by an angle with cosine 1 and sine 0 leaves every point where it is. */
  lemma TransformRotationByZero(v: Vec3)
    ensures Transform(v, CreateRotationX(1.0, 0.0)) == v
    ensures Transform(v, CreateRotationY(1.0, 0.0)) == v
  {
  }

  /** The scale that `Zoom` arrives at: the sum, reset to the floor when it is at or below it. */
  function ZoomedScaling(scaling: real, increment: real): (r: real)
    ensures r >= MinScaling
    ensures scaling + increment > MinScaling ==> r == scaling + increment
  {
    if scaling + increment <= MinScaling then MinScaling else scaling + increment
  }

  /** The view-plane vectors `RecalculateViewPlaneVectors` derives from the four matrices. */
  datatype Frame = Frame(upperLeft: Vec3, upperRight: Vec3, bottomRight: Vec3, bottomLeft: Vec3,
                         upSpan: Vec3, rightSpan: Vec3, projectionDirection: Vec3)

  /** An initial corner scaled, then translated, then rotated about X, then about Y. */
  function Place(v: Vec3, scaling: seq<real>, translation: seq<real>, rotationX: seq<real>, rotationY: seq<real>): Vec3
    requires |scaling| == |translation| == |rotationX| == |rotationY| == 16
  {
    Transform(Transform(Transform(Transform(v, scaling), translation), rotationX), rotationY)
  }

  function FrameOf(scaling: seq<real>, translation: seq<real>, rotationX: seq<real>, rotationY: seq<real>,
                   sqrt: real -> real): (f: Frame)
    requires |scaling| == |translation| == |rotationX| == |rotationY| == 16
    ensures f.upSpan == Sub(f.upperLeft, f.bottomLeft) && f.rightSpan == Sub(f.upperRight, f.upperLeft)
    ensures f.projectionDirection == Normalized(Cross(f.rightSpan, f.upSpan), sqrt)
  {
    var ul := Place(InitialUpperLeft, scaling, translation, rotationX, rotationY);
    var ur := Place(InitialUpperRight, scaling, translation, rotationX, rotationY);
    var br := Place(InitialBottomRight, scaling, translation, rotationX, rotationY);
    var bl := Place(InitialBottomLeft, scaling, translation, rotationX, rotationY);
    var up, right := Sub(ul, bl), Sub(ur, ul);
    Frame(ul, ur, br, bl, up, right, Normalized(Cross(right, up), sqrt))
  }

  /** Without rotation a corner is only scaled and translated. */
  lemma {:induction false} PlaceWithoutRotation(v: Vec3, s: real, t: Vec3)
    ensures Place(v, CreateScale(s), CreateTranslation(t), CreateRotationX(1.0, 0.0), CreateRotationY(1.0, 0.0))
            == Add(Scale(v, s), t)
  {
    TransformScale(v, s);
    TransformTranslation(Scale(v, s), t);
    TransformRotationByZero(Add(Scale(v, s), t));
  }

  /** Without rotation the spans are axis-aligned and 1.4 times the zoom factor long. */
  lemma {:induction false} SpansWithoutRotation(s: real, t: Vec3, sqrt: real -> real)
    ensures var f := FrameOf(CreateScale(s), CreateTranslation(t), CreateRotationX(1.0, 0.0), CreateRotationY(1.0, 0.0), sqrt);
            f.rightSpan == Vec3(1.4 * s, 0.0, 0.0) && f.upSpan == Vec3(0.0, 1.4 * s, 0.0)
  {
    PlaceWithoutRotation(InitialUpperLeft, s, t);
    PlaceWithoutRotation(InitialUpperRight, s, t);
    PlaceWithoutRotation(InitialBottomLeft, s, t);
  }

  /** Normalising a positive multiple of the Z axis gives the Z axis. */
  lemma NormalizedZAxis(c: real, sqrt: real -> real)
    requires c > 0.0 && IsSqrt(sqrt)
    ensures Normalized(Vec3(0.0, 0.0, c), sqrt) == Vec3(0.0, 0.0, 1.0)
  {
    var a := Vec3(0.0, 0.0, c);
    assert SquaredMagnitude(a) == Square(c) by {
      assert Square(0.0) == 0.0;
    }
    SqrtOfSquare(sqrt, c);
    assert Magnitude(a, sqrt) == c;
  }

  lemma CrossOfSpans(r: real, u: real)
    ensures Cross(Vec3(r, 0.0, 0.0), Vec3(0.0, u, 0.0)) == Vec3(0.0, 0.0, r * u)
  {
  }

  /** Equal positive spans along X (right) and Y (up) give the direction +Z. */
  lemma DirectionOfAxisSpans(right: Vec3, up: Vec3, w: real, sqrt: real -> real)
    requires right == Vec3(w, 0.0, 0.0) && up == Vec3(0.0, w, 0.0) && w > 0.0 && IsSqrt(sqrt)
    ensures Normalized(Cross(right, up), sqrt) == Vec3(0.0, 0.0, 1.0)
  {
    CrossOfSpans(w, w);
    PositiveProduct(w, w);
    NormalizedZAxis(w * w, sqrt);
  }

  /**
   * With no rotation the projection direction is +Z whatever the translation
   * and zoom: the view plane faces the volume along the Z axis.
   */
  lemma {:induction false} ZeroRotationFacesAlongZ(s: real, t: Vec3, sqrt: real -> real)
    requires s > 0.0 && IsSqrt(sqrt)
    ensures FrameOf(CreateScale(s), CreateTranslation(t), CreateRotationX(1.0, 0.0), CreateRotationY(1.0, 0.0), sqrt)
              .projectionDirection == Vec3(0.0, 0.0, 1.0)
  {
    var f := FrameOf(CreateScale(s), CreateTranslation(t), CreateRotationX(1.0, 0.0), CreateRotationY(1.0, 0.0), sqrt);
    SpansWithoutRotation(s, t, sqrt);
    DirectionOfAxisSpans(f.rightSpan, f.upSpan, 1.4 * s, sqrt);
  }

  // ---- The slab test ----

  /** The parameters t of a ray o + t·d inside [0, size] on one axis, as (low, high). */
  function SlabInterval(o: real, d: real, size: real): (iv: (real, real))
    requires d != 0.0
  {
    var t0 := (0.0 - o) / d;
    var t1 := (size - o) / d;
    if t0 > t1 then (t1, t0) else (t0, t1)
  }

  lemma DivBelow(a: real, d: real, t: real)
    requires d > 0.0
    ensures a / d <= t <==> a <= t * d
  {
    assert (a / d) * d == a;
    if a / d <= t {
      ScaledMonotoneRight(a / d, t, d);
    } else {
      ScaledMonotoneRight(t, a / d, d);
    }
  }

  lemma DivAbove(a: real, d: real, t: real)
    requires d > 0.0
    ensures t <= a / d <==> t * d <= a
  {
    assert (a / d) * d == a;
    if t <= a / d {
      ScaledMonotoneRight(t, a / d, d);
    } else {
      ScaledMonotoneRight(a / d, t, d);
    }
  }

  /** Multiplying by a positive factor keeps (strict) order. */
  lemma ScaledMonotoneRight(x: real, y: real, d: real)
    requires d > 0.0
    ensures x <= y ==> x * d <= y * d
    ensures x < y ==> x * d < y * d
  {
    if x < y {
      PositiveProduct(y - x, d);
    }
  }

  /** The slab interval holds exactly the parameters whose point lies in [0, size]. */
  lemma SlabIntervalExact(o: real, d: real, size: real, t: real)
    requires d != 0.0 && 0.0 <= size
    ensures var iv := SlabInterval(o, d, size);
            iv.0 <= t <= iv.1 <==> 0.0 <= o + d * t <= size
  {
    if d > 0.0 {
      SlabIntervalRising(o, d, size, t);
    } else {
      SlabIntervalFalling(o, d, size, t);
    }
  }

  /** A ray moving up the axis enters at 0 and leaves at size. */
  lemma SlabIntervalRising(o: real, d: real, size: real, t: real)
    requires d > 0.0 && 0.0 <= size
    ensures SlabInterval(o, d, size) == ((0.0 - o) / d, (size - o) / d)
    ensures (0.0 - o) / d <= t <= (size - o) / d <==> 0.0 <= o + d * t <= size
  {
    var t0 := (0.0 - o) / d;
    DivBelow(0.0 - o, d, t);
    DivAbove(size - o, d, t);
    DivAbove(size - o, d, t0);
    assert t0 * d == 0.0 - o;
    assert t * d == d * t;
  }

  /** A ray moving down the axis enters at size and leaves at 0. */
  lemma SlabIntervalFalling(o: real, d: real, size: real, t: real)
    requires d < 0.0 && 0.0 <= size
    ensures SlabInterval(o, d, size) == ((size - o) / d, (0.0 - o) / d)
    ensures (size - o) / d <= t <= (0.0 - o) / d <==> 0.0 <= o + d * t <= size
  {
    var e := -d;
    var t0, t1 := (0.0 - o) / d, (size - o) / d;
    assert t0 == (o - 0.0) / e;
    assert t1 == (o - size) / e;
    DivBelow(o - size, e, t);
    DivAbove(o - 0.0, e, t);
    DivAbove(o - 0.0, e, t1);
    assert t1 * e == o - size;
    assert t * e == -(d * t);
  }

  predicate InBox(p: Vec3, size: Vec3)
  {
    0.0 <= p.x <= size.x && 0.0 <= p.y <= size.y && 0.0 <= p.z <= size.z
  }

  /** The point o + t·d. */
  function PointAt(o: Vec3, d: Vec3, t: real): Vec3
  {
    Add(o, Scale(d, t))
  }

  /** The specification of the slab test: the largest entry and the smallest exit parameter, when they meet. */
  function SlabHit(o: Vec3, d: Vec3, size: Vec3): (r: Option<(real, real)>)
    requires NoZeroComponent(d)
    ensures r.Some? ==> r.value.0 <= r.value.1
  {
    var x, y, z := SlabInterval(o.x, d.x, size.x), SlabInterval(o.y, d.y, size.y), SlabInterval(o.z, d.z, size.z);
    var lo, hi := Max(Max(x.0, y.0), z.0), Min(Min(x.1, y.1), z.1);
    if lo <= hi then Some((lo, hi)) else None
  }

  lemma PointAtExact(o: Vec3, d: Vec3, size: Vec3, t: real)
    requires NoZeroComponent(d) && 0.0 <= size.x && 0.0 <= size.y && 0.0 <= size.z
    ensures var x, y, z := SlabInterval(o.x, d.x, size.x), SlabInterval(o.y, d.y, size.y), SlabInterval(o.z, d.z, size.z);
            InBox(PointAt(o, d, t), size) <==> x.0 <= t <= x.1 && y.0 <= t <= y.1 && z.0 <= t <= z.1
  {
    var p := PointAt(o, d, t);
    CoordinateInSlab(o.x, d.x, size.x, t, p.x);
    CoordinateInSlab(o.y, d.y, size.y, t, p.y);
    CoordinateInSlab(o.z, d.z, size.z, t, p.z);
  }

  /** One coordinate of a point on the ray lies in [0, size] exactly when its parameter lies in the slab interval. */
  lemma CoordinateInSlab(o: real, d: real, size: real, t: real, coordinate: real)
    requires d != 0.0 && 0.0 <= size && coordinate == o + d * t
    ensures var iv := SlabInterval(o, d, size);
            iv.0 <= t <= iv.1 <==> 0.0 <= coordinate <= size
  {
    SlabIntervalExact(o, d, size, t);
  }

  /**
   * The slab test is exact: it reports a hit if and only if some point of the
   * line o + t·d lies in the (non-empty) box, and then both reported points
   * lie in the box.
   */
  lemma SlabHitExact(o: Vec3, d: Vec3, size: Vec3)
    requires NoZeroComponent(d) && 0.0 <= size.x && 0.0 <= size.y && 0.0 <= size.z
    ensures SlabHit(o, d, size).Some? <==> exists t :: InBox(PointAt(o, d, t), size)
    ensures SlabHit(o, d, size).Some? ==>
              InBox(PointAt(o, d, SlabHit(o, d, size).value.0), size)
              && InBox(PointAt(o, d, SlabHit(o, d, size).value.1), size)
  {
    var r := SlabHit(o, d, size);
    if r.Some? {
      PointAtExact(o, d, size, r.value.0);
      PointAtExact(o, d, size, r.value.1);
    }
    if exists t :: InBox(PointAt(o, d, t), size) {
      var t :| InBox(PointAt(o, d, t), size);
      PointAtExact(o, d, size, t);
    }
  }

  /** The hit is not required to lie ahead of the ray: a box behind the origin still counts. */
  lemma HitMayLieBehind()
    ensures var r := SlabHit(Vec3(2.0, 2.0, 2.0), Vec3(1.0, 1.0, 1.0), Vec3(1.0, 1.0, 1.0));
            r.Some? && r.value.1 < 0.0
  {
    var x := SlabInterval(2.0, 1.0, 1.0);
    assert x == (-2.0, -1.0);
  }

  /** The entry and exit points of a ray, or nothing when it misses. */
  function HitPoints(o: Vec3, d: Vec3, size: Vec3): Option<(Vec3, Vec3)>
    requires NoZeroComponent(d)
  {
    match SlabHit(o, d, size)
    case None => None
    case Some((lo, hi)) => Some((PointAt(o, d, lo), PointAt(o, d, hi)))
  }

  /**
   * The two parameters at which a ray crosses the planes 0 and size of one
   * axis, swapped when needed so that the smaller comes first.
   */
  method OrderedSlab(o: real, d: real, size: real) returns (t0: real, t1: real)
    requires d != 0.0
    ensures (t0, t1) == SlabInterval(o, d, size)
    ensures t0 <= t1
  {
    t0 := (0.0 - o) / d;
    t1 := (size - o) / d;
    if t0 > t1 {
      t0, t1 := t1, t0;
    }
  }

  /** The extent of a volume's box, [0, XSize] x [0, YSize] x [0, ZSize]. */
  function BoxOf(model: Volume): Vec3
    reads model
  {
    Vec3(model.XSize as real, model.YSize as real, model.ZSize as real)
  }

  /** The point at fractions (x, y) of the viewport, measured from its bottom-left corner. */
  function ViewportPoint(bottomLeft: Vec3, rightSpan: Vec3, upSpan: Vec3, x: real, y: real): Vec3
  {
    Add(Add(bottomLeft, Scale(rightSpan, x)), Scale(upSpan, y))
  }

  /** A viewport point in model space: scaled by the largest dimension and moved to the volume's centre. */
  function ModelSpaceOrigin(center: Vec3, p: Vec3, sizeOfLargestDimension: real): Vec3
  {
    Vec3(center.x + p.x * sizeOfLargestDimension, center.y + p.y * sizeOfLargestDimension,
         center.z + p.z * sizeOfLargestDimension)
  }

  class Viewport {
    const cos: real -> real
    const sin: real -> real
    const sqrt: real -> real

    var projectionDirection: Vec3
    var upSpan: Vec3
    var rightSpan: Vec3

    var upperLeft: Vec3
    var upperRight: Vec3
    var bottomRight: Vec3
    var bottomLeft: Vec3

    var translationMatrix: seq<real>
    var rotationMatrixX: seq<real>
    var rotationMatrixY: seq<real>
    var scalingMatrix: seq<real>

    var currentTranslation: Vec3
    var currentRotation: Vec2
    var currentScaling: real

    /** The derived vectors, as the current matrices determine them. */
    function CurrentFrame(): Frame
      reads this
      requires |scalingMatrix| == |translationMatrix| == |rotationMatrixX| == |rotationMatrixY| == 16
    {
      FrameOf(scalingMatrix, translationMatrix, rotationMatrixX, rotationMatrixY, sqrt)
    }

    function Fields(): Frame
      reads this
    {
      Frame(upperLeft, upperRight, bottomRight, bottomLeft, upSpan, rightSpan, projectionDirection)
    }

    /**
     * The matrices are those of the accumulated state, the zoom factor is at
     * least the floor, and the derived vectors are up to date.
     */
    ghost predicate Valid()
      reads this
    {
      && cos(0.0) == 1.0 && sin(0.0) == 0.0
      && currentScaling >= MinScaling
      && scalingMatrix == CreateScale(currentScaling)
      && translationMatrix == CreateTranslation(currentTranslation)
      && rotationMatrixX == CreateRotationX(cos(currentRotation.x), sin(currentRotation.x))
      && rotationMatrixY == CreateRotationY(cos(currentRotation.y), sin(currentRotation.y))
      && Fields() == CurrentFrame()
    }

    /** The viewport starts 0.8 in front of the volume, unrotated and unscaled. */
    constructor (cos: real -> real, sin: real -> real, sqrt: real -> real)
      requires cos(0.0) == 1.0 && sin(0.0) == 0.0
      ensures Valid()
      ensures this.cos == cos && this.sin == sin && this.sqrt == sqrt
      ensures currentTranslation == Vec3(0.0, 0.0, -0.8)
      ensures currentRotation == Vec2(0.0, 0.0) && currentScaling == 1.0
    {
      this.cos := cos;
      this.sin := sin;
      this.sqrt := sqrt;
      upperLeft := InitialUpperLeft;
      upperRight := InitialUpperRight;
      bottomRight := InitialBottomRight;
      bottomLeft := InitialBottomLeft;
      projectionDirection := Vec3(0.0, 0.0, 1.0);
      upSpan := Zero;
      rightSpan := Zero;
      translationMatrix := Identity();
      rotationMatrixX := Identity();
      rotationMatrixY := Identity();
      scalingMatrix := Identity();
      currentTranslation := Zero;
      currentRotation := Vec2(0.0, 0.0);
      currentScaling := 1.0;
      new;
      Move(Vec3(0.0, 0.0, -0.8));
      RecalculateViewPlaneVectors();
    }

    /** `RecalculateViewPlaneVectors`: corners, spans and direction from the current matrices. */
    method RecalculateViewPlaneVectors()
      requires |scalingMatrix| == |translationMatrix| == |rotationMatrixX| == |rotationMatrixY| == 16
      modifies this
      ensures scalingMatrix == old(scalingMatrix) && translationMatrix == old(translationMatrix)
      ensures rotationMatrixX == old(rotationMatrixX) && rotationMatrixY == old(rotationMatrixY)
      ensures currentTranslation == old(currentTranslation) && currentRotation == old(currentRotation)
      ensures currentScaling == old(currentScaling)
      ensures Fields() == CurrentFrame()
    {
      var ul := Transform(InitialUpperLeft, scalingMatrix);
      var ur := Transform(InitialUpperRight, scalingMatrix);
      var br := Transform(InitialBottomRight, scalingMatrix);
      var bl := Transform(InitialBottomLeft, scalingMatrix);

      ul := Transform(ul, translationMatrix);
      ur := Transform(ur, translationMatrix);
      br := Transform(br, translationMatrix);
      bl := Transform(bl, translationMatrix);

      ul := Transform(ul, rotationMatrixX);
      ur := Transform(ur, rotationMatrixX);
      br := Transform(br, rotationMatrixX);
      bl := Transform(bl, rotationMatrixX);

      ul := Transform(ul, rotationMatrixY);
      ur := Transform(ur, rotationMatrixY);
      br := Transform(br, rotationMatrixY);
      bl := Transform(bl, rotationMatrixY);

      var up := Sub(ul, bl);
      var right := Sub(ur, ul);
      var direction := Cross(right, up);
      direction := Normalized(direction, sqrt);

      upperLeft, upperRight, bottomRight, bottomLeft := ul, ur, br, bl;
      upSpan, rightSpan, projectionDirection := up, right, direction;
    }

    /** `Zoom`: the factor grows by the increment and is reset to 0.01 when it reaches 0.01 or less. */
    method Zoom(increment: real)
      requires Valid()
      modifies this
      ensures Valid()
      ensures currentScaling == ZoomedScaling(old(currentScaling), increment)
      ensures currentTranslation == old(currentTranslation) && currentRotation == old(currentRotation)
    {
      currentScaling := currentScaling + increment;
      if currentScaling <= MinScaling {
        currentScaling := MinScaling;
      }
      scalingMatrix := CreateScale(currentScaling);
      RecalculateViewPlaneVectors();
    }

    /** `Move`: the translation accumulates. */
    method Move(translation: Vec3)
      requires cos(0.0) == 1.0 && sin(0.0) == 0.0 && currentScaling >= MinScaling
      requires scalingMatrix == CreateScale(currentScaling)
      requires rotationMatrixX == CreateRotationX(cos(currentRotation.x), sin(currentRotation.x))
      requires rotationMatrixY == CreateRotationY(cos(currentRotation.y), sin(currentRotation.y))
      modifies this
      ensures Valid()
      ensures currentTranslation == Add(old(currentTranslation), translation)
      ensures currentRotation == old(currentRotation) && currentScaling == old(currentScaling)
    {
      currentTranslation := Add(currentTranslation, translation);
      translationMatrix := CreateTranslation(currentTranslation);
      RecalculateViewPlaneVectors();
    }

    /** `Rotate`: each rotation component accumulates separately. */
    method Rotate(rotation: Vec2)
      requires Valid()
      modifies this
      ensures Valid()
      ensures currentRotation == Vec2(old(currentRotation).x + rotation.x, old(currentRotation).y + rotation.y)
      ensures currentTranslation == old(currentTranslation) && currentScaling == old(currentScaling)
    {
      currentRotation := Vec2(currentRotation.x + rotation.x, currentRotation.y + rotation.y);
      rotationMatrixX := CreateRotationX(cos(currentRotation.x), sin(currentRotation.x));
      rotationMatrixY := CreateRotationY(cos(currentRotation.y), sin(currentRotation.y));
      RecalculateViewPlaneVectors();
    }

    /**
     * `GetPointsWhereViewportRaysIntersectVolume`: the slab test against the box
     * [0, XSize] x [0, YSize] x [0, ZSize], with the swaps and early exits of
     * the source. Every component of the projection direction must be non-zero
     * (a zero one divides by zero).
     */
    method GetPointsWhereViewportRaysIntersectVolume(model: Volume, initialRayPosition: Vec3)
      returns (r: Option<(Vec3, Vec3)>)
      requires NoZeroComponent(projectionDirection)
      ensures r == HitPoints(initialRayPosition, projectionDirection, BoxOf(model))
    {
      var o, d := initialRayPosition, projectionDirection;
      var t0x, t1x := OrderedSlab(o.x, d.x, model.XSize as real);
      var t0y, t1y := OrderedSlab(o.y, d.y, model.YSize as real);
      var tmin := Max(t0x, t0y);
      var tmax := Min(t1x, t1y);
      if t0x > t1y || t0y > t1x {
        return None;
      }
      var t0z, t1z := OrderedSlab(o.z, d.z, model.ZSize as real);
      if tmin > t1z || t0z > tmax {
        return None;
      }
      if t0z > tmin {
        tmin := t0z;
      }
      if t1z < tmax {
        tmax := t1z;
      }
      return Some((PointAt(o, d, tmin), PointAt(o, d, tmax)));
    }

    /**
     * `GetRayBoxIntersectionPointsInModelSpace`: the ray starts at the viewport
     * point (x, y), mapped to model space around the volume's centre and scaled
     * by its largest dimension. The volume members `centerOfX/Y/Z` and
     * `SizeOfLargestDimension` are parameters here. On a miss both points are 0.
     */
    method GetRayBoxIntersectionPointsInModelSpace(model: Volume, center: Vec3, sizeOfLargestDimension: real,
                                                   x: real, y: real)
      returns (hit: bool, entryPoint: Vec3, exitPoint: Vec3)
      requires NoZeroComponent(projectionDirection)
      ensures var origin := ModelSpaceOrigin(center, ViewportPoint(bottomLeft, rightSpan, upSpan, x, y),
                                             sizeOfLargestDimension);
              var r := HitPoints(origin, projectionDirection, BoxOf(model));
              && (hit <==> r.Some?)
              && (hit ==> (entryPoint, exitPoint) == r.value)
              && (!hit ==> entryPoint == Zero && exitPoint == Zero)
    {
      var start := ViewportPoint(bottomLeft, rightSpan, upSpan, x, y);
      var modelSpace := ModelSpaceOrigin(center, start, sizeOfLargestDimension);
      var locations := GetPointsWhereViewportRaysIntersectVolume(model, modelSpace);
      if locations.None? {
        entryPoint, exitPoint := Zero, Zero;
        return false, entryPoint, exitPoint;
      }
      entryPoint, exitPoint := locations.value.0, locations.value.1;
      return true, entryPoint, exitPoint;
    }
  }

  /**
   * A viewport whose rotation is zero looks along +Z, whatever it has been
   * moved and zoomed by.
   */
  lemma UnrotatedViewportLooksAlongZ(v: Viewport)
    requires v.Valid() && v.currentRotation == Vec2(0.0, 0.0) && IsSqrt(v.sqrt)
    ensures v.projectionDirection == Vec3(0.0, 0.0, 1.0)
  {
    ZeroRotationFacesAlongZ(v.currentScaling, v.currentTranslation, v.sqrt);
  }
}
