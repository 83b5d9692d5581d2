/**
 * The fixed view plane (Data/ViewPlane.cs): three directions and four corners
 * set once by the constructor. The three matrices are declared but never
 * assigned, so they keep the default value of a .NET `Matrix4x4` field, the
 * all-zero matrix.
 */
module ViewPlanes {
  import opened Numeric
  import opened Vectors

  datatype ViewPlane = ViewPlane(
    projectionDirection: Vec3, upDirection: Vec3, rightDirection: Vec3,
    upperLeft: Vec3, upperRight: Vec3, bottomRight: Vec3, bottomLeft: Vec3,
    translationMatrix: seq<real>, rotationMatrix: seq<real>, scalingMatrix: seq<real>)

  /** The default value of a `Matrix4x4` field: sixteen zeros. */
  function ZeroMatrix(): (m: seq<real>)
    ensures |m| == 16 && forall i :: 0 <= i < 16 ==> m[i] == 0.0
  {
    seq(16, _ => 0.0)
  }

  /** The constructor. */
  function NewViewPlane(): (p: ViewPlane)
    ensures p.upperLeft.z == p.upperRight.z == p.bottomRight.z == p.bottomLeft.z == -0.3
    ensures p.translationMatrix == p.rotationMatrix == p.scalingMatrix == ZeroMatrix()
  {
    ViewPlane(Vec3(0.0, 0.0, 1.0), Vec3(0.0, 1.0, 0.0), Vec3(1.0, 0.0, 0.0),
              Vec3(-0.2, 1.2, -0.3), Vec3(1.2, 1.2, -0.3), Vec3(1.2, -1.2, -0.3), Vec3(-0.2, -0.2, -0.3),
              ZeroMatrix(), ZeroMatrix(), ZeroMatrix())
  }

  /** The three directions are mutually orthogonal. */
  lemma DirectionsOrthogonal()
    ensures var p := NewViewPlane();
            Dot(p.projectionDirection, p.upDirection) == 0.0
            && Dot(p.projectionDirection, p.rightDirection) == 0.0
            && Dot(p.upDirection, p.rightDirection) == 0.0
  {
    var p := NewViewPlane();
    DotOfDisjointSupports(p.projectionDirection, p.upDirection);
    DotOfDisjointSupports(p.projectionDirection, p.rightDirection);
    DotOfDisjointSupports(p.upDirection, p.rightDirection);
  }

  /** The three directions are unit vectors. */
  lemma DirectionsUnit()
    ensures var p := NewViewPlane();
            SquaredMagnitude(p.projectionDirection) == 1.0
            && SquaredMagnitude(p.upDirection) == 1.0
            && SquaredMagnitude(p.rightDirection) == 1.0
  {
    var p := NewViewPlane();
    AxisIsUnit(p.projectionDirection);
    AxisIsUnit(p.upDirection);
    AxisIsUnit(p.rightDirection);
  }

  /** right × up = projection: the frame is right-handed. */
  lemma RightCrossUpIsProjection()
    ensures var p := NewViewPlane();
            Cross(p.rightDirection, p.upDirection) == p.projectionDirection
  {
  }

  /**
   * The corners lie in a plane perpendicular to the projection direction: the
   * difference of any two corners is orthogonal to it.
   */
  lemma CornersPerpendicularToProjection()
    ensures var p := NewViewPlane();
            Dot(Sub(p.upperRight, p.upperLeft), p.projectionDirection) == 0.0
            && Dot(Sub(p.bottomRight, p.upperLeft), p.projectionDirection) == 0.0
            && Dot(Sub(p.bottomLeft, p.upperLeft), p.projectionDirection) == 0.0
  {
    var p := NewViewPlane();
    EdgesOrthogonalToDepth(p.upperLeft, p.upperRight, p.bottomRight, p.bottomLeft, p.projectionDirection);
  }

  /** Points of equal depth span edges orthogonal to a direction along the depth axis. */
  lemma EdgesOrthogonalToDepth(a: Vec3, b: Vec3, c: Vec3, d: Vec3, depth: Vec3)
    requires a.z == b.z == c.z == d.z && depth.x == 0.0 && depth.y == 0.0
    ensures Dot(Sub(b, a), depth) == 0.0 && Dot(Sub(c, a), depth) == 0.0 && Dot(Sub(d, a), depth) == 0.0
  {
    DotOfDisjointSupports(Sub(b, a), depth);
    DotOfDisjointSupports(Sub(c, a), depth);
    DotOfDisjointSupports(Sub(d, a), depth);
  }

  /**
   * The corners do not form a rectangle (nor a parallelogram): the left edge
   * and the right edge differ, because the bottom corners have different
   * heights while the top corners share one.
   */
  lemma CornersNotParallelogram()
    ensures var p := NewViewPlane();
            Sub(p.upperLeft, p.bottomLeft) != Sub(p.upperRight, p.bottomRight)
    ensures var p := NewViewPlane();
            p.upperLeft.y == p.upperRight.y && p.bottomLeft.y != p.bottomRight.y
  {
  }
}
