/**
 * The gradient field `calculateGradients` stores (cpp-renderer/Volume.h):
 * the zero vector on every border voxel, half the difference of the two
 * neighbours on each axis (central differences) inside the grid for method
 * 0, and the untouched zero vector inside for method 1. Any other method
 * throws as soon as an interior voxel is reached, which happens exactly when
 * the grid is at least 3 voxels wide on every axis.
 */
module VolumeGradients {
  import opened Numeric
  import opened Vectors
  import opened Grids
  import opened VolumeSampling

  /** A voxel on one of the six faces of the grid. */
  predicate OnBorder(width: int, height: int, depth: int, x: int, y: int, z: int)
  {
    x == 0 || y == 0 || z == 0 || x == width - 1 || y == height - 1 || z == depth - 1
  }

  /** The grid has a voxel that is on no face. */
  predicate HasInterior(width: int, height: int, depth: int)
  {
    3 <= width && 3 <= height && 3 <= depth
  }

  /** Method 0 and method 1 are the two methods that do not throw. */
  predicate KnownMethod(calculationMethod: int)
  {
    calculationMethod == 0 || calculationMethod == 1
  }

  /** An interior voxel exists exactly when the grid is at least 3 wide on every axis. */
  lemma InteriorVoxel(width: int, height: int, depth: int, x: int, y: int, z: int)
    requires InGrid(width, height, depth, x, y, z) && !OnBorder(width, height, depth, x, y, z)
    ensures HasInterior(width, height, depth)
  {
  }

  /** Central differences, halved, on each axis. */
  function CentralDifference(values: seq<real>, width: int, height: int, depth: int, x: int, y: int, z: int): Vec3
    requires |values| == width * height * depth && InGrid(width, height, depth, x, y, z)
    requires !OnBorder(width, height, depth, x, y, z)
  {
    Vec3((At(values, width, height, depth, x + 1, y, z) - At(values, width, height, depth, x - 1, y, z)) * 0.5,
         (At(values, width, height, depth, x, y + 1, z) - At(values, width, height, depth, x, y - 1, z)) * 0.5,
         (At(values, width, height, depth, x, y, z + 1) - At(values, width, height, depth, x, y, z - 1)) * 0.5)
  }

  /** The gradient stored for voxel (x, y, z) by a run that does not throw. */
  function Gradient(values: seq<real>, width: int, height: int, depth: int, calculationMethod: int, x: int, y: int, z: int): Vec3
    requires |values| == width * height * depth && InGrid(width, height, depth, x, y, z)
  {
    if OnBorder(width, height, depth, x, y, z) then Zero
    else if calculationMethod == 0 then CentralDifference(values, width, height, depth, x, y, z)
    else Zero
  }

  /** A grid with a voxel has positive sides. */
  lemma PositiveSides(width: int, height: int, depth: int, i: int)
    requires 0 <= width && 0 <= height && 0 <= depth && 0 <= i < width * height * depth
    ensures 0 < width && 0 < height && 0 < depth
  {
    if width == 0 || height == 0 || depth == 0 {
      ZeroFactor(width, height, depth);
    }
  }

  lemma ZeroFactor(a: int, b: int, c: int)
    requires a == 0 || b == 0 || c == 0
    ensures a * b * c == 0
  {
  }

  /** The gradient stored at linear index `i`. */
  function GradientAtIndex(values: seq<real>, width: int, height: int, depth: int, calculationMethod: int, i: int): Vec3
    requires 0 <= width && 0 <= height && 0 <= depth
    requires |values| == width * height * depth && 0 <= i < |values|
  {
    PositiveSides(width, height, depth, i);
    IndexOfCoordinates(width, height, depth, i);
    var c := Coordinates(width, height, i);
    Gradient(values, width, height, depth, calculationMethod, c.0, c.1, c.2)
  }

  /** The gradient at a voxel's index is that voxel's gradient. */
  lemma GradientAtIndexOf(values: seq<real>, width: int, height: int, depth: int, calculationMethod: int, x: int, y: int, z: int)
    requires |values| == width * height * depth && InGrid(width, height, depth, x, y, z)
    ensures 0 <= Index(width * height, width, x, y, z) < |values|
    ensures GradientAtIndex(values, width, height, depth, calculationMethod, Index(width * height, width, x, y, z))
            == Gradient(values, width, height, depth, calculationMethod, x, y, z)
  {
    IndexInRange(width, height, depth, x, y, z);
    CoordinatesOfIndex(width, height, depth, x, y, z);
  }

  /** A volume of one value everywhere has a zero gradient everywhere. */
  lemma ConstantVolumeIsFlat(values: seq<real>, width: int, height: int, depth: int, calculationMethod: int, v: real, x: int, y: int, z: int)
    requires |values| == width * height * depth && InGrid(width, height, depth, x, y, z)
    requires AllWithin(values, v, v)
    ensures Gradient(values, width, height, depth, calculationMethod, x, y, z) == Zero
  {
    if !OnBorder(width, height, depth, x, y, z) && calculationMethod == 0 {
      AtWithin(values, width, height, depth, x + 1, y, z, v, v);
      AtWithin(values, width, height, depth, x - 1, y, z, v, v);
      AtWithin(values, width, height, depth, x, y + 1, z, v, v);
      AtWithin(values, width, height, depth, x, y - 1, z, v, v);
      AtWithin(values, width, height, depth, x, y, z + 1, v, v);
      AtWithin(values, width, height, depth, x, y, z - 1, v, v);
    }
  }

  /** The value `a·x + b·y + c·z + e` of a linear ramp. */
  function Ramp(a: real, b: real, c: real, e: real, x: int, y: int, z: int): real
  {
    a * x as real + b * y as real + c * z as real + e
  }

  /** Every voxel holds the ramp's value at its coordinates. */
  ghost predicate IsRamp(values: seq<real>, width: int, height: int, depth: int, a: real, b: real, c: real, e: real)
    requires |values| == width * height * depth
  {
    forall x, y, z {:trigger At(values, width, height, depth, x, y, z)} :: InGrid(width, height, depth, x, y, z)
      ==> At(values, width, height, depth, x, y, z) == Ramp(a, b, c, e, x, y, z)
  }

  lemma RampStep(a: real, b: real, c: real, e: real, x: int, y: int, z: int)
    ensures (Ramp(a, b, c, e, x + 1, y, z) - Ramp(a, b, c, e, x - 1, y, z)) * 0.5 == a
    ensures (Ramp(a, b, c, e, x, y + 1, z) - Ramp(a, b, c, e, x, y - 1, z)) * 0.5 == b
    ensures (Ramp(a, b, c, e, x, y, z + 1) - Ramp(a, b, c, e, x, y, z - 1)) * 0.5 == c
  {
    assert a * (x + 1) as real - a * (x - 1) as real == 2.0 * a;
    assert b * (y + 1) as real - b * (y - 1) as real == 2.0 * b;
    assert c * (z + 1) as real - c * (z - 1) as real == 2.0 * c;
  }

  /** Central differences recover the slope of a linear ramp exactly at every interior voxel. */
  lemma RampGradient(values: seq<real>, width: int, height: int, depth: int, a: real, b: real, c: real, e: real, x: int, y: int, z: int)
    requires |values| == width * height * depth && InGrid(width, height, depth, x, y, z)
    requires !OnBorder(width, height, depth, x, y, z)
    requires IsRamp(values, width, height, depth, a, b, c, e)
    ensures Gradient(values, width, height, depth, 0, x, y, z) == Vec3(a, b, c)
  {
    assert At(values, width, height, depth, x + 1, y, z) == Ramp(a, b, c, e, x + 1, y, z);
    assert At(values, width, height, depth, x - 1, y, z) == Ramp(a, b, c, e, x - 1, y, z);
    assert At(values, width, height, depth, x, y + 1, z) == Ramp(a, b, c, e, x, y + 1, z);
    assert At(values, width, height, depth, x, y - 1, z) == Ramp(a, b, c, e, x, y - 1, z);
    assert At(values, width, height, depth, x, y, z + 1) == Ramp(a, b, c, e, x, y, z + 1);
    assert At(values, width, height, depth, x, y, z - 1) == Ramp(a, b, c, e, x, y, z - 1);
    RampStep(a, b, c, e, x, y, z);
  }

  /** With a true square root every stored magnitude is the non-negative length of its gradient. */
  lemma MagnitudeIsLength(g: Vec3, sqrt: real -> real)
    requires IsSqrt(sqrt)
    ensures 0.0 <= Magnitude(g, sqrt) && Square(Magnitude(g, sqrt)) == SquaredMagnitude(g)
    ensures Magnitude(g, sqrt) == 0.0 <==> g == Zero
  {
    SquaredMagnitudeSign(g);
    SquareSign(Magnitude(g, sqrt));
  }
}
