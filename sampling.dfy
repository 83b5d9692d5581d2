/**
 * Reading the C++ voxel grid (cpp-renderer/Volume.h) at real coordinates.
 *
 * `getVoxelClosest` rounds each coordinate to the nearest integer and lowers
 * an index that reaches the grid's size to the last voxel; a negative index
 * is left alone, so the linear index may land in another row or outside the
 * data. `getVoxelTrilinear` and `getGradientMagnitudeTrilinear` clamp each
 * coordinate into [0, size - 1] and blend the eight voxels around it;
 * `getGradientMagnitude` clamps and then truncates.
 *
 * The functions here work on the data as a sequence stored x fastest, so
 * that the voxel values and the gradient magnitudes share them.
 */
module VolumeSampling {
  import opened Numeric
  import opened Grids
  import DatFormat

  /** The voxel at grid coordinates (x, y, z). */
  function At(values: seq<real>, width: int, height: int, depth: int, x: int, y: int, z: int): real
    requires |values| == width * height * depth && InGrid(width, height, depth, x, y, z)
  {
    IndexInRange(width, height, depth, x, y, z);
    values[Index(width * height, width, x, y, z)]
  }

  /** `a * (1 - t) + b * t`, one step of the interpolation. */
  function Lerp(a: real, b: real, t: real): real
  {
    a * (1.0 - t) + b * t
  }

  /** Interpolation returns its first end at 0 and its second at 1. */
  lemma LerpEnds(a: real, b: real)
    ensures Lerp(a, b, 0.0) == a && Lerp(a, b, 1.0) == b
  {
  }

  lemma NonNegativeProduct(p: real, q: real)
    requires 0.0 <= p && 0.0 <= q
    ensures 0.0 <= p * q
  {
  }

  /** For t in [0, 1] the interpolation stays within any bounds that hold both ends. */
  lemma LerpBounded(a: real, b: real, t: real, lo: real, hi: real)
    requires lo <= a <= hi && lo <= b <= hi && 0.0 <= t <= 1.0
    ensures lo <= Lerp(a, b, t) <= hi
  {
    assert Lerp(a, b, t) - lo == (a - lo) * (1.0 - t) + (b - lo) * t;
    assert hi - Lerp(a, b, t) == (hi - a) * (1.0 - t) + (hi - b) * t;
    NonNegativeProduct(a - lo, 1.0 - t);
    NonNegativeProduct(b - lo, t);
    NonNegativeProduct(hi - a, 1.0 - t);
    NonNegativeProduct(hi - b, t);
  }

  /**
   * The out-of-bounds handling of the interpolating readers: a coordinate at or
   * past size - 1 becomes size - 1, and then a negative one becomes 0.
   */
  function ClampCoordinate(c: real, size: int): (r: real)
    ensures 1 <= size ==> 0.0 <= r <= (size - 1) as real
    ensures 0.0 <= c <= (size - 1) as real ==> r == c
    ensures c < 0.0 ==> r == 0.0
    ensures 1 <= size && (size - 1) as real <= c ==> r == (size - 1) as real
  {
    var upper := if c >= (size - 1) as real then (size - 1) as real else c;
    if upper < 0.0 then 0.0 else upper
  }

  /** The eight voxels around a point: `pXYZ` is at floor (0) or ceiling (1) on each axis. */
  datatype Cube = Cube(p000: real, p100: real, p010: real, p110: real,
                       p001: real, p101: real, p011: real, p111: real)

  /** Interpolation along x, then y, then z, with the fractions `xd`, `yd`, `zd`. */
  function Blend(c: Cube, xd: real, yd: real, zd: real): real
  {
    var c00 := Lerp(c.p000, c.p100, xd);
    var c10 := Lerp(c.p010, c.p110, xd);
    var c01 := Lerp(c.p001, c.p101, xd);
    var c11 := Lerp(c.p011, c.p111, xd);
    Lerp(Lerp(c00, c10, yd), Lerp(c01, c11, yd), zd)
  }

  /** With fractions in [0, 1] the blend lies within any bounds that hold all eight corners. */
  lemma BlendBounded(c: Cube, xd: real, yd: real, zd: real, lo: real, hi: real)
    requires 0.0 <= xd <= 1.0 && 0.0 <= yd <= 1.0 && 0.0 <= zd <= 1.0
    requires lo <= c.p000 <= hi && lo <= c.p100 <= hi && lo <= c.p010 <= hi && lo <= c.p110 <= hi
    requires lo <= c.p001 <= hi && lo <= c.p101 <= hi && lo <= c.p011 <= hi && lo <= c.p111 <= hi
    ensures lo <= Blend(c, xd, yd, zd) <= hi
  {
    LerpBounded(c.p000, c.p100, xd, lo, hi);
    LerpBounded(c.p010, c.p110, xd, lo, hi);
    LerpBounded(c.p001, c.p101, xd, lo, hi);
    LerpBounded(c.p011, c.p111, xd, lo, hi);
    var c00, c10 := Lerp(c.p000, c.p100, xd), Lerp(c.p010, c.p110, xd);
    var c01, c11 := Lerp(c.p001, c.p101, xd), Lerp(c.p011, c.p111, xd);
    LerpBounded(c00, c10, yd, lo, hi);
    LerpBounded(c01, c11, yd, lo, hi);
    LerpBounded(Lerp(c00, c10, yd), Lerp(c01, c11, yd), zd, lo, hi);
  }

  /** The corners of the cell holding the clamped point (x, y, z). */
  function CornersAround(values: seq<real>, width: int, height: int, depth: int, x: real, y: real, z: real): Cube
    requires 1 <= width && 1 <= height && 1 <= depth && |values| == width * height * depth
    requires 0.0 <= x <= (width - 1) as real && 0.0 <= y <= (height - 1) as real && 0.0 <= z <= (depth - 1) as real
  {
    var x0, x1, y0, y1, z0, z1 := Floor(x), Ceil(x), Floor(y), Ceil(y), Floor(z), Ceil(z);
    Cube(At(values, width, height, depth, x0, y0, z0), At(values, width, height, depth, x1, y0, z0),
         At(values, width, height, depth, x0, y1, z0), At(values, width, height, depth, x1, y1, z0),
         At(values, width, height, depth, x0, y0, z1), At(values, width, height, depth, x1, y0, z1),
         At(values, width, height, depth, x0, y1, z1), At(values, width, height, depth, x1, y1, z1))
  }

  /** `getVoxelTrilinear` and `getGradientMagnitudeTrilinear` on a non-empty grid. */
  function Trilinear(values: seq<real>, width: int, height: int, depth: int, x: real, y: real, z: real): real
    requires 1 <= width && 1 <= height && 1 <= depth && |values| == width * height * depth
  {
    var cx, cy, cz := ClampCoordinate(x, width), ClampCoordinate(y, height), ClampCoordinate(z, depth);
    Blend(CornersAround(values, width, height, depth, cx, cy, cz),
          cx - Floor(cx) as real, cy - Floor(cy) as real, cz - Floor(cz) as real)
  }

  /** At a voxel's own coordinates the interpolation gives that voxel. */
  lemma TrilinearAtGridPoint(values: seq<real>, width: int, height: int, depth: int, x: int, y: int, z: int)
    requires |values| == width * height * depth && InGrid(width, height, depth, x, y, z)
    ensures Trilinear(values, width, height, depth, x as real, y as real, z as real) == At(values, width, height, depth, x, y, z)
  {
    var c := CornersAround(values, width, height, depth, x as real, y as real, z as real);
    assert Floor(x as real) == x == Ceil(x as real);
    assert Floor(y as real) == y == Ceil(y as real);
    assert Floor(z as real) == z == Ceil(z as real);
    assert Blend(c, 0.0, 0.0, 0.0) == c.p000;
  }

  /** Every voxel lies within the bounds. */
  predicate AllWithin(values: seq<real>, lo: real, hi: real)
  {
    forall i :: 0 <= i < |values| ==> lo <= values[i] <= hi
  }

  lemma AtWithin(values: seq<real>, width: int, height: int, depth: int, x: int, y: int, z: int, lo: real, hi: real)
    requires |values| == width * height * depth && InGrid(width, height, depth, x, y, z)
    requires AllWithin(values, lo, hi)
    ensures lo <= At(values, width, height, depth, x, y, z) <= hi
  {
    IndexInRange(width, height, depth, x, y, z);
  }

  /** The eight corners of a cell keep the voxels' bounds. */
  lemma CornersWithin(values: seq<real>, width: int, height: int, depth: int, x: real, y: real, z: real, lo: real, hi: real)
    requires 1 <= width && 1 <= height && 1 <= depth && |values| == width * height * depth
    requires 0.0 <= x <= (width - 1) as real && 0.0 <= y <= (height - 1) as real && 0.0 <= z <= (depth - 1) as real
    requires AllWithin(values, lo, hi)
    ensures var c := CornersAround(values, width, height, depth, x, y, z);
            && lo <= c.p000 <= hi && lo <= c.p100 <= hi && lo <= c.p010 <= hi && lo <= c.p110 <= hi
            && lo <= c.p001 <= hi && lo <= c.p101 <= hi && lo <= c.p011 <= hi && lo <= c.p111 <= hi
  {
    var x0, x1, y0, y1, z0, z1 := Floor(x), Ceil(x), Floor(y), Ceil(y), Floor(z), Ceil(z);
    AtWithin(values, width, height, depth, x0, y0, z0, lo, hi);
    AtWithin(values, width, height, depth, x1, y0, z0, lo, hi);
    AtWithin(values, width, height, depth, x0, y1, z0, lo, hi);
    AtWithin(values, width, height, depth, x1, y1, z0, lo, hi);
    AtWithin(values, width, height, depth, x0, y0, z1, lo, hi);
    AtWithin(values, width, height, depth, x1, y0, z1, lo, hi);
    AtWithin(values, width, height, depth, x0, y1, z1, lo, hi);
    AtWithin(values, width, height, depth, x1, y1, z1, lo, hi);
  }

  /** The interpolated value is a convex combination of voxels, so it keeps the voxels' bounds. */
  lemma TrilinearBounded(values: seq<real>, width: int, height: int, depth: int, x: real, y: real, z: real, lo: real, hi: real)
    requires 1 <= width && 1 <= height && 1 <= depth && |values| == width * height * depth
    requires AllWithin(values, lo, hi)
    ensures lo <= Trilinear(values, width, height, depth, x, y, z) <= hi
  {
    var cx, cy, cz := ClampCoordinate(x, width), ClampCoordinate(y, height), ClampCoordinate(z, depth);
    var c := CornersAround(values, width, height, depth, cx, cy, cz);
    CornersWithin(values, width, height, depth, cx, cy, cz, lo, hi);
    BlendBounded(c, cx - Floor(cx) as real, cy - Floor(cy) as real, cz - Floor(cz) as real, lo, hi);
  }

  /** `getGradientMagnitude`: clamp, then truncate each coordinate. */
  function NearestBelow(values: seq<real>, width: int, height: int, depth: int, x: real, y: real, z: real): real
    requires 1 <= width && 1 <= height && 1 <= depth && |values| == width * height * depth
  {
    var cx, cy, cz := ClampCoordinate(x, width), ClampCoordinate(y, height), ClampCoordinate(z, depth);
    At(values, width, height, depth, TruncToInt(cx), TruncToInt(cy), TruncToInt(cz))
  }

  /** Inside the grid, truncation reads the voxel at the floor of each coordinate, and past the top the last voxel. */
  lemma NearestBelowInGrid(values: seq<real>, width: int, height: int, depth: int, x: real, y: real, z: real)
    requires 1 <= width && 1 <= height && 1 <= depth && |values| == width * height * depth
    requires 0.0 <= x && 0.0 <= y && 0.0 <= z
    ensures var i, j, k := (if x <= (width - 1) as real then Floor(x) else width - 1),
                           (if y <= (height - 1) as real then Floor(y) else height - 1),
                           (if z <= (depth - 1) as real then Floor(z) else depth - 1);
            NearestBelow(values, width, height, depth, x, y, z) == At(values, width, height, depth, i, j, k)
  {
  }

  /** Truncation and interpolation agree at the voxels themselves. */
  lemma NearestBelowAtGridPoint(values: seq<real>, width: int, height: int, depth: int, x: int, y: int, z: int)
    requires |values| == width * height * depth && InGrid(width, height, depth, x, y, z)
    ensures NearestBelow(values, width, height, depth, x as real, y as real, z as real)
            == Trilinear(values, width, height, depth, x as real, y as real, z as real)
            == At(values, width, height, depth, x, y, z)
  {
    TrilinearAtGridPoint(values, width, height, depth, x, y, z);
  }

  /** A bound no value of the sequence exceeds. */
  function UpperBound(values: seq<real>): (b: real)
    ensures forall i :: 0 <= i < |values| ==> values[i] <= b
  {
    if values == [] then 0.0
    else
      var rest := UpperBound(values[1..]);
      assert forall i :: 1 <= i < |values| ==> values[i] == values[1..][i - 1];
      if values[0] > rest then values[0] else rest
  }

  /** Non-negative data gives non-negative samples, by truncation and by interpolation alike. */
  lemma SamplesNonNegative(values: seq<real>, width: int, height: int, depth: int, x: real, y: real, z: real)
    requires 1 <= width && 1 <= height && 1 <= depth && |values| == width * height * depth
    requires forall i :: 0 <= i < |values| ==> 0.0 <= values[i]
    ensures 0.0 <= NearestBelow(values, width, height, depth, x, y, z)
    ensures 0.0 <= Trilinear(values, width, height, depth, x, y, z)
  {
    var hi := UpperBound(values);
    TrilinearBounded(values, width, height, depth, x, y, z, 0.0, hi);
    var cx, cy, cz := ClampCoordinate(x, width), ClampCoordinate(y, height), ClampCoordinate(z, depth);
    AtWithin(values, width, height, depth, TruncToInt(cx), TruncToInt(cy), TruncToInt(cz), 0.0, hi);
  }

  /** `(int)floor(c + 0.5)`, lowered to size - 1 when it reaches the size; a negative index is kept. */
  function ClosestIndex(c: real, size: int): (i: int)
    ensures i <= size - 1
    ensures c + 0.5 < size as real ==> i as real - 0.5 <= c < i as real + 0.5
    ensures size as real <= c + 0.5 ==> i == size - 1
  {
    var rounded := Floor(c + 0.5);
    if rounded >= size then size - 1 else rounded
  }

  /**
   * `getVoxelClosest`: the value at the linear index of the rounded
   * coordinates, or `None` where that index falls outside the data (a read
   * out of bounds in the program).
   */
  function Closest(values: seq<real>, width: int, height: int, depth: int, x: real, y: real, z: real): DatFormat.Option<real>
  {
    var i := Index(width * height, width, ClosestIndex(x, width), ClosestIndex(y, height), ClosestIndex(z, depth));
    if 0 <= i < |values| then DatFormat.Some(values[i]) else DatFormat.None
  }

  /** From -0.5 upward on every axis, the nearest voxel is read, the top clamped to the last one. */
  lemma ClosestInGrid(values: seq<real>, width: int, height: int, depth: int, x: real, y: real, z: real)
    requires 1 <= width && 1 <= height && 1 <= depth && |values| == width * height * depth
    requires -0.5 <= x && -0.5 <= y && -0.5 <= z
    ensures var i, j, k := ClosestIndex(x, width), ClosestIndex(y, height), ClosestIndex(z, depth);
            && InGrid(width, height, depth, i, j, k)
            && Closest(values, width, height, depth, x, y, z) == DatFormat.Some(At(values, width, height, depth, i, j, k))
  {
    var i, j, k := ClosestIndex(x, width), ClosestIndex(y, height), ClosestIndex(z, depth);
    assert 0 <= i && 0 <= j && 0 <= k;
    IndexInRange(width, height, depth, i, j, k);
  }

  /** A voxel's own coordinates read that voxel. */
  lemma ClosestAtGridPoint(values: seq<real>, width: int, height: int, depth: int, x: int, y: int, z: int)
    requires |values| == width * height * depth && InGrid(width, height, depth, x, y, z)
    ensures Closest(values, width, height, depth, x as real, y as real, z as real) == DatFormat.Some(At(values, width, height, depth, x, y, z))
  {
    assert ClosestIndex(x as real, width) == x;
    assert ClosestIndex(y as real, height) == y;
    assert ClosestIndex(z as real, depth) == z;
    ClosestInGrid(values, width, height, depth, x as real, y as real, z as real);
  }

  /**
   * Only the upper side is clamped: an x that rounds to -1 on row 1 reads the
   * last voxel of row 0, and on row 0 of the first slice it reads before the data.
   */
  lemma ClosestNegativeNotClamped(values: seq<real>, width: int, height: int, depth: int)
    requires 1 <= width && 2 <= height && 1 <= depth && |values| == width * height * depth
    ensures Closest(values, width, height, depth, -1.0, 1.0, 0.0) == DatFormat.Some(At(values, width, height, depth, width - 1, 0, 0))
    ensures Closest(values, width, height, depth, -1.0, 0.0, 0.0) == DatFormat.None
  {
    assert ClosestIndex(-1.0, width) == -1 && ClosestIndex(1.0, height) == 1 && ClosestIndex(0.0, depth) == 0;
    assert Index(width * height, width, -1, 1, 0) == Index(width * height, width, width - 1, 0, 0);
    IndexInRange(width, height, depth, width - 1, 0, 0);
  }
}
