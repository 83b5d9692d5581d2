/**
 * The linear layout of the C++ voxel grid (cpp-renderer/Volume.h): voxel
 * (x, y, z) of a width x height x depth grid is stored at
 * sliceSize · z + width · y + x, where sliceSize = width · height, so x varies
 * fastest. For coordinates inside the grid this index is a bijection onto
 * [0, width · height · depth).
 */
module Grids {

  /** `m_sliceSize * z + m_width * y + x`. */
  function Index(sliceSize: int, width: int, x: int, y: int, z: int): int
  {
    sliceSize * z + width * y + x
  }

  predicate InGrid(width: int, height: int, depth: int, x: int, y: int, z: int)
  {
    0 <= x < width && 0 <= y < height && 0 <= z < depth
  }

  /** The coordinates stored at linear index `i`: x fastest, then y, then z. */
  function Coordinates(width: int, height: int, i: int): (int, int, int)
    requires 0 < width && 0 < height
  {
    (i % width, (i / width) % height, (i / width) / height)
  }

  /** A product grows with its second factor. */
  lemma ProductMonotone(m: int, a: int, b: int)
    requires 0 <= m && a <= b
    ensures m * a <= m * b
  {
    var k := b - a;
    assert m * b == m * a + m * k;
  }

  /** Division with remainder is unique. */
  lemma DivModUnique(n: int, m: int, q: int, r: int)
    requires 0 < m && 0 <= r < m && n == q * m + r
    ensures n / m == q && n % m == r
  {
    var q', r' := n / m, n % m;
    assert n == q' * m + r';
    if q' < q {
      ProductMonotone(m, q' + 1, q);
    } else if q < q' {
      ProductMonotone(m, q + 1, q');
    }
  }

  /** A quotient stays below k when the dividend stays below m · k. */
  lemma QuotientBelow(n: int, m: int, k: int)
    requires 0 <= n < m * k && 0 < m
    ensures n / m < k
  {
    assert m * (n / m) <= n;
    if n / m >= k {
      ProductMonotone(m, k, n / m);
    }
  }

  /** Every voxel inside the grid is stored inside the data array. */
  lemma IndexInRange(width: int, height: int, depth: int, x: int, y: int, z: int)
    requires InGrid(width, height, depth, x, y, z)
    ensures 0 <= Index(width * height, width, x, y, z) < width * height * depth
  {
    var slice := width * height;
    ProductMonotone(width, 0, y);
    ProductMonotone(width, y + 1, height);
    assert 0 <= width * y + x < slice;
    ProductMonotone(slice, 0, z);
    ProductMonotone(slice, z + 1, depth);
    assert slice * (z + 1) == slice * z + slice;
    assert slice * depth == width * height * depth;
  }

  /** Reading back the coordinates of a voxel's index gives the voxel. */
  lemma CoordinatesOfIndex(width: int, height: int, depth: int, x: int, y: int, z: int)
    requires InGrid(width, height, depth, x, y, z)
    ensures Coordinates(width, height, Index(width * height, width, x, y, z)) == (x, y, z)
  {
    var i := Index(width * height, width, x, y, z);
    var row := height * z + y;
    assert i == row * width + x;
    DivModUnique(i, width, row, x);
    DivModUnique(row, height, z, y);
  }

  /** Every index of the data array holds exactly one voxel of the grid. */
  lemma IndexOfCoordinates(width: int, height: int, depth: int, i: int)
    requires 0 < width && 0 < height && 0 <= i < width * height * depth
    ensures var (x, y, z) := Coordinates(width, height, i);
            InGrid(width, height, depth, x, y, z) && Index(width * height, width, x, y, z) == i
  {
    var (x, y, z) := Coordinates(width, height, i);
    var row := i / width;
    assert i == row * width + x;
    assert row == z * height + y;
    assert width * height * depth == width * (height * depth);
    QuotientBelow(i, width, height * depth);
    QuotientBelow(row, height, depth);
    assert i == width * height * z + width * y + x;
  }

  /** Different voxels of the grid are stored at different indices. */
  lemma IndexInjective(width: int, height: int, depth: int, x: int, y: int, z: int, x': int, y': int, z': int)
    requires InGrid(width, height, depth, x, y, z) && InGrid(width, height, depth, x', y', z')
    requires Index(width * height, width, x, y, z) == Index(width * height, width, x', y', z')
    ensures x == x' && y == y' && z == z'
  {
    CoordinatesOfIndex(width, height, depth, x, y, z);
    CoordinatesOfIndex(width, height, depth, x', y', z');
  }

  /** Stepping x, then wrapping to the next row, then to the next slice advances the index by one each time. */
  lemma IndexSteps(width: int, height: int, x: int, y: int, z: int)
    ensures Index(width * height, width, x + 1, y, z) == Index(width * height, width, x, y, z) + 1
    ensures Index(width * height, width, 0, y + 1, z) == Index(width * height, width, width, y, z)
    ensures Index(width * height, width, 0, 0, z + 1) == Index(width * height, width, 0, height, z)
  {
    assert width * (y + 1) == width * y + width;
    assert width * height * (z + 1) == width * height * z + width * height;
  }
}
