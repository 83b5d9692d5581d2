/**
 * The C++ volume (cpp-renderer/Volume.h): the grid's sizes, the voxel values
 * scaled from 16-bit words to raw / 4095, the gradient vectors and their
 * magnitudes, and a 200-bin histogram. The file is given as its bytes; the
 * voxel loop checks that two bytes remain before each read (see
 * `DatFormat.TruncatedFileLoads` for the check as the program writes it).
 */
module CppVolumes {
  import opened Numeric
  import opened Vectors
  import opened Grids
  import opened DatFormat
  import opened VolumeSampling
  import opened VolumeGradients
  import opened VolumeHistogram

  /** The largest value a 16-bit word scales to. */
  const MaxVoxelValue: real := 65535.0 / 4095.0

  /** `thisVoxel / 4095.0`: a 12-bit voxel scales into [0, 1]. */
  function VoxelValue(raw: int): (v: real)
    ensures 0 <= raw <= 4095 ==> 0.0 <= v <= 1.0
    ensures 0 <= raw <= 65535 ==> 0.0 <= v <= MaxVoxelValue
    ensures raw == 4095 ==> v == 1.0
  {
    raw as real / 4095.0
  }

  /** The word of voxel (x, y, z) in a decoded file. */
  function RawAt(f: DatFile, x: int, y: int, z: int): int
    requires WellFormed(f) && InGrid(f.width, f.height, f.depth, x, y, z)
  {
    IndexInRange(f.width, f.height, f.depth, x, y, z);
    f.raw[Index(f.width * f.height, f.width, x, y, z)]
  }

  /**
   * The first n gradients and magnitudes are those of a run that does not
   * throw.
   */
  ghost predicate GradientsUpTo(g: seq<Vec3>, m: seq<real>, values: seq<real>, width: int, height: int, depth: int,
                                calculationMethod: int, sqrt: real -> real, n: int)
  {
    && 0 <= width && 0 <= height && 0 <= depth && |values| == width * height * depth
    && 0 <= n <= |values| && n <= |g| && n <= |m|
    && forall i :: 0 <= i < n ==>
         g[i] == GradientAtIndex(values, width, height, depth, calculationMethod, i) && m[i] == Magnitude(g[i], sqrt)
  }

  /** Storing voxel n's gradient and magnitude extends the prefix by one. */
  lemma ExtendGradients(g: seq<Vec3>, m: seq<real>, values: seq<real>, width: int, height: int, depth: int,
                        calculationMethod: int, sqrt: real -> real, n: int, gradient: Vec3)
    requires GradientsUpTo(g, m, values, width, height, depth, calculationMethod, sqrt, n)
    requires n < |values| && n < |g| && n < |m|
    requires gradient == GradientAtIndex(values, width, height, depth, calculationMethod, n)
    ensures GradientsUpTo(g[n := gradient], m[n := Magnitude(gradient, sqrt)], values, width, height, depth,
                          calculationMethod, sqrt, n + 1)
  {
  }

  /** With an exact square root, every magnitude a finished run stores is non-negative, being a length. */
  lemma GradientMagnitudesNonNegative(g: seq<Vec3>, m: seq<real>, values: seq<real>, width: int, height: int,
                                      depth: int, calculationMethod: int, sqrt: real -> real)
    requires IsSqrt(sqrt) && GradientsUpTo(g, m, values, width, height, depth, calculationMethod, sqrt, |m|)
    ensures forall i :: 0 <= i < |m| ==> 0.0 <= m[i]
  {
    forall i | 0 <= i < |m|
      ensures 0.0 <= m[i]
    {
      MagnitudeIsLength(g[i], sqrt);
    }
  }

  /** The first n voxels hold the scaled words of the file, in order. */
  ghost predicate VoxelsUpTo(v: seq<real>, data: seq<byte>, n: int)
  {
    && 0 <= n <= |v| && 6 + 2 * n <= |data|
    && forall i :: 0 <= i < n ==> v[i] == VoxelValue(Word(data, 6 + 2 * i))
  }

  /** Storing voxel n's scaled word extends the prefix by one. */
  lemma ExtendVoxels(v: seq<real>, data: seq<byte>, n: int)
    requires VoxelsUpTo(v, data, n) && n < |v| && 6 + 2 * n + 2 <= |data|
    ensures VoxelsUpTo(v[n := VoxelValue(Byte2Int(data[6 + 2 * n], data[6 + 2 * n + 1]))], data, n + 1)
  {
  }

  /**
   * The voxel loops of `loadVolumeDat`: z, then y, then x, each voxel's word
   * scaled into v at its index. The load fails at the first voxel with fewer
   * than two bytes left, which happens exactly when the data is too short
   * for all of them. The x loop is `ReadRow`.
   */
  method ReadVoxels(data: seq<byte>, v: array<real>, w: int, h: int, d: int) returns (ok: bool)
    requires 0 <= w && 0 <= h && 0 <= d && v.Length == w * h * d && 6 <= |data|
    modifies v
    ensures ok <==> 6 + 2 * v.Length <= |data|
    ensures ok ==> VoxelsUpTo(v[..], data, v.Length)
  {
    var slice := w * h;
    var pos := 6;
    var z := 0;
    while z < d
      invariant 0 <= z <= d && pos == 6 + 2 * Index(slice, w, 0, 0, z)
      invariant VoxelsUpTo(v[..], data, Index(slice, w, 0, 0, z))
    {
      var y := 0;
      while y < h
        invariant 0 <= y <= h && pos == 6 + 2 * Index(slice, w, 0, y, z)
        invariant VoxelsUpTo(v[..], data, Index(slice, w, 0, y, z))
      {
        ok, pos := ReadRow(data, v, w, h, d, pos, y, z);
        if !ok {
          return;
        }
        IndexSteps(w, h, w, y, z);
        y := y + 1;
      }
      IndexSteps(w, h, 0, y, z);
      z := z + 1;
    }
    assert Index(slice, w, 0, 0, d) == v.Length;
    return true;
  }

  /** The x loop of `loadVolumeDat` over row (y, z), reading from byte offset `start`. */
  method ReadRow(data: seq<byte>, v: array<real>, w: int, h: int, d: int, start: int, y: int, z: int)
    returns (ok: bool, pos: int)
    requires 0 <= w && 0 <= h && 0 <= d && v.Length == w * h * d && 0 <= y < h && 0 <= z < d
    requires start == 6 + 2 * Index(w * h, w, 0, y, z) && VoxelsUpTo(v[..], data, Index(w * h, w, 0, y, z))
    modifies v
    ensures ok ==> pos == 6 + 2 * Index(w * h, w, w, y, z) && VoxelsUpTo(v[..], data, Index(w * h, w, w, y, z))
    ensures !ok ==> |data| < 6 + 2 * v.Length
  {
    var slice := w * h;
    pos := start;
    var x := 0;
    while x < w
      invariant 0 <= x <= w && pos == 6 + 2 * Index(slice, w, x, y, z)
      invariant VoxelsUpTo(v[..], data, Index(slice, w, x, y, z))
    {
      IndexInRange(w, h, d, x, y, z);
      if |data| < pos + 2 {
        // The end of the data comes before this voxel's word.
        return false, pos;
      }
      var thisVoxel := Byte2Int(data[pos], data[pos + 1]);
      pos := pos + 2;
      var index := slice * z + w * y + x;
      ExtendVoxels(v[..], data, index);
      v[index] := VoxelValue(thisVoxel);
      IndexSteps(w, h, x, y, z);
      x := x + 1;
    }
    return true, pos;
  }

  /**
   * Voxels read in full from data whose header gives w, h and d: the file
   * decodes, with those sizes, to the voxels' words, and every voxel lies in
   * [0, 65535 / 4095]; looked up by grid position, each is the scaled word
   * stored there.
   */
  lemma DecodedVoxels(data: seq<byte>, v: seq<real>, w: int, h: int, d: int)
    requires 6 <= |data| && w == Word(data, 0) && h == Word(data, 2) && d == Word(data, 4)
    requires |v| == w * h * d && 6 + 2 * |v| <= |data| && VoxelsUpTo(v, data, |v|)
    ensures Decode(data).Success?
    ensures var f := Decode(data).value;
      && f.width == w && f.height == h && f.depth == d
      && (forall i :: 0 <= i < |v| ==> v[i] == VoxelValue(f.raw[i]))
      && AllWithin(v, 0.0, MaxVoxelValue)
      && forall x, y, z :: InGrid(w, h, d, x, y, z) ==> At(v, w, h, d, x, y, z) == VoxelValue(RawAt(f, x, y, z))
  {
    var f := Decode(data).value;
    assert |f.raw| == |v|;
    forall i | 0 <= i < |v|
      ensures v[i] == VoxelValue(f.raw[i]) && 0.0 <= v[i] <= MaxVoxelValue
    {
      assert f.raw[i] == Word(data, 6 + 2 * i);
    }
    forall x, y, z | InGrid(w, h, d, x, y, z)
      ensures At(v, w, h, d, x, y, z) == VoxelValue(RawAt(f, x, y, z))
    {
      IndexInRange(w, h, d, x, y, z);
    }
  }

  class Volume {
    var width: int
    var height: int
    var depth: int
    var sliceSize: int
    var voxelNum: int
    var voxelData: array<real>
    var gradients: array<Vec3>
    var gradientMagnitudes: array<real>
    var histogram: seq<real>

    /** The sizes agree with each other and with the voxel array. */
    ghost predicate Shaped()
      reads this
    {
      && 0 <= width && 0 <= height && 0 <= depth
      && sliceSize == width * height && voxelNum == sliceSize * depth
      && voxelData.Length == voxelNum
    }

    /** The gradient arrays have one entry per voxel too. */
    ghost predicate Valid()
      reads this
    {
      Shaped() && gradients.Length == voxelNum && gradientMagnitudes.Length == voxelNum
    }

    /** An empty volume: every size 0 and no data. */
    constructor ()
      ensures Valid()
      ensures width == 0 && height == 0 && depth == 0 && voxelNum == 0 && histogram == []
    {
      width, height, depth, sliceSize, voxelNum := 0, 0, 0, 0, 0;
      voxelData := new real[0];
      gradients := new Vec3[0](_ => Zero);
      gradientMagnitudes := new real[0];
      histogram := [];
    }

    /** The longest side of the grid; the program's final `throw` cannot be reached. */
    function GetScalingFactor(): (r: real)
      reads this
      ensures r == width as real || r == height as real || r == depth as real
      ensures width as real <= r && height as real <= r && depth as real <= r
    {
      if width >= height && width >= depth then width as real
      else if height >= width && height >= depth then height as real
      else depth as real
    }

    /** The voxel at (x, y, z), stored at `sliceSize · z + width · y + x`. */
    function GetVoxel(x: int, y: int, z: int): (r: real)
      reads this, voxelData
      requires Shaped() && InGrid(width, height, depth, x, y, z)
      ensures r == At(voxelData[..], width, height, depth, x, y, z)
    {
      IndexInRange(width, height, depth, x, y, z);
      voxelData[sliceSize * z + width * y + x]
    }

    /** `getVoxelClosest`; `None` where the rounded coordinates index outside the data. */
    function GetVoxelClosest(x: real, y: real, z: real): Option<real>
      reads this, voxelData
      requires Shaped()
    {
      Closest(voxelData[..], width, height, depth, x, y, z)
    }

    /** `getVoxelTrilinear` on a non-empty grid. */
    function GetVoxelTrilinear(x: real, y: real, z: real): real
      reads this, voxelData
      requires Shaped() && 1 <= width && 1 <= height && 1 <= depth
    {
      Trilinear(voxelData[..], width, height, depth, x, y, z)
    }

    /** `getGradientMagnitude` on a non-empty grid. */
    function GetGradientMagnitude(x: real, y: real, z: real): real
      reads this, gradientMagnitudes
      requires Valid() && 1 <= width && 1 <= height && 1 <= depth
    {
      NearestBelow(gradientMagnitudes[..], width, height, depth, x, y, z)
    }

    /** `getGradientMagnitudeTrilinear` on a non-empty grid. */
    function GetGradientMagnitudeTrilinear(x: real, y: real, z: real): real
      reads this, gradientMagnitudes
      requires Valid() && 1 <= width && 1 <= height && 1 <= depth
    {
      Trilinear(gradientMagnitudes[..], width, height, depth, x, y, z)
    }

    /**
     * `loadVolumeDat` on the file's bytes: the three header words give the
     * sizes, each voxel word is scaled by 1 / 4095 and stored x fastest, and
     * then the gradients (method 0) and the histogram are computed. The load
     * fails exactly where the decoder reports a premature end.
     */
    method LoadVolumeDat(data: seq<byte>, sqrt: real -> real, cbrt: real -> real) returns (ok: bool)
      modifies this
      ensures ok <==> Decode(data).Success?
      ensures ok ==> var f := Decode(data).value;
        && Valid() && width == f.width && height == f.height && depth == f.depth
        && (forall i :: 0 <= i < voxelNum ==> voxelData[i] == VoxelValue(f.raw[i]))
        && (forall x, y, z :: InGrid(width, height, depth, x, y, z) ==> GetVoxel(x, y, z) == VoxelValue(RawAt(f, x, y, z)))
        && AllWithin(voxelData[..], 0.0, MaxVoxelValue)
        && GradientsUpTo(gradients[..], gradientMagnitudes[..], voxelData[..], width, height, depth, 0, sqrt, voxelNum)
        && |histogram| == Bins
        && (forall b :: 0 <= b < Bins ==> histogram[b] == cbrt(Count(voxelData[..], b) as real))
      ensures !ok && 6 <= |data| ==>
        && Shaped() && fresh(voxelData)
        && width == Word(data, 0) && height == Word(data, 2) && depth == Word(data, 4)
      ensures !ok ==>
        gradients == old(gradients) && gradientMagnitudes == old(gradientMagnitudes) && histogram == old(histogram)
    {
      if |data| < 6 {
        return false;
      }
      var w := Byte2Int(data[0], data[1]);
      var h := Byte2Int(data[2], data[3]);
      var d := Byte2Int(data[4], data[5]);
      width, height, depth := w, h, d;
      sliceSize := w * h;
      voxelNum := sliceSize * d;
      var v := new real[voxelNum];
      voxelData := v;
      var read := ReadVoxels(data, v, w, h, d);
      if !read {
        return false;
      }
      DecodedVoxels(data, v[..], w, h, d);

      var thrown := CalculateGradients(0, sqrt);
      CalculateHistogram(cbrt);
      return true;
    }

    /**
     * The gradient `calculateGradients` gives one voxel: the zero vector on
     * the border, central differences inside for method 0, the zero vector
     * the array starts with inside for method 1, and a throw inside for any
     * other method.
     */
    method GradientOfVoxel(calculationMethod: int, x: int, y: int, z: int) returns (gradient: Vec3, thrown: bool)
      requires Shaped() && InGrid(width, height, depth, x, y, z)
      ensures thrown <==> !OnBorder(width, height, depth, x, y, z) && !KnownMethod(calculationMethod)
      ensures !thrown ==> gradient == Gradient(voxelData[..], width, height, depth, calculationMethod, x, y, z)
    {
      thrown := false;
      if x == 0 || y == 0 || z == 0 || x == width - 1 || y == height - 1 || z == depth - 1 {
        // Edge or corner voxel: no gradient.
        gradient := Zero;
      } else if calculationMethod == 0 {
        var xDifference := (GetVoxel(x + 1, y, z) - GetVoxel(x - 1, y, z)) * 0.5;
        var yDifference := (GetVoxel(x, y + 1, z) - GetVoxel(x, y - 1, z)) * 0.5;
        var zDifference := (GetVoxel(x, y, z + 1) - GetVoxel(x, y, z - 1)) * 0.5;
        gradient := Vec3(xDifference, yDifference, zDifference);
      } else if calculationMethod == 1 {
        // Next-neighbour approximation: not implemented, the zero vector stays.
        gradient := Zero;
      } else {
        gradient := Zero;
        thrown := true;
      }
    }

    /**
     * `calculateGradients`: fresh arrays, then every voxel's gradient and its
     * magnitude, x fastest, until a voxel throws. The row loop is
     * `GradientsOfRow`.
     */
    method CalculateGradients(calculationMethod: int, sqrt: real -> real) returns (thrown: bool)
      requires Shaped()
      modifies this
      ensures fresh(gradients) && fresh(gradientMagnitudes) && Valid()
      ensures width == old(width) && height == old(height) && depth == old(depth)
      ensures sliceSize == old(sliceSize) && voxelNum == old(voxelNum)
      ensures voxelData == old(voxelData) && histogram == old(histogram)
      ensures thrown <==> !KnownMethod(calculationMethod) && HasInterior(width, height, depth)
      ensures !thrown ==> GradientsUpTo(gradients[..], gradientMagnitudes[..], voxelData[..], width, height, depth, calculationMethod, sqrt, voxelNum)
    {
      var w, h, d, slice := width, height, depth, sliceSize;
      ghost var values := voxelData[..];
      var g := new Vec3[voxelNum](_ => Zero);
      var m := new real[voxelNum];
      gradients, gradientMagnitudes := g, m;
      thrown := false;

      var z := 0;
      while z < d
        modifies g, m
        invariant 0 <= z <= d && voxelData[..] == values
        invariant GradientsUpTo(g[..], m[..], values, w, h, d, calculationMethod, sqrt, Index(slice, w, 0, 0, z))
        invariant !KnownMethod(calculationMethod) && HasInterior(w, h, d) ==> z <= 1
      {
        thrown := GradientsOfSlice(g, m, calculationMethod, sqrt, z);
        if thrown {
          return;
        }
        IndexSteps(w, h, 0, h, z);
        z := z + 1;
      }
    }

    /**
     * The y loop of `calculateGradients` over slice z: it extends the prefix
     * of computed gradients and magnitudes to the end of the slice, or throws
     * in the slice's first interior row when the method is unknown.
     */
    method GradientsOfSlice(g: array<Vec3>, m: array<real>, calculationMethod: int, sqrt: real -> real, z: int)
      returns (thrown: bool)
      requires Shaped() && g.Length == voxelNum && m.Length == voxelNum && m != voxelData
      requires 0 <= z < depth
      requires GradientsUpTo(g[..], m[..], voxelData[..], width, height, depth, calculationMethod, sqrt, Index(sliceSize, width, 0, 0, z))
      modifies g, m
      ensures thrown <==> !KnownMethod(calculationMethod) && HasInterior(width, height, depth) && 1 <= z <= depth - 2
      ensures !thrown ==> GradientsUpTo(g[..], m[..], voxelData[..], width, height, depth, calculationMethod, sqrt, Index(sliceSize, width, 0, height, z))
    {
      ghost var values := voxelData[..];
      var y := 0;
      while y < height
        invariant 0 <= y <= height && voxelData[..] == values
        invariant GradientsUpTo(g[..], m[..], values, width, height, depth, calculationMethod, sqrt, Index(sliceSize, width, 0, y, z))
        invariant !KnownMethod(calculationMethod) && HasInterior(width, height, depth) && 1 <= z <= depth - 2 ==> y <= 1
      {
        thrown := GradientsOfRow(g, m, calculationMethod, sqrt, y, z);
        if thrown {
          return;
        }
        IndexSteps(width, height, width, y, z);
        y := y + 1;
      }
      return false;
    }

    /**
     * The x loop of `calculateGradients` over row (y, z): it extends the
     * prefix of computed gradients and magnitudes to the end of the row, or
     * throws at the first interior voxel of the row when the method is
     * unknown.
     */
    method GradientsOfRow(g: array<Vec3>, m: array<real>, calculationMethod: int, sqrt: real -> real, y: int, z: int)
      returns (thrown: bool)
      requires Shaped() && g.Length == voxelNum && m.Length == voxelNum && m != voxelData
      requires 0 <= y < height && 0 <= z < depth
      requires GradientsUpTo(g[..], m[..], voxelData[..], width, height, depth, calculationMethod, sqrt, Index(sliceSize, width, 0, y, z))
      modifies g, m
      ensures thrown <==> !KnownMethod(calculationMethod) && 3 <= width && 1 <= y <= height - 2 && 1 <= z <= depth - 2
      ensures !thrown ==> GradientsUpTo(g[..], m[..], voxelData[..], width, height, depth, calculationMethod, sqrt, Index(sliceSize, width, width, y, z))
    {
      ghost var values := voxelData[..];
      var x := 0;
      while x < width
        invariant 0 <= x <= width && voxelData[..] == values
        invariant GradientsUpTo(g[..], m[..], values, width, height, depth, calculationMethod, sqrt, Index(sliceSize, width, x, y, z))
        invariant !KnownMethod(calculationMethod) && 1 <= y <= height - 2 && 1 <= z <= depth - 2 ==> x <= 1 || width <= 2
      {
        IndexInRange(width, height, depth, x, y, z);
        GradientAtIndexOf(values, width, height, depth, calculationMethod, x, y, z);
        var gradient, interiorThrow := GradientOfVoxel(calculationMethod, x, y, z);
        if interiorThrow {
          return true;
        }
        var index := sliceSize * z + width * y + x;
        assert index == Index(width * height, width, x, y, z);
        ExtendGradients(g[..], m[..], values, width, height, depth, calculationMethod, sqrt, index, gradient);
        g[index] := gradient;
        m[index] := Magnitude(gradient, sqrt);
        IndexSteps(width, height, x, y, z);
        x := x + 1;
      }
      return false;
    }

    /**
     * `calculateHistogram`: 200 zero bins, one count per voxel in the bin of
     * its value, then each count replaced by its cube root. A negative voxel
     * would index before the first bin, so voxels are required to be
     * non-negative, as every loaded voxel is.
     */
    method CalculateHistogram(cbrt: real -> real)
      requires Shaped()
      requires forall i :: 0 <= i < voxelData.Length ==> 0.0 <= voxelData[i]
      modifies this`histogram
      ensures |histogram| == Bins
      ensures forall b :: 0 <= b < Bins ==> histogram[b] == cbrt(Count(voxelData[..], b) as real)
    {
      histogram := [];
      var i := 0;
      while i < 200
        invariant 0 <= i <= 200 && |histogram| == i
        invariant forall b :: 0 <= b < i ==> histogram[b] == 0.0
      {
        histogram := histogram + [0.0];
        i := i + 1;
      }

      i := 0;
      while i < voxelNum
        invariant 0 <= i <= voxelNum && |histogram| == Bins
        invariant forall b :: 0 <= b < Bins ==> histogram[b] == Count(voxelData[..i], b) as real
      {
        var sampleValue := voxelData[i] * 200.0;
        var index := Floor(sampleValue + 0.5);
        if index > 199 {
          index := 99;
        }
        assert voxelData[..i + 1][..i] == voxelData[..i];
        histogram := histogram[index := histogram[index] + 1.0];
        i := i + 1;
      }
      assert voxelData[..voxelNum] == voxelData[..];

      i := 0;
      while i < |histogram|
        invariant 0 <= i <= |histogram| == Bins
        invariant forall b :: 0 <= b < i ==> histogram[b] == cbrt(Count(voxelData[..], b) as real)
        invariant forall b :: i <= b < Bins ==> histogram[b] == Count(voxelData[..], b) as real
      {
        histogram := histogram[i := cbrt(histogram[i])];
        i := i + 1;
      }
    }

    /** `swap`: every field but the histogram is exchanged with `other`'s. */
    method Swap(other: Volume)
      modifies this, other
      ensures width == old(other.width) && other.width == old(width)
      ensures height == old(other.height) && other.height == old(height)
      ensures depth == old(other.depth) && other.depth == old(depth)
      ensures sliceSize == old(other.sliceSize) && other.sliceSize == old(sliceSize)
      ensures voxelNum == old(other.voxelNum) && other.voxelNum == old(voxelNum)
      ensures voxelData == old(other.voxelData) && other.voxelData == old(voxelData)
      ensures gradients == old(other.gradients) && other.gradients == old(gradients)
      ensures gradientMagnitudes == old(other.gradientMagnitudes) && other.gradientMagnitudes == old(gradientMagnitudes)
      ensures histogram == old(histogram) && other.histogram == old(other.histogram)
      ensures old(Valid()) && old(other.Valid()) ==> Valid() && other.Valid()
    {
      var w, h, d, slice, n := width, height, depth, sliceSize, voxelNum;
      var data, grads, mags := voxelData, gradients, gradientMagnitudes;
      SetFields(other.width, other.height, other.depth, other.sliceSize, other.voxelNum,
        other.voxelData, other.gradients, other.gradientMagnitudes);
      other.SetFields(w, h, d, slice, n, data, grads, mags);
    }

    /** Overwrites every field but the histogram. */
    method SetFields(w: int, h: int, d: int, slice: int, n: int, data: array<real>, grads: array<Vec3>,
                     mags: array<real>)
      modifies this
      ensures width == w && height == h && depth == d && sliceSize == slice && voxelNum == n
      ensures voxelData == data && gradients == grads && gradientMagnitudes == mags
      ensures histogram == old(histogram)
    {
      width, height, depth, sliceSize, voxelNum := w, h, d, slice, n;
      voxelData, gradients, gradientMagnitudes := data, grads, mags;
    }
  }
}
