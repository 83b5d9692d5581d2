/**
 * The C# first-hit renderer (Logic/VolumeRenderer.cs).
 *
 * A ray starts on the fixed view plane at fractions (vx, vy) of its right
 * and up directions, and marches along the projection direction in steps of
 * 0.01 until it has travelled 1.2. The first sample above the threshold 0
 * gives a grey colour; a ray that finds none is black. `Render` casts one
 * ray per pixel of a 128 x 128 image.
 *
 * The volume members the renderer calls (`GetVoxelClosest`,
 * `SizeOfLargestDimension`) are not part of the C# `Volume` class of this
 * model; they are a sampling function and a real number given to the
 * renderer when it is made.
 */
module CsRenderers {
  import opened Numeric
  import opened Vectors
  import opened ColorHsv
  import opened ViewPlanes
  import CsVolumes

  const ImageWidth := 128
  const ImageHeight := 128
  const StepSize := 0.01
  const CutoffDistance := 1.2
  const Threshold := 0.0

  /** The number of samples a ray that finds nothing reads: 0.01 · k < 1.2 exactly for k < 120. */
  const MaxSamples := 120

  /** `Color.FromArgb(r, g, b)`: an opaque colour. */
  function Opaque(red: int, green: int, blue: int): Argb
  {
    Argb(255, red, green, blue)
  }

  const Black := Opaque(0, 0, 0)

  /** The colour of a hit: `(int)(v * 255)` in all three channels. */
  function Grey(v: real): (c: Argb)
    ensures c.alpha == 255 && c.red == c.green == c.blue
    ensures 0.0 <= v ==> 0 <= c.red && c.red as real <= v * 255.0 < c.red as real + 1.0
    ensures 0.0 <= v && v * 255.0 < 256.0 ==> 0 <= c.red <= 255
  {
    var level := TruncToInt(v * 255.0);
    Opaque(level, level, level)
  }

  /** The point on the view plane where the ray for (vx, vy) starts. */
  function RayStart(plane: ViewPlane, vx: real, vy: real): Vec3
  {
    Add(Add(plane.bottomLeft, Scale(plane.rightDirection, vx)), Scale(plane.upDirection, vy))
  }

  /** The ray position after `k` steps along `d`, one addition per step as the loop does it. */
  function Advanced(start: Vec3, d: Vec3, k: nat): Vec3
  {
    if k == 0 then start else Add(Advanced(start, d, k - 1), Scale(d, StepSize))
  }

  /** The sample read at a ray position, scaled to voxel coordinates by the largest dimension. */
  function SampleAt(sample: (real, real, real) -> real, largest: real, p: Vec3): real
  {
    sample(p.x * largest, p.y * largest, p.z * largest)
  }

  /**
   * The march from step `k` at position `p`: the specification of the loop
   * in `CastRayFirstHit`.
   */
  function MarchFrom(sample: (real, real, real) -> real, largest: real, p: Vec3, d: Vec3, k: nat): Argb
    decreases MaxSamples - k
  {
    if k as real * StepSize < CutoffDistance then
      var v := SampleAt(sample, largest, p);
      if v > Threshold then Grey(v)
      else MarchFrom(sample, largest, Add(p, Scale(d, StepSize)), d, k + 1)
    else Black
  }

  /** The colour of the ray through (vx, vy). */
  function FirstHit(plane: ViewPlane, sample: (real, real, real) -> real, largest: real, vx: real, vy: real): Argb
  {
    MarchFrom(sample, largest, RayStart(plane, vx, vy), plane.projectionDirection, 0)
  }

  /** The `k`-th sample of the ray through (vx, vy). */
  function SampleOnRay(plane: ViewPlane, sample: (real, real, real) -> real, largest: real, vx: real, vy: real,
                       k: nat): real
  {
    SampleAt(sample, largest, Advanced(RayStart(plane, vx, vy), plane.projectionDirection, k))
  }

  /** Over the reals, k repeated steps reach start + d · (0.01 · k). */
  lemma {:induction false} AdvancedIsLinear(start: Vec3, d: Vec3, k: nat)
    ensures Advanced(start, d, k) == Add(start, Scale(d, k as real * StepSize))
  {
    if k > 0 {
      AdvancedIsLinear(start, d, k - 1);
      var s := (k - 1) as real * StepSize;
      assert k as real * StepSize == s + StepSize;
      calc {
        Advanced(start, d, k);
        Add(Add(start, Scale(d, s)), Scale(d, StepSize));
        Add(start, Scale(d, s + StepSize));
      }
    }
  }

  /** One step of the march: the sample at step k decides, or the march goes on from step k + 1. */
  lemma MarchStep(plane: ViewPlane, sample: (real, real, real) -> real, largest: real, vx: real, vy: real, k: nat)
    requires k < MaxSamples
    ensures var d := plane.projectionDirection;
            var v := SampleOnRay(plane, sample, largest, vx, vy, k);
            MarchFrom(sample, largest, Advanced(RayStart(plane, vx, vy), d, k), d, k)
            == if v > Threshold then Grey(v)
               else MarchFrom(sample, largest, Advanced(RayStart(plane, vx, vy), d, k + 1), d, k + 1)
  {
    assert k as real * StepSize < CutoffDistance;
  }

  /** A march that reaches the cutoff without a hit is black. */
  lemma {:induction false} MarchMissFrom(plane: ViewPlane, sample: (real, real, real) -> real, largest: real,
                                         vx: real, vy: real, k: nat)
    requires k <= MaxSamples
    requires forall j :: k <= j < MaxSamples ==> SampleOnRay(plane, sample, largest, vx, vy, j) <= Threshold
    ensures var d := plane.projectionDirection;
            MarchFrom(sample, largest, Advanced(RayStart(plane, vx, vy), d, k), d, k) == Black
    decreases MaxSamples - k
  {
    if k < MaxSamples {
      MarchStep(plane, sample, largest, vx, vy, k);
      MarchMissFrom(plane, sample, largest, vx, vy, k + 1);
    } else {
      assert !(k as real * StepSize < CutoffDistance);
    }
  }

  /** A march whose first sample above the threshold is the j-th returns that sample's grey. */
  lemma {:induction false} MarchHitFrom(plane: ViewPlane, sample: (real, real, real) -> real, largest: real,
                                        vx: real, vy: real, k: nat, j: nat)
    requires k <= j < MaxSamples
    requires SampleOnRay(plane, sample, largest, vx, vy, j) > Threshold
    requires forall i :: k <= i < j ==> SampleOnRay(plane, sample, largest, vx, vy, i) <= Threshold
    ensures var d := plane.projectionDirection;
            MarchFrom(sample, largest, Advanced(RayStart(plane, vx, vy), d, k), d, k)
            == Grey(SampleOnRay(plane, sample, largest, vx, vy, j))
    decreases j - k
  {
    MarchStep(plane, sample, largest, vx, vy, k);
    if k < j {
      MarchHitFrom(plane, sample, largest, vx, vy, k + 1, j);
    }
  }

  /**
   * The ray is black when no sample along the march exceeds 0, and otherwise
   * takes the grey of the first sample that does.
   */
  lemma FirstHitOutcome(plane: ViewPlane, sample: (real, real, real) -> real, largest: real, vx: real, vy: real)
    ensures (forall j :: 0 <= j < MaxSamples ==> SampleOnRay(plane, sample, largest, vx, vy, j) <= Threshold)
            ==> FirstHit(plane, sample, largest, vx, vy) == Black
    ensures forall j: nat ::
              (j < MaxSamples && SampleOnRay(plane, sample, largest, vx, vy, j) > Threshold
               && (forall i :: 0 <= i < j ==> SampleOnRay(plane, sample, largest, vx, vy, i) <= Threshold))
              ==> FirstHit(plane, sample, largest, vx, vy) == Grey(SampleOnRay(plane, sample, largest, vx, vy, j))
  {
    if forall j :: 0 <= j < MaxSamples ==> SampleOnRay(plane, sample, largest, vx, vy, j) <= Threshold {
      MarchMissFrom(plane, sample, largest, vx, vy, 0);
    }
    forall j: nat | j < MaxSamples && SampleOnRay(plane, sample, largest, vx, vy, j) > Threshold
                    && (forall i :: 0 <= i < j ==> SampleOnRay(plane, sample, largest, vx, vy, i) <= Threshold)
      ensures FirstHit(plane, sample, largest, vx, vy) == Grey(SampleOnRay(plane, sample, largest, vx, vy, j))
    {
      MarchHitFrom(plane, sample, largest, vx, vy, 0, j);
    }
  }

  /**
   * A sample in (0, 1/255) is a hit whose grey truncates to 0: such a ray is
   * black although a sample exceeds the threshold, so black does not by
   * itself mean that the ray missed.
   */
  lemma FaintHitLooksBlack(plane: ViewPlane, largest: real, vx: real, vy: real)
    ensures SampleOnRay(plane, (x, y, z) => 0.001, largest, vx, vy, 0) > Threshold
    ensures FirstHit(plane, (x, y, z) => 0.001, largest, vx, vy) == Black
  {
    assert TruncToInt(0.001 * 255.0) == 0;
  }

  /**
   * At most 120 samples are read: two samplers that agree on the first 120
   * samples of a ray give it the same colour.
   */
  lemma {:induction false} OnlyFirstSamplesMatter(plane: ViewPlane, s1: (real, real, real) -> real,
                                                  s2: (real, real, real) -> real, largest: real,
                                                  vx: real, vy: real, k: nat)
    requires k <= MaxSamples
    requires forall j :: k <= j < MaxSamples ==>
               SampleOnRay(plane, s1, largest, vx, vy, j) == SampleOnRay(plane, s2, largest, vx, vy, j)
    ensures var p := Advanced(RayStart(plane, vx, vy), plane.projectionDirection, k);
            MarchFrom(s1, largest, p, plane.projectionDirection, k) == MarchFrom(s2, largest, p, plane.projectionDirection, k)
    decreases MaxSamples - k
  {
    if k < MaxSamples {
      MarchStep(plane, s1, largest, vx, vy, k);
      MarchStep(plane, s2, largest, vx, vy, k);
      OnlyFirstSamplesMatter(plane, s1, s2, largest, vx, vy, k + 1);
    } else {
      assert !(k as real * StepSize < CutoffDistance);
    }
  }

  /** `x / (float)xSize`: the pixel index as a fraction of the image size. */
  function ViewportCoordinate(i: int, size: int): (c: real)
    requires 0 < size
    ensures 0 <= i < size ==> 0.0 <= c < 1.0
  {
    i as real / size as real
  }

  /** The colour of pixel (x, y) of the 128 x 128 image. */
  function ImagePixel(plane: ViewPlane, sample: (real, real, real) -> real, largest: real, x: int, y: int): Argb
  {
    FirstHit(plane, sample, largest, ViewportCoordinate(x, ImageWidth), ViewportCoordinate(y, ImageHeight))
  }

  class VolumeRenderer {
    var Volume: CsVolumes.Volume
    var ViewPlane: ViewPlane
    /** `Volume.GetVoxelClosest`. */
    const sampleClosest: (real, real, real) -> real
    /** `Volume.SizeOfLargestDimension`. */
    const sizeOfLargestDimension: real

    /** The renderer draws the given volume through a fresh view plane. */
    constructor (volume: CsVolumes.Volume, sampleClosest: (real, real, real) -> real, sizeOfLargestDimension: real)
      ensures Volume == volume && ViewPlane == NewViewPlane()
      ensures this.sampleClosest == sampleClosest && this.sizeOfLargestDimension == sizeOfLargestDimension
    {
      ViewPlane := NewViewPlane();
      Volume := volume;
      this.sampleClosest := sampleClosest;
      this.sizeOfLargestDimension := sizeOfLargestDimension;
    }

    /** The colour `Render` gives pixel (x, y). */
    function Pixel(x: int, y: int): Argb
      reads this
    {
      ImagePixel(ViewPlane, sampleClosest, sizeOfLargestDimension, x, y)
    }

    /** The colour of the ray through (vx, vy) of this renderer's plane and volume. */
    function Ray(vx: real, vy: real): Argb
      reads this
    {
      FirstHit(ViewPlane, sampleClosest, sizeOfLargestDimension, vx, vy)
    }

    /** `CastRayFirstHit`: march from the view plane until a sample exceeds the threshold or the cutoff is reached. */
    method CastRayFirstHit(viewportX: real, viewportY: real) returns (c: Argb)
      ensures c == Ray(viewportX, viewportY)
    {
      var d := ViewPlane.projectionDirection;
      var rayPosition := RayStart(ViewPlane, viewportX, viewportY);
      var rayLength := 0.0;
      ghost var k: nat := 0;
      while rayLength < CutoffDistance
        invariant rayLength == k as real * StepSize && k <= MaxSamples
        invariant MarchFrom(sampleClosest, sizeOfLargestDimension, rayPosition, d, k)
                  == FirstHit(ViewPlane, sampleClosest, sizeOfLargestDimension, viewportX, viewportY)
        decreases MaxSamples - k
      {
        var voxelValue := SampleAt(sampleClosest, sizeOfLargestDimension, rayPosition);
        if voxelValue > Threshold {
          return Grey(voxelValue);
        }
        rayPosition := Add(rayPosition, Scale(d, StepSize));
        rayLength := rayLength + StepSize;
        k := k + 1;
      }
      return Black;
    }

    /** `Render`: a 128 x 128 bitmap whose pixel (x, y) is the ray through (x / 128, y / 128). */
    method Render() returns (result: array2<Argb>)
      ensures fresh(result)
      ensures result.Length0 == ImageWidth && result.Length1 == ImageHeight
      ensures forall x, y :: 0 <= x < ImageWidth && 0 <= y < ImageHeight ==> result[x, y] == Pixel(x, y)
    {
      result := new Argb[ImageWidth, ImageHeight];
      for x := 0 to ImageWidth
        invariant forall i, j :: 0 <= i < x && 0 <= j < ImageHeight ==> result[i, j] == Pixel(i, j)
      {
        RenderColumn(result, x);
      }
    }

    /** The inner loop of `Render`: column x takes its rays' colours, the other columns stay. */
    method RenderColumn(result: array2<Argb>, x: int)
      requires result.Length0 == ImageWidth && result.Length1 == ImageHeight && 0 <= x < ImageWidth
      modifies result
      ensures forall j :: 0 <= j < ImageHeight ==> result[x, j] == Pixel(x, j)
      ensures forall i, j :: 0 <= i < ImageWidth && 0 <= j < ImageHeight && i != x ==> result[i, j] == old(result[i, j])
    {
      for y := 0 to ImageHeight
        invariant forall j :: 0 <= j < y ==> result[x, j] == ImagePixel(ViewPlane, sampleClosest, sizeOfLargestDimension, x, j)
        invariant forall i, j :: 0 <= i < ImageWidth && 0 <= j < ImageHeight && i != x ==> result[i, j] == old(result[i, j])
      {
        RenderPixel(result, x, y);
      }
    }

    /** The body of the inner loop: pixel (x, y) takes its ray's colour, every other pixel stays. */
    method RenderPixel(result: array2<Argb>, x: int, y: int)
      requires 0 <= x < result.Length0 == ImageWidth && 0 <= y < result.Length1 == ImageHeight
      modifies result
      ensures result[x, y] == ImagePixel(ViewPlane, sampleClosest, sizeOfLargestDimension, x, y)
      ensures forall i, j :: 0 <= i < ImageWidth && 0 <= j < ImageHeight && (i != x || j != y) ==> result[i, j] == old(result[i, j])
    {
      var currentColor := CastRayFirstHit(ViewportCoordinate(x, ImageWidth), ViewportCoordinate(y, ImageHeight));
      result[x, y] := currentColor;
    }
  }
}
