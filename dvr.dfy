/**
 * The ray caster of the C++ renderer's volume widget: the ray/box test that
 * places each viewing ray, the four rendering modes (first hit, maximum
 * intensity projection, average intensity and direct volume rendering with
 * back-to-front compositing), the interpolation dispatch and the resolution
 * settings.
 *
 * Every rendering loop is a method proved against a fold that reads the
 * probes along the ray from left to right; the properties of each mode
 * (the maximum, the first value above the threshold, an average within the
 * values' range, colours that stay in the unit cube) are lemmas about the
 * folds.
 */
module DvrWidgets {
  import opened Numeric
  import opened Vectors
  import Viewports
  import VolumeSampling
  import CppVolumes
  import CppTransferFunctions

  datatype Option<T> = None | Some(value: T)

  /** A range [near, far] of ray parameters. */
  datatype Span = Span(near: real, far: real)

  /** What `interpolateVoxel` gives: a value, its `throw -1`, or a read past the voxel data. */
  datatype Probe = Value(v: real) | Threw | OutOfBounds

  /** What `castRay` gives for one pixel. */
  datatype Pixel =
    | Rgb(color: Vec3)
    | Thrown           // `interpolateVoxel` threw
    | ReadOutOfBounds  // the nearest-neighbour lookup read past the voxel data
    | AssertionFailed  // a value outside [0, 1] reached the transfer function
    | Undefined        // the function falls off its end or uses an uninitialised magnitude
    | Shaded           // Phong shading decides the colour; it is not modelled

  /** One compositing step of direct volume rendering: a colour and its opacity, or the end of the ray cast. */
  datatype Step = Contribution(color: Vec3, alpha: real) | Halt(pixel: Pixel)

  /** The colour of a ray that misses the volume. */
  const MissColor := Vec3(0.3, 0.3, 0.3)

  /** The box test starts from the parameter range [-FarLimit, FarLimit]. */
  const FarLimit := 500000.0

  function Pow2(k: nat): (r: nat)
    ensures 1 <= r
  {
    if k == 0 then 1 else 2 * Pow2(k - 1)
  }

  // ---------------------------------------------------------------------
  // Ray/box intersection
  // ---------------------------------------------------------------------

  /**
   * One axis of `findBoxIntersectionPoints`: a ray parallel to the slab
   * passes only when its origin lies between the planes; otherwise the
   * range narrows to the slab's parameters and fails when it empties or
   * lies wholly behind the origin.
   */
  function ClipAxis(s: Span, o: real, d: real, max: real): (r: Option<Span>)
    requires s.near <= s.far && 0.0 <= s.far
    ensures r.Some? ==> s.near <= r.value.near <= r.value.far <= s.far && 0.0 <= r.value.far
  {
    if d == 0.0 then
      if o < 0.0 || o > max then None else Some(s)
    else
      var iv := Viewports.SlabInterval(o, d, max);
      var near := if iv.0 > s.near then iv.0 else s.near;
      var far := if iv.1 < s.far then iv.1 else s.far;
      if near > far || far < 0.0 then None else Some(Span(near, far))
  }

  /**
   * A parameter survives one axis exactly when it was in range and the
   * ray's coordinate there lies between the planes.
   */
  lemma ClipAxisExact(s: Span, o: real, d: real, max: real, t: real, coordinate: real)
    requires s.near <= s.far && 0.0 <= s.far && 0.0 <= max && coordinate == o + d * t
    ensures var r := ClipAxis(s, o, d, max);
      r.Some? && r.value.near <= t <= r.value.far ==> s.near <= t <= s.far && 0.0 <= coordinate <= max
    ensures var r := ClipAxis(s, o, d, max);
      s.near <= t <= s.far && 0.0 <= t && 0.0 <= coordinate <= max ==> r.Some? && r.value.near <= t <= r.value.far
  {
    if d != 0.0 {
      Viewports.CoordinateInSlab(o, d, max, t, coordinate);
    }
  }

  /** The three axes of `findBoxIntersectionPoints`, x then y then z; `None` where it returns false. */
  function BoxClip(d: Vec3, o: Vec3, size: Vec3): (r: Option<Span>)
    ensures r.Some? ==> -FarLimit <= r.value.near <= r.value.far <= FarLimit && 0.0 <= r.value.far
  {
    var sx := ClipAxis(Span(-FarLimit, FarLimit), o.x, d.x, size.x);
    if sx.None? then None
    else
      var sy := ClipAxis(sx.value, o.y, d.y, size.y);
      if sy.None? then None else ClipAxis(sy.value, o.z, d.z, size.z)
  }

  /** Coordinate 0, 1 or 2 of a vector. */
  function Coordinate(v: Vec3, axis: int): real
  {
    if axis == 0 then v.x else if axis == 1 then v.y else v.z
  }

  /** `ClipAxisExact` on one axis of the point o + t·d and the box [0, size]. */
  lemma ClipAxisAtPoint(s: Span, o: Vec3, d: Vec3, size: Vec3, t: real, axis: int)
    requires s.near <= s.far && 0.0 <= s.far && 0.0 <= Coordinate(size, axis)
    ensures var r := ClipAxis(s, Coordinate(o, axis), Coordinate(d, axis), Coordinate(size, axis));
      var c := Coordinate(Viewports.PointAt(o, d, t), axis);
      && (r.Some? && r.value.near <= t <= r.value.far ==> s.near <= t <= s.far && 0.0 <= c <= Coordinate(size, axis))
      && (s.near <= t <= s.far && 0.0 <= t && 0.0 <= c <= Coordinate(size, axis) ==> r.Some? && r.value.near <= t <= r.value.far)
  {
    var p := Viewports.PointAt(o, d, t);
    assert Coordinate(p, axis) == Coordinate(o, axis) + Coordinate(d, axis) * t;
    ClipAxisExact(s, Coordinate(o, axis), Coordinate(d, axis), Coordinate(size, axis), t, Coordinate(p, axis));
  }

  /** Every parameter of the range the box test returns puts the ray inside the box [0, size]. */
  lemma BoxClipSound(d: Vec3, o: Vec3, size: Vec3, t: real)
    requires 0.0 <= size.x && 0.0 <= size.y && 0.0 <= size.z
    requires BoxClip(d, o, size).Some?
    requires BoxClip(d, o, size).value.near <= t <= BoxClip(d, o, size).value.far
    ensures Viewports.InBox(Viewports.PointAt(o, d, t), size)
  {
    var s0 := Span(-FarLimit, FarLimit);
    var sx := ClipAxis(s0, o.x, d.x, size.x).value;
    var sy := ClipAxis(sx, o.y, d.y, size.y).value;
    ClipAxisAtPoint(sy, o, d, size, t, 2);
    ClipAxisAtPoint(sx, o, d, size, t, 1);
    ClipAxisAtPoint(s0, o, d, size, t, 0);
  }

  /** Every parameter in [0, FarLimit] that puts the ray inside the box lies in the range the box test returns. */
  lemma BoxClipComplete(d: Vec3, o: Vec3, size: Vec3, t: real)
    requires 0.0 <= size.x && 0.0 <= size.y && 0.0 <= size.z
    requires 0.0 <= t <= FarLimit && Viewports.InBox(Viewports.PointAt(o, d, t), size)
    ensures BoxClip(d, o, size).Some?
    ensures BoxClip(d, o, size).value.near <= t <= BoxClip(d, o, size).value.far
  {
    var s0 := Span(-FarLimit, FarLimit);
    ClipAxisAtPoint(s0, o, d, size, t, 0);
    var sx := ClipAxis(s0, o.x, d.x, size.x).value;
    ClipAxisAtPoint(sx, o, d, size, t, 1);
    var sy := ClipAxis(sx, o.y, d.y, size.y).value;
    ClipAxisAtPoint(sy, o, d, size, t, 2);
  }

  /** The test reports a hit exactly when the ray meets the box at some parameter in [0, FarLimit]. */
  lemma BoxHitMeaning(d: Vec3, o: Vec3, size: Vec3)
    requires 0.0 <= size.x && 0.0 <= size.y && 0.0 <= size.z
    ensures BoxClip(d, o, size).Some? <==>
      exists t :: 0.0 <= t <= FarLimit && Viewports.InBox(Viewports.PointAt(o, d, t), size)
  {
    var r := BoxClip(d, o, size);
    if r.Some? {
      BoxClipSound(d, o, size, r.value.far);
    }
    if exists t :: 0.0 <= t <= FarLimit && Viewports.InBox(Viewports.PointAt(o, d, t), size) {
      var t :| 0.0 <= t <= FarLimit && Viewports.InBox(Viewports.PointAt(o, d, t), size);
      BoxClipComplete(d, o, size, t);
    }
  }

  /** One axis block of `findBoxIntersectionPoints` on the running range. */
  method ClipSlab(tNear: real, tFar: real, o: real, d: real, max: real) returns (ok: bool, near: real, far: real)
    requires tNear <= tFar && 0.0 <= tFar
    ensures ok == ClipAxis(Span(tNear, tFar), o, d, max).Some?
    ensures ok ==> ClipAxis(Span(tNear, tFar), o, d, max) == Some(Span(near, far))
  {
    near, far := tNear, tFar;
    if d == 0.0 {
      // The ray is parallel to the slab.
      if o < 0.0 || o > max {
        return false, near, far;
      }
    } else {
      var t1 := (0.0 - o) / d;
      var t2 := (max - o) / d;
      if t1 > t2 {
        t1, t2 := t2, t1;
      }
      if t1 > near {
        near := t1;
      }
      if t2 < far {
        far := t2;
      }
      if near > far {
        return false, near, far;
      }
      if far < 0.0 {
        return false, near, far;
      }
    }
    return true, near, far;
  }

  /**
   * `findBoxIntersectionPoints`: on a hit, the entry and exit points at the
   * ends of the range `BoxClip` gives; on a miss the out-parameters keep
   * the values they came in with.
   */
  method FindBoxIntersectionPoints(rayDirection: Vec3, rayStart: Vec3, inPoint: Vec3, outPoint: Vec3,
                                   xMax: real, yMax: real, zMax: real)
    returns (hit: bool, entry: Vec3, exit: Vec3)
    ensures hit == BoxClip(rayDirection, rayStart, Vec3(xMax, yMax, zMax)).Some?
    ensures hit ==> var r := BoxClip(rayDirection, rayStart, Vec3(xMax, yMax, zMax)).value;
      entry == Viewports.PointAt(rayStart, rayDirection, r.near)
      && exit == Viewports.PointAt(rayStart, rayDirection, r.far)
    ensures !hit ==> entry == inPoint && exit == outPoint
  {
    entry, exit := inPoint, outPoint;
    var tNear, tFar := -FarLimit, FarLimit;
    hit, tNear, tFar := ClipSlab(tNear, tFar, rayStart.x, rayDirection.x, xMax);
    if !hit {
      return;
    }
    hit, tNear, tFar := ClipSlab(tNear, tFar, rayStart.y, rayDirection.y, yMax);
    if !hit {
      return;
    }
    hit, tNear, tFar := ClipSlab(tNear, tFar, rayStart.z, rayDirection.z, zMax);
    if !hit {
      return;
    }
    assert BoxClip(rayDirection, rayStart, Vec3(xMax, yMax, zMax)) == Some(Span(tNear, tFar));
    // Each coordinate is rayStart + T · rayDirection.
    entry := Viewports.PointAt(rayStart, rayDirection, tNear);
    exit := Viewports.PointAt(rayStart, rayDirection, tFar);
  }

  // ---------------------------------------------------------------------
  // Marching along the ray
  // ---------------------------------------------------------------------

  /** The number of loop rounds: the counts k with k · stepSize below the ray length. */
  function StepCount(rayLength: real, stepSize: real): nat
    requires stepSize > 0.0
  {
    if rayLength <= 0.0 then 0 else Ceil(rayLength / stepSize)
  }

  /** The marching loops run exactly `StepCount` rounds. */
  lemma StepCountMeaning(rayLength: real, stepSize: real, k: nat)
    requires stepSize > 0.0
    ensures k < StepCount(rayLength, stepSize) <==> k as real * stepSize < rayLength
  {
    Viewports.DivBelow(rayLength, stepSize, k as real);
    if rayLength <= 0.0 {
      VolumeSampling.NonNegativeProduct(k as real, stepSize);
    }
  }

  /** The ray position after k steps of `delta`, forward (`+=`) or backward (`-=`). */
  function MarchFrom(p0: Vec3, delta: Vec3, forward: bool, k: nat): Vec3
  {
    if k == 0 then p0
    else if forward then Add(MarchFrom(p0, delta, forward, k - 1), delta)
    else Sub(MarchFrom(p0, delta, forward, k - 1), delta)
  }

  /** Every value read lies in [0, 1]. */
  predicate ValuesInUnit(ps: seq<Probe>)
  {
    forall j :: 0 <= j < |ps| && ps[j].Value? ==> 0.0 <= ps[j].v <= 1.0
  }

  /** The probe values from index a up to b are all read and at most the threshold. */
  predicate AllAtMost(ps: seq<Probe>, threshold: real, a: int, b: int)
    requires 0 <= a <= b <= |ps|
  {
    forall i :: a <= i < b ==> ps[i].Value? && ps[i].v <= threshold
  }

  /** The pixel of a failed probe. */
  function FailurePixel(p: Probe): (r: Pixel)
    requires !p.Value?
    ensures r == Thrown || r == ReadOutOfBounds
  {
    if p.Threw? then Thrown else ReadOutOfBounds
  }

  /**
   * The first-hit loop from probe k with `last` the value read last: it
   * stops once that value exceeds the threshold or the probes run out, and
   * a failing probe ends the cast.
   */
  function FirstHitFrom(ps: seq<Probe>, threshold: real, k: nat, last: real): (r: Probe)
    requires k <= |ps|
    decreases |ps| - k
  {
    if !(last <= threshold) || k == |ps| then Value(last)
    else if !ps[k].Value? then ps[k]
    else FirstHitFrom(ps, threshold, k + 1, ps[k].v)
  }

  /** One step of the first-hit loop: a failed read ends it, a value moves it on. */
  lemma FirstHitStep(ps: seq<Probe>, threshold: real, k: nat, last: real)
    requires k < |ps| && last <= threshold
    ensures !ps[k].Value? ==> FirstHitFrom(ps, threshold, k, last) == ps[k]
    ensures ps[k].Value? ==> FirstHitFrom(ps, threshold, k, last) == FirstHitFrom(ps, threshold, k + 1, ps[k].v)
  {
  }

  /**
   * Read from a value at most the threshold, the first-hit loop returns the
   * first probe above the threshold, all before it having been read; a
   * value at most the threshold comes back only when no probe exceeded it.
   */
  lemma {:induction false} FirstHitMeaning(ps: seq<Probe>, threshold: real, k: nat, last: real)
    requires k <= |ps| && last <= threshold
    ensures var r := FirstHitFrom(ps, threshold, k, last);
      r.Value? && r.v > threshold ==> exists j :: k <= j < |ps| && ps[j] == r && AllAtMost(ps, threshold, k, j)
    ensures var r := FirstHitFrom(ps, threshold, k, last);
      r.Value? && r.v <= threshold ==> AllAtMost(ps, threshold, k, |ps|)
    decreases |ps| - k
  {
    if k < |ps| && ps[k].Value? {
      var r := FirstHitFrom(ps, threshold, k, last);
      if ps[k].v <= threshold {
        FirstHitMeaning(ps, threshold, k + 1, ps[k].v);
        if r.Value? && r.v > threshold {
          var j :| k + 1 <= j < |ps| && ps[j] == r && AllAtMost(ps, threshold, k + 1, j);
          assert AllAtMost(ps, threshold, k, j);
        }
      } else {
        assert FirstHitFrom(ps, threshold, k + 1, ps[k].v) == Value(ps[k].v);
        assert r == ps[k] && AllAtMost(ps, threshold, k, k);
      }
    }
  }

  /** The first-hit value is the last value read, so it lies in [0, 1] with them. */
  lemma {:induction false} FirstHitInUnit(ps: seq<Probe>, threshold: real, k: nat, last: real)
    requires k <= |ps| && ValuesInUnit(ps) && 0.0 <= last <= 1.0
    ensures var r := FirstHitFrom(ps, threshold, k, last); r.Value? ==> 0.0 <= r.v <= 1.0
    decreases |ps| - k
  {
    if last <= threshold && k < |ps| && ps[k].Value? {
      FirstHitInUnit(ps, threshold, k + 1, ps[k].v);
    }
  }

  /** The M.I.P. loop from probe k with `maxValue` so far; a failing probe ends the cast. */
  function MaxFrom(ps: seq<Probe>, k: nat, maxValue: real): (r: Probe)
    requires k <= |ps|
    decreases |ps| - k
  {
    if k == |ps| then Value(maxValue)
    else if !ps[k].Value? then ps[k]
    else MaxFrom(ps, k + 1, if ps[k].v > maxValue then ps[k].v else maxValue)
  }

  /**
   * The M.I.P. value is at least the starting value and every probe, and it
   * is the starting value or one of the probes; a failure is one of the
   * probes.
   */
  lemma {:induction false} MaxFromMeaning(ps: seq<Probe>, k: nat, maxValue: real)
    requires k <= |ps|
    ensures var r := MaxFrom(ps, k, maxValue);
      r.Value? ==> maxValue <= r.v && forall j :: k <= j < |ps| ==> ps[j].Value? && ps[j].v <= r.v
    ensures var r := MaxFrom(ps, k, maxValue);
      r == Value(maxValue) || exists j :: k <= j < |ps| && ps[j] == r
    decreases |ps| - k
  {
    if k < |ps| && ps[k].Value? {
      var next := if ps[k].v > maxValue then ps[k].v else maxValue;
      MaxFromMeaning(ps, k + 1, next);
      var r := MaxFrom(ps, k, maxValue);
      if r != Value(next) {
        var j :| k + 1 <= j < |ps| && ps[j] == r;
      } else if next != maxValue {
        assert ps[k] == r;
      }
    }
  }

  /** The average loop's running sum from probe k; a failing probe ends the cast. */
  function SumFrom(ps: seq<Probe>, k: nat, sum: real): (r: Probe)
    requires k <= |ps|
    decreases |ps| - k
  {
    if k == |ps| then Value(sum)
    else if !ps[k].Value? then ps[k]
    else SumFrom(ps, k + 1, sum + ps[k].v)
  }

  /** The luminosity of the average mode: the sum over the number of samples, 0 without samples. */
  function AverageIntensity(ps: seq<Probe>): Probe
  {
    var s := SumFrom(ps, 0, 0.0);
    if !s.Value? then s else Value(if |ps| != 0 then s.v / |ps| as real else 0.0)
  }

  /** With values in [0, 1], the sum grows by at most one per probe. */
  lemma {:induction false} SumFromBounded(ps: seq<Probe>, k: nat, sum: real)
    requires k <= |ps| && ValuesInUnit(ps) && 0.0 <= sum <= k as real
    ensures var r := SumFrom(ps, k, sum); r.Value? ==> 0.0 <= r.v <= |ps| as real
    decreases |ps| - k
  {
    if k < |ps| && ps[k].Value? {
      SumFromBounded(ps, k + 1, sum + ps[k].v);
    }
  }

  /** The average of values in [0, 1] lies in [0, 1]. */
  lemma AverageInUnit(ps: seq<Probe>)
    requires ValuesInUnit(ps)
    ensures var r := AverageIntensity(ps); r.Value? ==> 0.0 <= r.v <= 1.0
  {
    SumFromBounded(ps, 0, 0.0);
    var s := SumFrom(ps, 0, 0.0);
    if s.Value? && |ps| != 0 {
      Viewports.DivBelow(s.v, |ps| as real, 1.0);
      Viewports.DivAbove(s.v, |ps| as real, 0.0);
    }
  }

  /** Along a ray of one constant value, the sum is that value once per remaining probe. */
  lemma {:induction false} SumOfConstant(ps: seq<Probe>, k: nat, sum: real, c: real)
    requires k <= |ps| && forall j :: 0 <= j < |ps| ==> ps[j] == Value(c)
    ensures SumFrom(ps, k, sum) == Value(sum + (|ps| - k) as real * c)
    decreases |ps| - k
  {
    if k < |ps| {
      SumOfConstant(ps, k + 1, sum + c, c);
    }
  }

  /** The average of a ray of one constant value is that value. */
  lemma AverageOfConstant(ps: seq<Probe>, c: real)
    requires 0 < |ps| && forall j :: 0 <= j < |ps| ==> ps[j] == Value(c)
    ensures AverageIntensity(ps) == Value(c)
  {
    SumOfConstant(ps, 0, 0.0, c);
    assert (|ps| as real * c) / |ps| as real == c;
  }

  /** The compositing step: this sample's colour weighted by its opacity over what lies behind it. */
  function Over(c: Vec3, alpha: real, behind: Vec3): Vec3
  {
    Vec3(c.x * alpha + (1.0 - alpha) * behind.x, c.y * alpha + (1.0 - alpha) * behind.y,
      c.z * alpha + (1.0 - alpha) * behind.z)
  }

  /** The D.V.R. loop from step k with the colour composited so far; a halting step ends the cast. */
  function CompositeFrom(steps: seq<Step>, k: nat, acc: Vec3): (r: Pixel)
    requires k <= |steps|
    decreases |steps| - k
  {
    if k == |steps| then Rgb(acc)
    else match steps[k]
      case Halt(p) => p
      case Contribution(c, alpha) => CompositeFrom(steps, k + 1, Over(c, alpha, acc))
  }

  /** One step of the fold: a halting step ends it with its pixel, a contribution is composited over the colour so far. */
  lemma CompositeStep(steps: seq<Step>, k: nat, acc: Vec3)
    requires k < |steps|
    ensures steps[k].Halt? ==> CompositeFrom(steps, k, acc) == steps[k].pixel
    ensures steps[k].Contribution? ==>
      CompositeFrom(steps, k, acc) == CompositeFrom(steps, k + 1, Over(steps[k].color, steps[k].alpha, acc))
  {
  }

  predicate ColorInUnit(c: Vec3)
  {
    0.0 <= c.x <= 1.0 && 0.0 <= c.y <= 1.0 && 0.0 <= c.z <= 1.0
  }

  /** Every contribution has a colour in the unit cube and an opacity in [0, 1], and no halting step carries a colour. */
  predicate ContributionsInUnit(steps: seq<Step>)
  {
    forall j :: 0 <= j < |steps| ==>
      if steps[j].Contribution? then ColorInUnit(steps[j].color) && 0.0 <= steps[j].alpha <= 1.0
      else !steps[j].pixel.Rgb?
  }

  /** One compositing step keeps the colour in the unit cube. */
  lemma OverInUnit(c: Vec3, alpha: real, behind: Vec3)
    requires ColorInUnit(c) && ColorInUnit(behind) && 0.0 <= alpha <= 1.0
    ensures ColorInUnit(Over(c, alpha, behind))
  {
    VolumeSampling.LerpBounded(behind.x, c.x, alpha, 0.0, 1.0);
    VolumeSampling.LerpBounded(behind.y, c.y, alpha, 0.0, 1.0);
    VolumeSampling.LerpBounded(behind.z, c.z, alpha, 0.0, 1.0);
  }

  /** Compositing colours and opacities in [0, 1] over a colour in the unit cube stays in the unit cube. */
  lemma {:induction false} CompositeInUnit(steps: seq<Step>, k: nat, acc: Vec3)
    requires k <= |steps| && ContributionsInUnit(steps) && ColorInUnit(acc)
    ensures var r := CompositeFrom(steps, k, acc); r.Rgb? ==> ColorInUnit(r.color)
    decreases |steps| - k
  {
    if k < |steps| && steps[k].Contribution? {
      OverInUnit(steps[k].color, steps[k].alpha, acc);
      CompositeInUnit(steps, k + 1, Over(steps[k].color, steps[k].alpha, acc));
    }
  }

  /** The front-most sample, composited last, hides everything behind it when it is opaque. */
  lemma {:induction false} OpaqueFrontHides(steps: seq<Step>, k: nat, acc: Vec3, c: Vec3)
    requires k < |steps| && steps[|steps| - 1] == Contribution(c, 1.0)
    requires forall j :: k <= j < |steps| ==> steps[j].Contribution?
    ensures CompositeFrom(steps, k, acc) == Rgb(c)
    decreases |steps| - k
  {
    if k + 1 < |steps| {
      OpaqueFrontHides(steps, k + 1, Over(steps[k].color, steps[k].alpha, acc), c);
    } else {
      assert steps[k] == Contribution(c, 1.0);
    }
  }

  /** A composited ray ends in a colour or in the pixel of the step that halted it. */
  lemma {:induction false} CompositeOutcome(steps: seq<Step>, k: nat, acc: Vec3)
    requires k <= |steps|
    ensures var r := CompositeFrom(steps, k, acc); r.Rgb? || exists j :: k <= j < |steps| && steps[j] == Halt(r)
    decreases |steps| - k
  {
    if k < |steps| && steps[k].Contribution? {
      CompositeOutcome(steps, k + 1, Over(steps[k].color, steps[k].alpha, acc));
    }
  }

  /** The product of two values in [0, 1] lies in [0, 1]. */
  lemma ProductInUnit(a: real, b: real)
    requires 0.0 <= a <= 1.0 && 0.0 <= b <= 1.0
    ensures 0.0 <= a * b <= 1.0
  {
    VolumeSampling.NonNegativeProduct(a, b);
    VolumeSampling.NonNegativeProduct(a, 1.0 - b);
  }

  // ---------------------------------------------------------------------
  // What a ray reads
  // ---------------------------------------------------------------------

  /** The voxel values and gradient magnitudes of a volume, with its sizes. */
  datatype Grid = Grid(values: seq<real>, magnitudes: seq<real>, width: int, height: int, depth: int)

  predicate GridValid(g: Grid)
  {
    && 1 <= g.width && 1 <= g.height && 1 <= g.depth
    && |g.values| == g.width * g.height * g.depth && |g.magnitudes| == |g.values|
  }

  /** The settings `castRay` consults besides its arguments. */
  datatype Settings = Settings(firstHitValue: int, shadingMode: int, transferFunctionMode: int,
                               gradientInterpolationMode: int)

  /**
   * `interpolateVoxel` on a grid: the nearest voxel for mode 0, trilinear
   * interpolation for mode 1, a throw for any other mode. Only the nearest
   * lookup can read past the data, and values stay in [0, 1] when the data
   * does.
   */
  function Interpolate(g: Grid, x: real, y: real, z: real, interpolationMode: int): (r: Probe)
    requires GridValid(g)
    ensures r == Threw <==> interpolationMode != 0 && interpolationMode != 1
    ensures r == OutOfBounds ==> interpolationMode == 0
    ensures r.Value? && VolumeSampling.AllWithin(g.values, 0.0, 1.0) ==> 0.0 <= r.v <= 1.0
  {
    if interpolationMode == 0 then
      var c := VolumeSampling.Closest(g.values, g.width, g.height, g.depth, x, y, z);
      if c.Some? then
        assert c.value in g.values;
        Value(c.value)
      else OutOfBounds
    else if interpolationMode == 1 then
      if VolumeSampling.AllWithin(g.values, 0.0, 1.0) then
        VolumeSampling.TrilinearBounded(g.values, g.width, g.height, g.depth, x, y, z, 0.0, 1.0);
        Value(VolumeSampling.Trilinear(g.values, g.width, g.height, g.depth, x, y, z))
      else Value(VolumeSampling.Trilinear(g.values, g.width, g.height, g.depth, x, y, z))
    else Threw
  }

  /** From -0.5 upward on every axis the nearest lookup never reads past the data. */
  lemma NearestStaysInData(g: Grid, x: real, y: real, z: real)
    requires GridValid(g) && -0.5 <= x && -0.5 <= y && -0.5 <= z
    ensures Interpolate(g, x, y, z, 0).Value?
  {
    VolumeSampling.ClosestInGrid(g.values, g.width, g.height, g.depth, x, y, z);
  }

  /** The value read at ray position p, scaled into voxel coordinates. */
  function ProbeAt(g: Grid, p: Vec3, scaling: real, interpolationMode: int): Probe
    requires GridValid(g)
  {
    Interpolate(g, p.x * scaling, p.y * scaling, p.z * scaling, interpolationMode)
  }

  /** The values read at the first n positions marching forward from p0. */
  function ProbesAlong(g: Grid, p0: Vec3, delta: Vec3, scaling: real, interpolationMode: int, n: nat): (ps: seq<Probe>)
    requires GridValid(g)
    ensures |ps| == n
    ensures forall j :: 0 <= j < n ==> ps[j] == ProbeAt(g, MarchFrom(p0, delta, true, j), scaling, interpolationMode)
    ensures VolumeSampling.AllWithin(g.values, 0.0, 1.0) ==> ValuesInUnit(ps)
  {
    if n == 0 then []
    else
      ProbesAlong(g, p0, delta, scaling, interpolationMode, n - 1)
      + [ProbeAt(g, MarchFrom(p0, delta, true, n - 1), scaling, interpolationMode)]
  }

  /** The colour of the table entry the transfer function looks up for v. */
  function TableColor(table: seq<CppTransferFunctions.Sample>, v: real): Vec3
    requires 1 <= |table| && 0.0 <= v <= 1.0
  {
    var e := table[CppTransferFunctions.TupleFor(v, |table|)];
    Vec3(e.r, e.g, e.b)
  }

  /** The opacity of the table entry the transfer function looks up for v. */
  function TableAlpha(table: seq<CppTransferFunctions.Sample>, v: real): real
    requires 1 <= |table| && 0.0 <= v <= 1.0
  {
    table[CppTransferFunctions.TupleFor(v, |table|)].alpha
  }

  /** The transfer function's colour for v, which it asserts lies in [0, 1]. */
  function ColorPixel(table: seq<CppTransferFunctions.Sample>, v: real): (r: Pixel)
    requires 1 <= |table|
    ensures r == AssertionFailed <==> !(0.0 <= v <= 1.0)
    ensures r.Rgb? && CppTransferFunctions.AllColorsInUnit(table) ==> ColorInUnit(r.color)
  {
    if 0.0 <= v <= 1.0 then Rgb(TableColor(table, v)) else AssertionFailed
  }

  /**
   * First hit: the colour of the first value above the hit threshold
   * (`firstHitValue` hundredths), or of the last value read; Phong shading
   * replaces it when selected.
   */
  function FirstHitPixel(table: seq<CppTransferFunctions.Sample>, settings: Settings, ps: seq<Probe>): Pixel
    requires 1 <= |table|
  {
    var r := FirstHitFrom(ps, settings.firstHitValue as real / 100.0, 0, 0.0);
    if !r.Value? then FailurePixel(r)
    else if settings.shadingMode == 1 then Shaded
    else ColorPixel(table, r.v)
  }

  /** The first-hit colour once the loop's outcome r is known. */
  lemma FirstHitPixelIs(table: seq<CppTransferFunctions.Sample>, settings: Settings, ps: seq<Probe>, r: Probe)
    requires 1 <= |table| && FirstHitFrom(ps, settings.firstHitValue as real / 100.0, 0, 0.0) == r
    ensures FirstHitPixel(table, settings, ps) ==
      if !r.Value? then FailurePixel(r) else if settings.shadingMode == 1 then Shaded else ColorPixel(table, r.v)
  {
  }

  /** M.I.P.: the colour of the largest value read, 0 at least. */
  function MipPixel(table: seq<CppTransferFunctions.Sample>, ps: seq<Probe>): Pixel
    requires 1 <= |table|
  {
    var r := MaxFrom(ps, 0, 0.0);
    if !r.Value? then FailurePixel(r) else ColorPixel(table, r.v)
  }

  /** Average intensity: the colour of the mean value read. */
  function AveragePixel(table: seq<CppTransferFunctions.Sample>, ps: seq<Probe>): Pixel
    requires 1 <= |table|
  {
    var r := AverageIntensity(ps);
    if !r.Value? then FailurePixel(r) else ColorPixel(table, r.v)
  }

  /**
   * The gradient magnitude at voxel position q: the nearest-below lookup
   * for mode 0, trilinear for mode 1, and `None` (an uninitialised
   * variable in the program) for any other mode.
   */
  function MagnitudeAt(g: Grid, q: Vec3, gradientInterpolationMode: int): Option<real>
    requires GridValid(g)
  {
    if gradientInterpolationMode == 0 then
      Some(VolumeSampling.NearestBelow(g.magnitudes, g.width, g.height, g.depth, q.x, q.y, q.z))
    else if gradientInterpolationMode == 1 then
      Some(VolumeSampling.Trilinear(g.magnitudes, g.width, g.height, g.depth, q.x, q.y, q.z))
    else None
  }

  /** Every stored gradient magnitude is non-negative, as the length of a gradient is. */
  predicate MagnitudesNonNegative(g: Grid)
  {
    forall i :: 0 <= i < |g.magnitudes| ==> 0.0 <= g.magnitudes[i]
  }

  /** Non-negative stored magnitudes give a non-negative magnitude at every position, in both lookup modes. */
  lemma MagnitudeAtNonNegative(g: Grid, q: Vec3, gradientInterpolationMode: int)
    requires GridValid(g) && MagnitudesNonNegative(g)
    ensures var m := MagnitudeAt(g, q, gradientInterpolationMode); m.Some? ==> 0.0 <= m.value
  {
    VolumeSampling.SamplesNonNegative(g.magnitudes, g.width, g.height, g.depth, q.x, q.y, q.z);
  }

  /** The attenuation maps every non-negative magnitude into [0, 1]. */
  ghost predicate AttenuationInUnit(attenuation: real -> real)
  {
    forall m :: 0.0 <= m ==> 0.0 <= attenuation(m) <= 1.0
  }

  /**
   * The program's attenuation m ↦ 1 - 1 / ln(e + m) meets that hypothesis:
   * for m at least 0, ln(e + m) is at least ln(e) = 1. `ln` is any function
   * rising from e on with ln(e) = 1.
   */
  lemma ProgramAttenuationInUnit(ln: real -> real, e: real, attenuation: real -> real)
    requires ln(e) == 1.0
    requires forall u, v :: e <= u <= v ==> ln(u) <= ln(v)
    requires forall m :: 0.0 <= m && ln(e + m) != 0.0 ==> attenuation(m) == 1.0 - 1.0 / ln(e + m)
    ensures AttenuationInUnit(attenuation)
  {
    forall m | 0.0 <= m
      ensures 0.0 <= attenuation(m) <= 1.0
    {
      assert ln(e) <= ln(e + m);
      var l := ln(e + m);
      assert 0.0 < 1.0 / l <= 1.0;
    }
  }

  /**
   * One D.V.R. sample from the value read and the gradient magnitude at
   * its position: the transfer function's colour and opacity for the
   * value, the opacity scaled by `attenuation` of the magnitude in the
   * gradient transfer-function mode. `attenuation` stands for
   * m ↦ 1 - 1 / ln(e + m).
   */
  function SampleStep(table: seq<CppTransferFunctions.Sample>, settings: Settings, probe: Probe,
                      magnitude: Option<real>, attenuation: real -> real): (r: Step)
    requires 1 <= |table|
    ensures r.Halt? ==> !r.pixel.Rgb?
  {
    if !probe.Value? then Halt(FailurePixel(probe))
    else if !(0.0 <= probe.v <= 1.0) then Halt(AssertionFailed)
    else if settings.shadingMode == 1 then Halt(Shaded)
    else if settings.transferFunctionMode != 1 then
      Contribution(TableColor(table, probe.v), TableAlpha(table, probe.v))
    else if magnitude.None? then Halt(Undefined)
    else Contribution(TableColor(table, probe.v), TableAlpha(table, probe.v) * attenuation(magnitude.value))
  }

  /** An opacity in [0, 1] scaled by the attenuation of a non-negative magnitude stays in [0, 1]. */
  lemma AttenuatedInUnit(alpha: real, attenuation: real -> real, m: real)
    requires 0.0 <= alpha <= 1.0 && 0.0 <= m
    requires AttenuationInUnit(attenuation)
    ensures 0.0 <= alpha * attenuation(m) <= 1.0
  {
    ProductInUnit(alpha, attenuation(m));
  }

  /** With table colours in the unit cube and attenuation in [0, 1], every contribution lies in the unit cube. */
  lemma SampleStepInUnit(table: seq<CppTransferFunctions.Sample>, settings: Settings, probe: Probe,
                         magnitude: Option<real>, attenuation: real -> real)
    requires 1 <= |table| && CppTransferFunctions.AllColorsInUnit(table)
    requires AttenuationInUnit(attenuation) && (magnitude.Some? ==> 0.0 <= magnitude.value)
    ensures var r := SampleStep(table, settings, probe, magnitude, attenuation);
      r.Contribution? ==> ColorInUnit(r.color) && 0.0 <= r.alpha <= 1.0
  {
    var r := SampleStep(table, settings, probe, magnitude, attenuation);
    if r.Contribution? {
      var k := CppTransferFunctions.TupleFor(probe.v, |table|);
      var e := table[k];
      assert CppTransferFunctions.ColorsInUnit(e);
      assert r.color == Vec3(e.r, e.g, e.b);
      if settings.transferFunctionMode == 1 {
        AttenuatedInUnit(e.alpha, attenuation, magnitude.value);
        assert r.alpha == e.alpha * attenuation(magnitude.value);
      } else {
        assert r.alpha == e.alpha;
      }
    }
  }

  /**
   * The D.V.R. samples at the first n positions marching backward from p0:
   * at each, the value read and the gradient magnitude at the position in
   * voxel coordinates.
   */
  function StepsAlong(g: Grid, table: seq<CppTransferFunctions.Sample>, settings: Settings, p0: Vec3, delta: Vec3,
                      scaling: real, interpolationMode: int, attenuation: real -> real, n: nat): (steps: seq<Step>)
    requires GridValid(g) && 1 <= |table|
    ensures |steps| == n
    ensures forall j :: 0 <= j < n ==>
      var p := MarchFrom(p0, delta, false, j);
      steps[j] == SampleStep(table, settings, ProbeAt(g, p, scaling, interpolationMode),
        MagnitudeAt(g, Scale(p, scaling), settings.gradientInterpolationMode), attenuation)
  {
    if n == 0 then []
    else
      var p := MarchFrom(p0, delta, false, n - 1);
      StepsAlong(g, table, settings, p0, delta, scaling, interpolationMode, attenuation, n - 1)
      + [SampleStep(table, settings, ProbeAt(g, p, scaling, interpolationMode),
          MagnitudeAt(g, Scale(p, scaling), settings.gradientInterpolationMode), attenuation)]
  }

  /** With table colours in the unit cube and attenuation in [0, 1], so is every sample along the ray. */
  lemma StepsInUnit(g: Grid, table: seq<CppTransferFunctions.Sample>, settings: Settings, p0: Vec3, delta: Vec3,
                    scaling: real, interpolationMode: int, attenuation: real -> real, n: nat)
    requires GridValid(g) && 1 <= |table| && CppTransferFunctions.AllColorsInUnit(table)
    requires MagnitudesNonNegative(g) && AttenuationInUnit(attenuation)
    ensures ContributionsInUnit(StepsAlong(g, table, settings, p0, delta, scaling, interpolationMode, attenuation, n))
  {
    var steps := StepsAlong(g, table, settings, p0, delta, scaling, interpolationMode, attenuation, n);
    forall j | 0 <= j < n
      ensures if steps[j].Contribution? then ColorInUnit(steps[j].color) && 0.0 <= steps[j].alpha <= 1.0
              else !steps[j].pixel.Rgb?
    {
      var p := MarchFrom(p0, delta, false, j);
      MagnitudeAtNonNegative(g, Scale(p, scaling), settings.gradientInterpolationMode);
      SampleStepInUnit(table, settings, ProbeAt(g, p, scaling, interpolationMode),
        MagnitudeAt(g, Scale(p, scaling), settings.gradientInterpolationMode), attenuation);
    }
  }

  /** The chosen rendering mode on n steps from the entry point (or, for D.V.R., back from the exit point). */
  function RenderAlong(g: Grid, table: seq<CppTransferFunctions.Sample>, settings: Settings, entry: Vec3, exit: Vec3,
                       delta: Vec3, scaling: real, renderingMode: int, interpolationMode: int,
                       attenuation: real -> real, n: nat): Pixel
    requires GridValid(g) && 1 <= |table|
  {
    if renderingMode == 0 then FirstHitPixel(table, settings, ProbesAlong(g, entry, delta, scaling, interpolationMode, n))
    else if renderingMode == 1 then MipPixel(table, ProbesAlong(g, entry, delta, scaling, interpolationMode, n))
    else if renderingMode == 2 then AveragePixel(table, ProbesAlong(g, entry, delta, scaling, interpolationMode, n))
    else if renderingMode == 3 then
      CompositeFrom(StepsAlong(g, table, settings, exit, delta, scaling, interpolationMode, attenuation, n), 0,
        Vec3(0.0, 0.0, 0.0))
    else Undefined
  }

  /**
   * With table colours in the unit cube and attenuation in [0, 1], every
   * colour a mode returns lies in the unit cube.
   */
  lemma RenderAlongInUnit(g: Grid, table: seq<CppTransferFunctions.Sample>, settings: Settings, entry: Vec3, exit: Vec3,
                          delta: Vec3, scaling: real, renderingMode: int, interpolationMode: int,
                          attenuation: real -> real, n: nat)
    requires GridValid(g) && 1 <= |table| && CppTransferFunctions.AllColorsInUnit(table)
    requires MagnitudesNonNegative(g) && AttenuationInUnit(attenuation)
    ensures var p := RenderAlong(g, table, settings, entry, exit, delta, scaling, renderingMode, interpolationMode,
      attenuation, n);
      p.Rgb? ==> ColorInUnit(p.color)
  {
    if renderingMode == 3 {
      StepsInUnit(g, table, settings, exit, delta, scaling, interpolationMode, attenuation, n);
      CompositeInUnit(StepsAlong(g, table, settings, exit, delta, scaling, interpolationMode, attenuation, n), 0,
        Vec3(0.0, 0.0, 0.0));
    }
  }

  /** First hit on values in [0, 1] never trips the transfer function's assertion. */
  lemma FirstHitNeverAsserts(table: seq<CppTransferFunctions.Sample>, settings: Settings, ps: seq<Probe>)
    requires 1 <= |table| && ValuesInUnit(ps)
    ensures FirstHitPixel(table, settings, ps) != AssertionFailed
  {
    FirstHitInUnit(ps, settings.firstHitValue as real / 100.0, 0, 0.0);
  }

  /** M.I.P. on values in [0, 1] never trips the transfer function's assertion. */
  lemma MipNeverAsserts(table: seq<CppTransferFunctions.Sample>, ps: seq<Probe>)
    requires 1 <= |table| && ValuesInUnit(ps)
    ensures MipPixel(table, ps) != AssertionFailed
  {
    MaxFromMeaning(ps, 0, 0.0);
  }

  /** Average intensity on values in [0, 1] never trips the transfer function's assertion. */
  lemma AverageNeverAsserts(table: seq<CppTransferFunctions.Sample>, ps: seq<Probe>)
    requires 1 <= |table| && ValuesInUnit(ps)
    ensures AveragePixel(table, ps) != AssertionFailed
  {
    AverageInUnit(ps);
  }

  /** On voxel data within [0, 1] no D.V.R. sample halts on the transfer function's assertion. */
  lemma StepsNeverAssert(g: Grid, table: seq<CppTransferFunctions.Sample>, settings: Settings, p0: Vec3, delta: Vec3,
                         scaling: real, interpolationMode: int, attenuation: real -> real, n: nat)
    requires GridValid(g) && 1 <= |table| && VolumeSampling.AllWithin(g.values, 0.0, 1.0)
    ensures var steps := StepsAlong(g, table, settings, p0, delta, scaling, interpolationMode, attenuation, n);
      forall j :: 0 <= j < n ==> steps[j] != Halt(AssertionFailed)
  {
    var steps := StepsAlong(g, table, settings, p0, delta, scaling, interpolationMode, attenuation, n);
    forall j | 0 <= j < n
      ensures steps[j] != Halt(AssertionFailed)
    {
      var probe := ProbeAt(g, MarchFrom(p0, delta, false, j), scaling, interpolationMode);
    }
  }

  /** Voxel data within [0, 1] never trips the transfer function's assertion, in any mode. */
  lemma RenderAlongNeverAsserts(g: Grid, table: seq<CppTransferFunctions.Sample>, settings: Settings, entry: Vec3,
                                exit: Vec3, delta: Vec3, scaling: real, renderingMode: int, interpolationMode: int,
                                attenuation: real -> real, n: nat)
    requires GridValid(g) && 1 <= |table| && VolumeSampling.AllWithin(g.values, 0.0, 1.0)
    ensures RenderAlong(g, table, settings, entry, exit, delta, scaling, renderingMode, interpolationMode,
      attenuation, n) != AssertionFailed
  {
    var ps := ProbesAlong(g, entry, delta, scaling, interpolationMode, n);
    if renderingMode == 0 {
      FirstHitNeverAsserts(table, settings, ps);
    } else if renderingMode == 1 {
      MipNeverAsserts(table, ps);
    } else if renderingMode == 2 {
      AverageNeverAsserts(table, ps);
    } else if renderingMode == 3 {
      var steps := StepsAlong(g, table, settings, exit, delta, scaling, interpolationMode, attenuation, n);
      StepsNeverAssert(g, table, settings, exit, delta, scaling, interpolationMode, attenuation, n);
      CompositeOutcome(steps, 0, Vec3(0.0, 0.0, 0.0));
    }
  }

  /**
   * The first-hit loop of `castRay`: read forward from `start` while the
   * last value is at most the threshold and the next step fits the ray.
   */
  method FirstHitMarch(g: Grid, table: seq<CppTransferFunctions.Sample>, settings: Settings, start: Vec3, delta: Vec3,
                       scaling: real, interpolationMode: int, rayLength: real, stepSize: real)
    returns (p: Pixel)
    requires GridValid(g) && 1 <= |table| && 0.0 < stepSize
    ensures p == FirstHitPixel(table, settings,
      ProbesAlong(g, start, delta, scaling, interpolationMode, StepCount(rayLength, stepSize)))
  {
    ghost var ps := ProbesAlong(g, start, delta, scaling, interpolationMode, StepCount(rayLength, stepSize));
    var threshold := settings.firstHitValue as real / 100.0;
    var firstHitValue := 0.0;
    var rayPosition := start;
    var increment := 0;
    while firstHitValue <= threshold && increment as real * stepSize < rayLength
      invariant 0 <= increment <= |ps|
      invariant rayPosition == MarchFrom(start, delta, true, increment)
      invariant FirstHitFrom(ps, threshold, 0, 0.0) == FirstHitFrom(ps, threshold, increment, firstHitValue)
      decreases |ps| - increment
    {
      StepCountMeaning(rayLength, stepSize, increment);
      var voxelValue := ProbeAt(g, rayPosition, scaling, interpolationMode);
      assert voxelValue == ps[increment];
      FirstHitStep(ps, threshold, increment, firstHitValue);
      if !voxelValue.Value? {
        FirstHitPixelIs(table, settings, ps, voxelValue);
        return FailurePixel(voxelValue);
      }
      firstHitValue := voxelValue.v;
      rayPosition := Add(rayPosition, delta);
      increment := increment + 1;
    }
    StepCountMeaning(rayLength, stepSize, increment);
    assert FirstHitFrom(ps, threshold, increment, firstHitValue) == Value(firstHitValue);
    FirstHitPixelIs(table, settings, ps, Value(firstHitValue));
    if settings.shadingMode == 1 {
      return Shaded;
    }
    if 0.0 <= firstHitValue <= 1.0 {
      p := Rgb(TableColor(table, firstHitValue));
    } else {
      p := AssertionFailed;
    }
  }

  /** The M.I.P. loop of `castRay`: the largest value read forward from `start`. */
  method MipMarch(g: Grid, table: seq<CppTransferFunctions.Sample>, start: Vec3, delta: Vec3, scaling: real,
                  interpolationMode: int, rayLength: real, stepSize: real)
    returns (p: Pixel)
    requires GridValid(g) && 1 <= |table| && 0.0 < stepSize
    ensures p == MipPixel(table, ProbesAlong(g, start, delta, scaling, interpolationMode, StepCount(rayLength, stepSize)))
  {
    ghost var ps := ProbesAlong(g, start, delta, scaling, interpolationMode, StepCount(rayLength, stepSize));
    var maxValue := 0.0;
    var rayPosition := start;
    var increment := 0;
    while increment as real * stepSize < rayLength
      invariant 0 <= increment <= |ps|
      invariant rayPosition == MarchFrom(start, delta, true, increment)
      invariant MaxFrom(ps, 0, 0.0) == MaxFrom(ps, increment, maxValue)
      decreases |ps| - increment
    {
      StepCountMeaning(rayLength, stepSize, increment);
      var voxelValue := ProbeAt(g, rayPosition, scaling, interpolationMode);
      if !voxelValue.Value? {
        return FailurePixel(voxelValue);
      }
      if voxelValue.v > maxValue {
        maxValue := voxelValue.v;
      }
      rayPosition := Add(rayPosition, delta);
      increment := increment + 1;
    }
    StepCountMeaning(rayLength, stepSize, increment);
    if 0.0 <= maxValue <= 1.0 {
      p := Rgb(TableColor(table, maxValue));
    } else {
      p := AssertionFailed;
    }
  }

  /** The average-intensity loop of `castRay`: the mean of the values read forward from `start`. */
  method AverageMarch(g: Grid, table: seq<CppTransferFunctions.Sample>, start: Vec3, delta: Vec3, scaling: real,
                      interpolationMode: int, rayLength: real, stepSize: real)
    returns (p: Pixel)
    requires GridValid(g) && 1 <= |table| && 0.0 < stepSize
    ensures p == AveragePixel(table,
      ProbesAlong(g, start, delta, scaling, interpolationMode, StepCount(rayLength, stepSize)))
  {
    ghost var ps := ProbesAlong(g, start, delta, scaling, interpolationMode, StepCount(rayLength, stepSize));
    var sumOfIntensityValues := 0.0;
    var numberOfSamples := 0;
    var rayPosition := start;
    var increment := 0;
    while increment as real * stepSize < rayLength
      invariant 0 <= increment <= |ps| && numberOfSamples == increment
      invariant rayPosition == MarchFrom(start, delta, true, increment)
      invariant SumFrom(ps, 0, 0.0) == SumFrom(ps, increment, sumOfIntensityValues)
      decreases |ps| - increment
    {
      StepCountMeaning(rayLength, stepSize, increment);
      var voxelValue := ProbeAt(g, rayPosition, scaling, interpolationMode);
      if !voxelValue.Value? {
        return FailurePixel(voxelValue);
      }
      sumOfIntensityValues := sumOfIntensityValues + voxelValue.v;
      numberOfSamples := numberOfSamples + 1;
      rayPosition := Add(rayPosition, delta);
      increment := increment + 1;
    }
    StepCountMeaning(rayLength, stepSize, increment);
    var luminosity := 0.0;
    if numberOfSamples != 0 {
      luminosity := sumOfIntensityValues / numberOfSamples as real;
    }
    if 0.0 <= luminosity <= 1.0 {
      p := Rgb(TableColor(table, luminosity));
    } else {
      p := AssertionFailed;
    }
  }

  /**
   * The body of the D.V.R. loop up to compositing: read the value at the
   * ray position, look up its colour and opacity, and in the gradient
   * transfer-function mode scale the opacity by the attenuation of the
   * gradient magnitude there.
   */
  method ShadeSample(g: Grid, table: seq<CppTransferFunctions.Sample>, settings: Settings, rayPosition: Vec3,
                     scaling: real, interpolationMode: int, attenuation: real -> real)
    returns (step: Step)
    requires GridValid(g) && 1 <= |table|
    ensures step == SampleStep(table, settings, ProbeAt(g, rayPosition, scaling, interpolationMode),
      MagnitudeAt(g, Scale(rayPosition, scaling), settings.gradientInterpolationMode), attenuation)
  {
    var q := Scale(rayPosition, scaling);
    var voxelValue := ProbeAt(g, rayPosition, scaling, interpolationMode);
    if !voxelValue.Value? {
      return Halt(FailurePixel(voxelValue));
    }
    if !(0.0 <= voxelValue.v <= 1.0) {
      return Halt(AssertionFailed);
    }
    var c := TableColor(table, voxelValue.v);
    var alpha := TableAlpha(table, voxelValue.v);
    if settings.shadingMode == 1 {
      return Halt(Shaded);
    }
    if settings.transferFunctionMode == 1 {
      var magnitude := MagnitudeAt(g, q, settings.gradientInterpolationMode);
      if magnitude.None? {
        return Halt(Undefined);
      }
      alpha := alpha * attenuation(magnitude.value);
    }
    step := Contribution(c, alpha);
  }

  /**
   * The D.V.R. loop of `castRay`: back to front from the exit point
   * `start`, compositing each sample over the colour so far.
   */
  method DvrMarch(g: Grid, table: seq<CppTransferFunctions.Sample>, settings: Settings, start: Vec3, delta: Vec3,
                  scaling: real, interpolationMode: int, rayLength: real, stepSize: real, attenuation: real -> real)
    returns (p: Pixel)
    requires GridValid(g) && 1 <= |table| && 0.0 < stepSize
    ensures p == CompositeFrom(StepsAlong(g, table, settings, start, delta, scaling, interpolationMode, attenuation,
      StepCount(rayLength, stepSize)), 0, Vec3(0.0, 0.0, 0.0))
  {
    ghost var steps := StepsAlong(g, table, settings, start, delta, scaling, interpolationMode, attenuation,
      StepCount(rayLength, stepSize));
    var color := Vec3(0.0, 0.0, 0.0);
    var rayPosition := start;
    var increment := 0;
    while increment as real * stepSize < rayLength
      invariant 0 <= increment <= |steps|
      invariant rayPosition == MarchFrom(start, delta, false, increment)
      invariant CompositeFrom(steps, 0, Vec3(0.0, 0.0, 0.0)) == CompositeFrom(steps, increment, color)
      decreases |steps| - increment
    {
      StepCountMeaning(rayLength, stepSize, increment);
      var step := ShadeSample(g, table, settings, rayPosition, scaling, interpolationMode, attenuation);
      assert step == steps[increment];
      CompositeStep(steps, increment, color);
      if step.Halt? {
        return step.pixel;
      }
      color := Over(step.color, step.alpha, color);
      rayPosition := Sub(rayPosition, delta);
      increment := increment + 1;
    }
    StepCountMeaning(rayLength, stepSize, increment);
    p := Rgb(color);
  }

  /**
   * The chosen mode along the part of a parallel ray from `start` along
   * `direction` that `span` selects: from the entry point (or, for D.V.R.,
   * back from the exit point), once per step that fits the distance
   * between them less the jitter (`jitter` stands for rand() / RAND_MAX,
   * `sqrt` for the square root).
   */
  function AlongSpan(g: Grid, table: seq<CppTransferFunctions.Sample>, settings: Settings, start: Vec3,
                     direction: Vec3, span: Span, scaling: real, stepSize: real, renderingMode: int,
                     interpolationMode: int, sqrt: real -> real, jitter: real, attenuation: real -> real): Pixel
    requires GridValid(g) && 1 <= |table| && 0.0 < stepSize
  {
    var entry := Viewports.PointAt(start, direction, span.near);
    var exit := Viewports.PointAt(start, direction, span.far);
    var n := StepCount(Magnitude(Sub(entry, exit), sqrt) - jitter * stepSize, stepSize);
    RenderAlong(g, table, settings, entry, exit, Scale(direction, stepSize), scaling, renderingMode,
      interpolationMode, attenuation, n)
  }

  /** The chosen mode run between the span's entry and exit points is the colour along the span. */
  lemma AlongSpanIs(g: Grid, table: seq<CppTransferFunctions.Sample>, settings: Settings, start: Vec3,
                    direction: Vec3, span: Span, scaling: real, stepSize: real, renderingMode: int,
                    interpolationMode: int, sqrt: real -> real, jitter: real, attenuation: real -> real, p: Pixel)
    requires GridValid(g) && 1 <= |table| && 0.0 < stepSize
    requires var entry := Viewports.PointAt(start, direction, span.near);
      var exit := Viewports.PointAt(start, direction, span.far);
      p == RenderAlong(g, table, settings, entry, exit, Scale(direction, stepSize), scaling, renderingMode,
        interpolationMode, attenuation, StepCount(Magnitude(Sub(entry, exit), sqrt) - jitter * stepSize, stepSize))
    ensures p == AlongSpan(g, table, settings, start, direction, span, scaling, stepSize, renderingMode,
      interpolationMode, sqrt, jitter, attenuation)
  {
  }

  /** The colour of a parallel ray through the box [0, box]: grey on a miss, else the chosen mode along its span. */
  function RayPixel(g: Grid, table: seq<CppTransferFunctions.Sample>, settings: Settings, start: Vec3, direction: Vec3,
                    box: Vec3, scaling: real, stepSize: real, renderingMode: int, interpolationMode: int,
                    sqrt: real -> real, jitter: real, attenuation: real -> real): Pixel
    requires GridValid(g) && 1 <= |table| && 0.0 < stepSize
  {
    var span := BoxClip(direction, start, box);
    if span.None? then Rgb(MissColor)
    else AlongSpan(g, table, settings, start, direction, span.value, scaling, stepSize, renderingMode,
      interpolationMode, sqrt, jitter, attenuation)
  }

  /** The chosen mode's loop of `castRay` over a ray of length `rayLength` from `entry` to `exit`. */
  method RenderSpan(g: Grid, table: seq<CppTransferFunctions.Sample>, settings: Settings, entry: Vec3, exit: Vec3,
                    delta: Vec3, scaling: real, renderingMode: int, interpolationMode: int, rayLength: real,
                    stepSize: real, attenuation: real -> real)
    returns (p: Pixel)
    requires GridValid(g) && 1 <= |table| && 0.0 < stepSize
    ensures p == RenderAlong(g, table, settings, entry, exit, delta, scaling, renderingMode, interpolationMode,
      attenuation, StepCount(rayLength, stepSize))
  {
    if renderingMode == 0 {
      p := FirstHitMarch(g, table, settings, entry, delta, scaling, interpolationMode, rayLength, stepSize);
    } else if renderingMode == 1 {
      p := MipMarch(g, table, entry, delta, scaling, interpolationMode, rayLength, stepSize);
    } else if renderingMode == 2 {
      p := AverageMarch(g, table, entry, delta, scaling, interpolationMode, rayLength, stepSize);
    } else if renderingMode == 3 {
      p := DvrMarch(g, table, settings, exit, delta, scaling, interpolationMode, rayLength, stepSize, attenuation);
    } else {
      p := Undefined;
    }
  }

  /**
   * The part of `castRay` after the starting position: clip the ray to
   * the box, then run the chosen mode's loop over the ray length less the
   * jitter.
   */
  method TraceRay(g: Grid, table: seq<CppTransferFunctions.Sample>, settings: Settings, start: Vec3, direction: Vec3,
                  box: Vec3, scaling: real, stepSize: real, renderingMode: int, interpolationMode: int,
                  sqrt: real -> real, jitter: real, attenuation: real -> real)
    returns (p: Pixel)
    requires GridValid(g) && 1 <= |table| && 0.0 < stepSize
    ensures p == RayPixel(g, table, settings, start, direction, box, scaling, stepSize, renderingMode,
      interpolationMode, sqrt, jitter, attenuation)
  {
    var hit, entry, exit := FindBoxIntersectionPoints(direction, start, Vec3(0.0, 0.0, 0.0), Vec3(0.0, 0.0, 0.0),
      box.x, box.y, box.z);
    assert Vec3(box.x, box.y, box.z) == box;
    if !hit {
      return Rgb(MissColor);
    }
    var rayLength := Magnitude(Sub(entry, exit), sqrt);
    rayLength := rayLength - jitter * stepSize;
    var delta := Scale(direction, stepSize);
    p := RenderSpan(g, table, settings, entry, exit, delta, scaling, renderingMode, interpolationMode, rayLength,
      stepSize, attenuation);
    AlongSpanIs(g, table, settings, start, direction, BoxClip(direction, start, box).value, scaling, stepSize,
      renderingMode, interpolationMode, sqrt, jitter, attenuation, p);
  }

  /** Every colour along a span lies in the unit cube when the table's colours do and attenuation stays in [0, 1]. */
  lemma AlongSpanInUnit(g: Grid, table: seq<CppTransferFunctions.Sample>, settings: Settings, start: Vec3,
                        direction: Vec3, span: Span, scaling: real, stepSize: real, renderingMode: int,
                        interpolationMode: int, sqrt: real -> real, jitter: real, attenuation: real -> real)
    requires GridValid(g) && 1 <= |table| && 0.0 < stepSize && CppTransferFunctions.AllColorsInUnit(table)
    requires MagnitudesNonNegative(g) && AttenuationInUnit(attenuation)
    ensures var p := AlongSpan(g, table, settings, start, direction, span, scaling, stepSize, renderingMode,
      interpolationMode, sqrt, jitter, attenuation);
      p.Rgb? ==> ColorInUnit(p.color)
  {
    var entry := Viewports.PointAt(start, direction, span.near);
    var exit := Viewports.PointAt(start, direction, span.far);
    var n := StepCount(Magnitude(Sub(entry, exit), sqrt) - jitter * stepSize, stepSize);
    RenderAlongInUnit(g, table, settings, entry, exit, Scale(direction, stepSize), scaling, renderingMode,
      interpolationMode, attenuation, n);
  }

  /** Every colour a ray returns lies in the unit cube when the table's colours do and attenuation stays in [0, 1]. */
  lemma RayPixelInUnit(g: Grid, table: seq<CppTransferFunctions.Sample>, settings: Settings, start: Vec3,
                       direction: Vec3, box: Vec3, scaling: real, stepSize: real, renderingMode: int,
                       interpolationMode: int, sqrt: real -> real, jitter: real, attenuation: real -> real)
    requires GridValid(g) && 1 <= |table| && 0.0 < stepSize && CppTransferFunctions.AllColorsInUnit(table)
    requires MagnitudesNonNegative(g) && AttenuationInUnit(attenuation)
    ensures var p := RayPixel(g, table, settings, start, direction, box, scaling, stepSize, renderingMode,
      interpolationMode, sqrt, jitter, attenuation);
      p.Rgb? ==> ColorInUnit(p.color)
  {
    var span := BoxClip(direction, start, box);
    if span.Some? {
      AlongSpanInUnit(g, table, settings, start, direction, span.value, scaling, stepSize, renderingMode,
        interpolationMode, sqrt, jitter, attenuation);
    }
  }

  /** Voxel data within [0, 1] never trips the transfer function's assertion along a span. */
  lemma AlongSpanNeverAsserts(g: Grid, table: seq<CppTransferFunctions.Sample>, settings: Settings, start: Vec3,
                              direction: Vec3, span: Span, scaling: real, stepSize: real, renderingMode: int,
                              interpolationMode: int, sqrt: real -> real, jitter: real, attenuation: real -> real)
    requires GridValid(g) && 1 <= |table| && 0.0 < stepSize && VolumeSampling.AllWithin(g.values, 0.0, 1.0)
    ensures AlongSpan(g, table, settings, start, direction, span, scaling, stepSize, renderingMode, interpolationMode,
      sqrt, jitter, attenuation) != AssertionFailed
  {
    var entry := Viewports.PointAt(start, direction, span.near);
    var exit := Viewports.PointAt(start, direction, span.far);
    var n := StepCount(Magnitude(Sub(entry, exit), sqrt) - jitter * stepSize, stepSize);
    RenderAlongNeverAsserts(g, table, settings, entry, exit, Scale(direction, stepSize), scaling, renderingMode,
      interpolationMode, attenuation, n);
  }

  /** A volume whose values lie in [0, 1] never trips the transfer function's assertion on any ray. */
  lemma RayPixelNeverAsserts(g: Grid, table: seq<CppTransferFunctions.Sample>, settings: Settings, start: Vec3,
                             direction: Vec3, box: Vec3, scaling: real, stepSize: real, renderingMode: int,
                             interpolationMode: int, sqrt: real -> real, jitter: real, attenuation: real -> real)
    requires GridValid(g) && 1 <= |table| && 0.0 < stepSize && VolumeSampling.AllWithin(g.values, 0.0, 1.0)
    ensures RayPixel(g, table, settings, start, direction, box, scaling, stepSize, renderingMode, interpolationMode,
      sqrt, jitter, attenuation) != AssertionFailed
  {
    var span := BoxClip(direction, start, box);
    if span.Some? {
      AlongSpanNeverAsserts(g, table, settings, start, direction, span.value, scaling, stepSize, renderingMode,
        interpolationMode, sqrt, jitter, attenuation);
    }
  }

  // ---------------------------------------------------------------------
  // The widget
  // ---------------------------------------------------------------------

  /**
   * The volume-rendering widget: its settings, the volume and transfer
   * function it renders with, and the view plane (lower-left corner, up
   * and right vectors spanning the plane, and the projection direction).
   */
  class GLWidgetDvr {
    var volume: CppVolumes.Volume?
    var transferFunction: CppTransferFunctions.TransferFunction
    var stepSize: real
    var renderingResolutionX: int
    var renderingResolutionY: int
    var selectedRotationResolutionX: int
    var selectedRotationResolutionY: int
    var selectedRenderingResolutionX: int
    var selectedRenderingResolutionY: int
    var selectedRenderingMode: int
    var selectedProjectionMode: int
    var selectedInterpolationMode: int
    var selectedTransferFunctionMode: int
    var selectedShadingMode: int
    var selectedFirstHitValue: int
    var selectedGradientInterpolationMode: int
    var lowerLeft: Vec3
    var upVector: Vec3
    var rightVector: Vec3
    var projectionVector: Vec3

    /**
     * Rendering at 64 x 64 and rotating at 16 x 16, every mode 0, no
     * volume yet, and the transfer function of the widget's dialog; the
     * step size is left unset.
     */
    constructor (dialogTransferFunction: CppTransferFunctions.TransferFunction)
      ensures volume == null && transferFunction == dialogTransferFunction
      ensures renderingResolutionX == 64 && renderingResolutionY == 64
      ensures selectedRenderingResolutionX == 64 && selectedRenderingResolutionY == 64
      ensures selectedRotationResolutionX == 16 && selectedRotationResolutionY == 16
      ensures selectedRenderingMode == 0 && selectedProjectionMode == 0 && selectedInterpolationMode == 0
      ensures selectedTransferFunctionMode == 0 && selectedShadingMode == 0
      ensures selectedFirstHitValue == 0 && selectedGradientInterpolationMode == 0
    {
      volume := null;
      renderingResolutionX, renderingResolutionY := 64, 64;
      selectedRenderingResolutionX, selectedRenderingResolutionY := 64, 64;
      selectedRotationResolutionX, selectedRotationResolutionY := 16, 16;
      selectedRenderingMode, selectedProjectionMode, selectedInterpolationMode := 0, 0, 0;
      selectedTransferFunctionMode, selectedShadingMode := 0, 0;
      selectedFirstHitValue, selectedGradientInterpolationMode := 0, 0;
      transferFunction := dialogTransferFunction;
    }

    /**
     * `setRes`: menu entries 0 to 4 select 64, 128, 256, 512 or 1024 pixels
     * a side; any other entry keeps the selection. The rendering
     * resolution then follows the selection.
     */
    method SetRes(resolution: int)
      modifies this`selectedRenderingResolutionX, this`selectedRenderingResolutionY
      modifies this`renderingResolutionX, this`renderingResolutionY
      ensures 0 <= resolution <= 4 ==>
        selectedRenderingResolutionX == 64 * Pow2(resolution) && selectedRenderingResolutionY == 64 * Pow2(resolution)
      ensures !(0 <= resolution <= 4) ==>
        selectedRenderingResolutionX == old(selectedRenderingResolutionX)
        && selectedRenderingResolutionY == old(selectedRenderingResolutionY)
      ensures renderingResolutionX == selectedRenderingResolutionX && renderingResolutionY == selectedRenderingResolutionY
    {
      if resolution == 0 {
        selectedRenderingResolutionX, selectedRenderingResolutionY := 64, 64;
      } else if resolution == 1 {
        selectedRenderingResolutionX, selectedRenderingResolutionY := 128, 128;
      } else if resolution == 2 {
        selectedRenderingResolutionX, selectedRenderingResolutionY := 256, 256;
      } else if resolution == 3 {
        selectedRenderingResolutionX, selectedRenderingResolutionY := 512, 512;
      } else if resolution == 4 {
        selectedRenderingResolutionX, selectedRenderingResolutionY := 1024, 1024;
      }
      renderingResolutionX := selectedRenderingResolutionX;
      renderingResolutionY := selectedRenderingResolutionY;
    }

    /** `setStepSize`. */
    method SetStepSize(size: real)
      modifies this`stepSize
      ensures stepSize == size
    {
      stepSize := size;
    }

    /**
     * `setResRotating`: menu entries 0 to 3 select 16, 32, 64 or 128
     * pixels a side while rotating; any other entry keeps the selection.
     */
    method SetResRotating(resolution: int)
      modifies this`selectedRotationResolutionX, this`selectedRotationResolutionY
      ensures 0 <= resolution <= 3 ==>
        selectedRotationResolutionX == 16 * Pow2(resolution) && selectedRotationResolutionY == 16 * Pow2(resolution)
      ensures !(0 <= resolution <= 3) ==>
        selectedRotationResolutionX == old(selectedRotationResolutionX)
        && selectedRotationResolutionY == old(selectedRotationResolutionY)
    {
      if resolution == 0 {
        selectedRotationResolutionX, selectedRotationResolutionY := 16, 16;
      } else if resolution == 1 {
        selectedRotationResolutionX, selectedRotationResolutionY := 32, 32;
      } else if resolution == 2 {
        selectedRotationResolutionX, selectedRotationResolutionY := 64, 64;
      } else if resolution == 3 {
        selectedRotationResolutionX, selectedRotationResolutionY := 128, 128;
      }
    }

    /**
     * A volume of at least one voxel a side is set, the transfer function
     * has a table, both rendering resolutions are non-zero and the step
     * size is positive.
     */
    ghost predicate Ready()
      reads this, volume, transferFunction
    {
      && volume != null && volume.Valid()
      && 1 <= volume.width && 1 <= volume.height && 1 <= volume.depth
      && transferFunction.Valid()
      && renderingResolutionX != 0 && renderingResolutionY != 0
      && stepSize > 0.0
    }

    /** The volume's voxel values and gradient magnitudes. */
    function Snapshot(): (g: Grid)
      reads this, volume, volume.voxelData, volume.gradientMagnitudes, transferFunction
      requires Ready()
      ensures GridValid(g)
    {
      Grid(volume.voxelData[..], volume.gradientMagnitudes[..], volume.width, volume.height, volume.depth)
    }

    /**
     * Once the gradients have been computed with an exact square root, the
     * snapshot's magnitudes are non-negative, as the end-to-end colour
     * lemmas need.
     */
    lemma SnapshotMagnitudesNonNegative(sqrt: real -> real, calculationMethod: int)
      requires Ready() && IsSqrt(sqrt)
      requires CppVolumes.GradientsUpTo(volume.gradients[..], volume.gradientMagnitudes[..], volume.voxelData[..],
        volume.width, volume.height, volume.depth, calculationMethod, sqrt, volume.voxelNum)
      ensures MagnitudesNonNegative(Snapshot())
    {
      CppVolumes.GradientMagnitudesNonNegative(volume.gradients[..], volume.gradientMagnitudes[..],
        volume.voxelData[..], volume.width, volume.height, volume.depth, calculationMethod, sqrt);
    }

    function CurrentSettings(): Settings
      reads this
    {
      Settings(selectedFirstHitValue, selectedShadingMode, selectedTransferFunctionMode, selectedGradientInterpolationMode)
    }

    /** `interpolateVoxel` on the volume: `Interpolate` on its data. */
    function InterpolateVoxel(x: real, y: real, z: real, interpolationMode: int): (r: Probe)
      reads this, volume, volume.voxelData, volume.gradientMagnitudes, transferFunction
      requires Ready()
      ensures r == Interpolate(Snapshot(), x, y, z, interpolationMode)
    {
      if interpolationMode == 0 then
        var c := volume.GetVoxelClosest(x, y, z);
        if c.Some? then Value(c.value) else OutOfBounds
      else if interpolationMode == 1 then Value(volume.GetVoxelTrilinear(x, y, z))
      else Threw
    }

    /** The start of pixel (x, y)'s ray: the lower-left corner moved y/RESY along up and x/RESX along right. */
    function StartingPosition(x: int, y: int): Vec3
      reads this
      requires renderingResolutionX != 0 && renderingResolutionY != 0
    {
      Add(Add(lowerLeft, DivScalar(Scale(upVector, y as real), renderingResolutionY as real)),
        DivScalar(Scale(rightVector, x as real), renderingResolutionX as real))
    }

    /** The box the scaled volume fills: each side over the scaling factor. */
    function ScaledBox(): (b: Vec3)
      reads this, volume, transferFunction
      requires Ready()
      ensures 0.0 <= b.x && 0.0 <= b.y && 0.0 <= b.z
    {
      var s := volume.GetScalingFactor();
      Vec3(volume.width as real / s, volume.height as real / s, volume.depth as real / s)
    }

    /**
     * What `castRay` gives for pixel (x, y): nothing defined unless the
     * projection is parallel; otherwise the ray from the pixel's starting
     * position along the projection vector through the scaled volume.
     */
    ghost function RayColor(x: int, y: int, projectionMode: int, renderingMode: int, interpolationMode: int,
                            sqrt: real -> real, jitter: real, attenuation: real -> real): Pixel
      reads this, volume, volume.voxelData, volume.gradientMagnitudes, transferFunction
      requires Ready()
    {
      if projectionMode != 0 then Undefined
      else
        RayPixel(Snapshot(), transferFunction.discretizedSamples, CurrentSettings(), StartingPosition(x, y),
          projectionVector, ScaledBox(), volume.GetScalingFactor(), stepSize, renderingMode, interpolationMode, sqrt,
          jitter, attenuation)
    }

    /** `castRay` for pixel (x, y). */
    method CastRay(x: int, y: int, projectionMode: int, renderingMode: int, interpolationMode: int,
                   sqrt: real -> real, jitter: real, attenuation: real -> real)
      returns (p: Pixel)
      requires Ready()
      ensures p == RayColor(x, y, projectionMode, renderingMode, interpolationMode, sqrt, jitter, attenuation)
    {
      if projectionMode != 0 {
        // Only parallel projection is implemented; the function falls off its end.
        return Undefined;
      }
      var startingPosition := lowerLeft;
      startingPosition := Add(startingPosition, DivScalar(Scale(upVector, y as real), renderingResolutionY as real));
      startingPosition := Add(startingPosition, DivScalar(Scale(rightVector, x as real), renderingResolutionX as real));
      var scalingFactor := volume.GetScalingFactor();
      p := TraceRay(Snapshot(), transferFunction.discretizedSamples, CurrentSettings(), startingPosition,
        projectionVector, Vec3(volume.width as real / scalingFactor, volume.height as real / scalingFactor,
        volume.depth as real / scalingFactor), scalingFactor, stepSize, renderingMode, interpolationMode, sqrt, jitter,
        attenuation);
    }
  }
}
