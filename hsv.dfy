/**
 * HSV to RGB conversion (ColorHSVConverter.cs).
 *
 * Hue is in degrees, saturation and value in percent. The value is scaled to
 * 0..255 and four rounded intensities are derived from it: `v` itself, the
 * floor `p`, and the two ramps `q` (falling across a sector) and `t` (rising
 * across a sector). The 60-degree sector the hue falls into picks which of
 * them becomes red, green and blue. Rounding is .NET's `Convert.ToInt32`.
 */
module ColorHsv {
  import opened Numeric

  datatype Argb = Argb(alpha: int, red: int, green: int, blue: int)

  /** The four rounded intensities the sectors permute. */
  datatype Intensities = Intensities(v: int, p: int, q: int, t: int)

  /** `hi`: the sector index, C#'s `%` applied to the floored hue / 60. */
  function Sector(hue: real): (hi: int)
    ensures hue >= 0.0 ==> 0 <= hi < 6
    ensures -6 < hi < 6
  {
    TruncMod(RoundHalfEven(Floor(hue / 60.0) as real), 6)
  }

  /** `f`: how far into its sector the hue lies. */
  function Fraction(hue: real): (f: real)
    ensures 0.0 <= f < 1.0
    ensures Floor(hue / 60.0) as real + f == hue / 60.0
  {
    hue / 60.0 - Floor(hue / 60.0) as real
  }

  /** `value * (1 - w * saturation)`, with both scaled to fractions: the ramps before rounding. */
  function Ramp(scaled: real, s: real, w: real): real
  {
    scaled * (1.0 - w * s)
  }

  /** The intensities for a hue `f` of the way into its sector. */
  function HsvIntensities(f: real, saturation: real, value: real): Intensities
  {
    var s := saturation / 100.0;
    var scaled := value / 100.0 * 255.0;
    Intensities(RoundHalfEven(scaled),
                RoundHalfEven(Ramp(scaled, s, 1.0)),
                RoundHalfEven(Ramp(scaled, s, f)),
                RoundHalfEven(Ramp(scaled, s, 1.0 - f)))
  }

  /** `ColorFromHSV`. */
  function ColorFromHsv(hue: real, saturation: real, value: real): (c: Argb)
    ensures c.alpha == 255
    ensures var i := HsvIntensities(Fraction(hue), saturation, value);
            {c.red, c.green, c.blue} <= {i.v, i.p, i.q, i.t}
  {
    var i := HsvIntensities(Fraction(hue), saturation, value);
    var hi := Sector(hue);
    if hi == 0 then Argb(255, i.v, i.t, i.p)
    else if hi == 1 then Argb(255, i.q, i.v, i.p)
    else if hi == 2 then Argb(255, i.p, i.v, i.t)
    else if hi == 3 then Argb(255, i.p, i.q, i.v)
    else if hi == 4 then Argb(255, i.t, i.p, i.v)
    else Argb(255, i.v, i.p, i.q)
  }

  /** Zero saturation gives a grey: all three channels equal the rounded value. */
  lemma UnsaturatedIsGrey(hue: real, value: real)
    ensures var c := ColorFromHsv(hue, 0.0, value);
            c.red == c.green == c.blue == RoundHalfEven(value / 100.0 * 255.0)
  {
  }

  /** Hue 0 gives (v, p, p): the rising ramp `t` starts at the floor `p`. */
  lemma HueZero(saturation: real, value: real)
    ensures var i := HsvIntensities(0.0, saturation, value);
            ColorFromHsv(0.0, saturation, value) == Argb(255, i.v, i.p, i.p)
  {
    assert Floor(0.0 / 60.0) == 0;
    RoundHalfEvenOfInt(0);
  }

  /** A whole turn of hue lands in the same sector at the same fraction, for non-negative hues. */
  lemma SectorPeriodic(hue: real)
    requires hue >= 0.0
    ensures Sector(hue + 360.0) == Sector(hue) && Fraction(hue + 360.0) == Fraction(hue)
  {
    var n := Floor(hue / 60.0);
    assert (hue + 360.0) / 60.0 == hue / 60.0 + 6.0;
    assert Floor((hue + 360.0) / 60.0) == n + 6;
    RoundHalfEvenOfInt(n);
    RoundHalfEvenOfInt(n + 6);
  }

  /** A whole turn of hue does not change the colour, for non-negative hues. */
  lemma HuePeriodic(hue: real, saturation: real, value: real)
    requires hue >= 0.0
    ensures ColorFromHsv(hue + 360.0, saturation, value) == ColorFromHsv(hue, saturation, value)
  {
    SectorPeriodic(hue);
    assert HsvIntensities(Fraction(hue + 360.0), saturation, value) == HsvIntensities(Fraction(hue), saturation, value);
  }

  /** The intensities are ordered p <= q, t <= v, within [0, 255]. */
  predicate Ordered(i: Intensities)
  {
    0 <= i.p <= i.q <= i.v <= 255 && i.p <= i.t <= i.v
  }

  lemma ScaledWithin(a: real, k: real)
    requires 0.0 <= a && 0.0 <= k <= 1.0
    ensures 0.0 <= a * k <= a
  {
  }

  lemma ScaledMonotone(a: real, k: real, l: real)
    requires 0.0 <= a && k <= l
    ensures a * k <= a * l
  {
  }

  /** Rounding keeps a value that lies between two others between their roundings. */
  lemma RoundedBetween(lo: real, x: real, hi: real)
    requires lo <= x <= hi
    ensures RoundHalfEven(lo) <= RoundHalfEven(x) <= RoundHalfEven(hi)
  {
    RoundHalfEvenMonotone(lo, x);
    RoundHalfEvenMonotone(x, hi);
  }

  /** A ramp lies between the floor (the ramp at w = 1) and the scaled value. */
  lemma RampOrder(scaled: real, s: real, w: real)
    requires 0.0 <= scaled && 0.0 <= s <= 1.0 && 0.0 <= w <= 1.0
    ensures 0.0 <= Ramp(scaled, s, 1.0) <= Ramp(scaled, s, w) <= scaled
  {
    ScaledWithin(s, w);
    var ws := w * s;
    assert ws == s * w;
    assert 0.0 <= ws <= s;
    var k, l := 1.0 - 1.0 * s, 1.0 - ws;
    assert 0.0 <= k <= l <= 1.0;
    ScaledWithin(scaled, k);
    ScaledWithin(scaled, l);
    ScaledMonotone(scaled, k, l);
  }

  /** Rounding keeps an ordered chain of values in [0, 255] ordered, within [0, 255]. */
  lemma RoundedChain(lo: real, mid: real, hi: real)
    requires 0.0 <= lo <= mid <= hi <= 255.0
    ensures 0 <= RoundHalfEven(lo) <= RoundHalfEven(mid) <= RoundHalfEven(hi) <= 255
  {
    RoundHalfEvenOfInt(0);
    RoundHalfEvenOfInt(255);
    RoundHalfEvenMonotone(0.0, lo);
    RoundHalfEvenMonotone(lo, mid);
    RoundHalfEvenMonotone(mid, hi);
    RoundHalfEvenMonotone(hi, 255.0);
  }

  /** With saturation and value in [0, 100] the four intensities are ordered. */
  lemma IntensitiesOrdered(f: real, saturation: real, value: real)
    requires 0.0 <= f <= 1.0 && 0.0 <= saturation <= 100.0 && 0.0 <= value <= 100.0
    ensures Ordered(HsvIntensities(f, saturation, value))
  {
    var s, scaled := saturation / 100.0, value / 100.0 * 255.0;
    RampOrder(scaled, s, f);
    RampOrder(scaled, s, 1.0 - f);
    RoundedChain(Ramp(scaled, s, 1.0), Ramp(scaled, s, f), scaled);
    RoundedChain(Ramp(scaled, s, 1.0), Ramp(scaled, s, 1.0 - f), scaled);
  }

  /**
   * With saturation and value in [0, 100], every channel lies in [p, v] and
   * v <= 255; `v` is the largest channel and `p` the smallest.
   */
  lemma ChannelBounds(hue: real, saturation: real, value: real)
    requires 0.0 <= saturation <= 100.0 && 0.0 <= value <= 100.0
    ensures var i := HsvIntensities(Fraction(hue), saturation, value);
            var c := ColorFromHsv(hue, saturation, value);
            0 <= i.p <= c.red <= i.v <= 255 && i.p <= c.green <= i.v && i.p <= c.blue <= i.v
    ensures var i := HsvIntensities(Fraction(hue), saturation, value);
            var c := ColorFromHsv(hue, saturation, value);
            i.v in {c.red, c.green, c.blue} && i.p in {c.red, c.green, c.blue}
  {
    IntensitiesOrdered(Fraction(hue), saturation, value);
  }
}
