/**
 * The C++ renderer's transfer function (cpp-renderer/transfer_function.h).
 *
 * The program keeps its control points, called samples, in one flat vector
 * of doubles with five entries per sample: the intensity it sits at, then
 * red, green, blue and alpha. Here element 5k+j of that vector is field j of
 * element k of a sequence of `Sample` values. The discretised table that
 * colour and opacity lookups read has the same layout and the same model.
 */
module CppTransferFunctions {
  import opened Numeric
  import opened Vectors
  import CsTransferFunctions
  import VolumeSampling

  datatype Sample = Sample(position: real, r: real, g: real, b: real, alpha: real)

  datatype Option<T> = None | Some(value: T)

  /** Sample positions never decrease along the vector. */
  predicate SortedByPosition(s: seq<Sample>)
  {
    forall i, j :: 0 <= i < j < |s| ==> s[i].position <= s[j].position
  }

  /**
   * The shape every operation assumes of the sample vector: at least two
   * samples, the first at 0, the last at 1, and sorted in between.
   */
  predicate Consistent(s: seq<Sample>)
  {
    2 <= |s| && s[0].position == 0.0 && s[|s| - 1].position == 1.0 && SortedByPosition(s)
  }

  /** Colour and alpha of a sample lie in [0, 1]. */
  predicate ColorsInUnit(e: Sample)
  {
    0.0 <= e.r <= 1.0 && 0.0 <= e.g <= 1.0 && 0.0 <= e.b <= 1.0 && 0.0 <= e.alpha <= 1.0
  }

  predicate AllColorsInUnit(s: seq<Sample>)
  {
    forall k :: 0 <= k < |s| ==> ColorsInUnit(s[k])
  }

  /** The samples `Reset` installs: black and transparent at 0, white and opaque at 1. */
  function DefaultSamples(): (s: seq<Sample>)
    ensures Consistent(s) && AllColorsInUnit(s)
  {
    [Sample(0.0, 0.0, 0.0, 0.0, 0.0), Sample(1.0, 1.0, 1.0, 1.0, 1.0)]
  }

  // ---------------------------------------------------------------------
  // Discretisation
  // ---------------------------------------------------------------------

  /** How many interpolated entries `DiscretizeSamples(n)` writes before the final one. */
  function Steps(n: int): nat
  {
    if n >= 1 then n - 1 else 0
  }

  /** The position `i / n` of interpolated entry i. */
  function PositionAt(i: nat, n: int): (p: real)
    requires i < n
    ensures 0.0 <= p < 1.0
    ensures p * n as real == i as real
  {
    i as real / n as real
  }

  lemma PositionsRise(i: nat, n: int)
    requires i + 1 < n
    ensures PositionAt(i, n) <= PositionAt(i + 1, n)
  {
  }

  /**
   * The index of the sample the loop of `DiscretizeSamples(n)` treats as the
   * current one when step i begins. A step moves it on by one sample, at
   * most, when the step's position has reached the next sample.
   */
  function CursorBefore(s: seq<Sample>, n: int, i: nat): (c: nat)
    requires Consistent(s) && i <= Steps(n)
    ensures c + 1 < |s|
  {
    if i == 0 then 0
    else
      var c := CursorBefore(s, n, i - 1);
      if PositionAt(i - 1, n) >= s[c + 1].position then c + 1 else c
  }

  /**
   * One channel at position p between a sample at x0 and the next at x1,
   * clamped into [0, 1]. Where the two positions coincide the program divides
   * by zero; the model keeps the current sample's value there.
   */
  function Channel(p: real, x0: real, x1: real, y0: real, y1: real): real
  {
    Clamp01(if x1 == x0 then y0 else CsTransferFunctions.LinearInterpolate(p, x0, y0, x1, y1))
  }

  /** Interpolated entry i of the table written by `DiscretizeSamples(n)`. */
  function Entry(s: seq<Sample>, n: int, i: nat): (e: Sample)
    requires Consistent(s) && i < Steps(n)
    ensures e.position == PositionAt(i, n) && ColorsInUnit(e)
  {
    var c := CursorBefore(s, n, i + 1);
    var p := PositionAt(i, n);
    var cur := s[c];
    var next := s[c + 1];
    Sample(p,
      Channel(p, cur.position, next.position, cur.r, next.r),
      Channel(p, cur.position, next.position, cur.g, next.g),
      Channel(p, cur.position, next.position, cur.b, next.b),
      Channel(p, cur.position, next.position, cur.alpha, next.alpha))
  }

  /** The first k interpolated entries. */
  function DiscretizedPrefix(s: seq<Sample>, n: int, k: nat): (d: seq<Sample>)
    requires Consistent(s) && k <= Steps(n)
    ensures |d| == k
  {
    if k == 0 then [] else DiscretizedPrefix(s, n, k - 1) + [Entry(s, n, k - 1)]
  }

  /** Entry i of any prefix long enough to hold it is `Entry(s, n, i)`. */
  lemma {:induction false} PrefixEntries(s: seq<Sample>, n: int, k: nat)
    requires Consistent(s) && k <= Steps(n)
    ensures forall i :: 0 <= i < k ==> DiscretizedPrefix(s, n, k)[i] == Entry(s, n, i)
  {
    if k > 0 {
      PrefixEntries(s, n, k - 1);
    }
  }

  /** One step of the loop: the cursor moves on at most once and the prefix grows by entry i. */
  lemma CursorStep(s: seq<Sample>, n: int, i: nat)
    requires Consistent(s) && i < Steps(n)
    ensures var c := CursorBefore(s, n, i);
      CursorBefore(s, n, i + 1) == if PositionAt(i, n) >= s[c + 1].position then c + 1 else c
    ensures DiscretizedPrefix(s, n, i + 1) == DiscretizedPrefix(s, n, i) + [Entry(s, n, i)]
  {
  }

  /** Entry i interpolates between the samples the cursor stands on after step i. */
  lemma EntryFrom(s: seq<Sample>, n: int, i: nat, current: Sample, next: Sample)
    requires Consistent(s) && i < Steps(n)
    requires current == s[CursorBefore(s, n, i + 1)] && next == s[CursorBefore(s, n, i + 1) + 1]
    ensures var p := PositionAt(i, n);
      Entry(s, n, i) == Sample(p,
        Channel(p, current.position, next.position, current.r, next.r),
        Channel(p, current.position, next.position, current.g, next.g),
        Channel(p, current.position, next.position, current.b, next.b),
        Channel(p, current.position, next.position, current.alpha, next.alpha))
  {
  }

  /**
   * The table `DiscretizeSamples(n)` builds: interpolated entries at the
   * positions 0, 1/n, ..., (n-2)/n, with every channel in [0, 1], and then a
   * copy of the last sample.
   */
  function Discretized(s: seq<Sample>, n: int): (d: seq<Sample>)
    requires Consistent(s)
    ensures |d| == Steps(n) + 1 && d[|d| - 1] == s[|s| - 1]
    ensures forall i :: 0 <= i < Steps(n) ==> d[i].position == PositionAt(i, n) && ColorsInUnit(d[i])
    ensures ColorsInUnit(s[|s| - 1]) ==> AllColorsInUnit(d)
  {
    PrefixEntries(s, n, Steps(n));
    DiscretizedPrefix(s, n, Steps(n)) + [s[|s| - 1]]
  }

  /** The table is the complete interpolated prefix followed by the last sample. */
  lemma DiscretizedFrom(s: seq<Sample>, n: int, table: seq<Sample>)
    requires Consistent(s) && table == DiscretizedPrefix(s, n, Steps(n))
    ensures Discretized(s, n) == table + [s[|s| - 1]]
  {
  }

  /**
   * The current sample never lies beyond the position being interpolated, so
   * no entry extrapolates backwards from the sample it starts at.
   */
  lemma {:induction false} CursorNotAhead(s: seq<Sample>, n: int, i: nat)
    requires Consistent(s) && i < Steps(n)
    ensures s[CursorBefore(s, n, i + 1)].position <= PositionAt(i, n)
  {
    var c := CursorBefore(s, n, i);
    if PositionAt(i, n) >= s[c + 1].position {
    } else if i == 0 {
    } else {
      CursorNotAhead(s, n, i - 1);
      PositionsRise(i - 1, n);
    }
  }

  /** With the reset samples the cursor stays on the first sample throughout. */
  lemma {:induction false} DefaultCursorStays(n: int, i: nat)
    requires i <= Steps(n)
    ensures CursorBefore(DefaultSamples(), n, i) == 0
  {
    if i > 0 {
      DefaultCursorStays(n, i - 1);
    }
  }

  /** The table of the reset samples is the grey ramp: entry i is i/n in every field. */
  lemma DefaultTableIsGreyRamp(n: int, i: nat)
    requires i < Steps(n)
    ensures Discretized(DefaultSamples(), n)[i] == Sample(PositionAt(i, n), PositionAt(i, n), PositionAt(i, n), PositionAt(i, n), PositionAt(i, n))
  {
    PrefixEntries(DefaultSamples(), n, Steps(n));
    assert Discretized(DefaultSamples(), n)[i] == Entry(DefaultSamples(), n, i);
    DefaultCursorStays(n, i + 1);
    var p := PositionAt(i, n);
    assert CsTransferFunctions.LinearInterpolate(p, 0.0, 0.0, 1.0, 1.0) == p;
  }

  // ---------------------------------------------------------------------
  // Lookup
  // ---------------------------------------------------------------------

  /** `nearestInt` in `roundToNearest5`: rounding half away from zero. */
  function NearestInt(x: real): (k: int)
    ensures x - 0.5 <= k as real <= x + 0.5
  {
    if x < 0.0 then Ceil(x - 0.5) else Floor(x + 0.5)
  }

  /** `roundToNearest5` as written, with the truncating `%` of C++. */
  function RoundToNearest5AsWritten(number: real): int
  {
    var nearestInt := NearestInt(number);
    var remainder := TruncMod(nearestInt, 5);
    if remainder != 0 then
      if remainder < 3 then nearestInt - remainder else nearestInt + (5 - remainder)
    else nearestInt
  }

  /**
   * `roundToNearest5` with a remainder that is never negative: a multiple of
   * 5 at most 2 away from the nearest integer.
   */
  function RoundToNearest5(number: real): (k: int)
    ensures k % 5 == 0
    ensures -2 <= k - NearestInt(number) <= 2
  {
    var nearestInt := NearestInt(number);
    var remainder := nearestInt % 5;
    if remainder != 0 then
      if remainder < 3 then nearestInt - remainder else nearestInt + (5 - remainder)
    else nearestInt
  }

  /** Every other multiple of 5 is at least 3 away: the result is the nearest one. */
  lemma RoundToNearest5IsNearest(number: real, m: int)
    requires m % 5 == 0 && m != RoundToNearest5(number)
    ensures m - NearestInt(number) >= 3 || m - NearestInt(number) <= -3
  {
    var k := RoundToNearest5(number);
    var q := (m - k) / 5;
    assert m - k == 5 * q;
  }

  /** On arguments that are not negative the program's version gives the same result. */
  lemma RoundAsWrittenAgreesOnNonNegative(number: real)
    requires 0.0 <= number
    ensures RoundToNearest5AsWritten(number) == RoundToNearest5(number)
  {
    var nearestInt := NearestInt(number);
    assert TruncMod(nearestInt, 5) == nearestInt % 5;
  }

  /**
   * On a negative nearest integer the program's version returns the multiple
   * of 5 toward zero, up to 4 away, instead of the nearest one.
   */
  lemma RoundAsWrittenTowardZero(number: real)
    requires NearestInt(number) < 0
    ensures var k := RoundToNearest5AsWritten(number);
      k % 5 == 0 && NearestInt(number) <= k <= NearestInt(number) + 4
  {
    var nearestInt := NearestInt(number);
    var m := (-nearestInt) % 5;
    assert TruncMod(nearestInt, 5) == -m;
    assert -nearestInt == 5 * ((-nearestInt) / 5) + m;
  }

  /** -3 is rounded to 0, three away, where the nearest multiple of 5 is -5. */
  lemma RoundAsWrittenNegativeCounterexample()
    ensures NearestInt(-3.0) == -3
    ensures RoundToNearest5AsWritten(-3.0) == 0 && RoundToNearest5(-3.0) == -5
  {
    assert Ceil(-3.5) == -3;
  }

  /**
   * The flat index `GetColor` and `GetAlpha` read from, for a table of `size`
   * doubles: the multiple of 5 nearest to `sample * size`, moved back by one
   * sample when it lands on the end of the table.
   */
  function TargetIndex(sample: real, size: int): (t: int)
    requires 0.0 <= sample <= 1.0 && 5 <= size && size % 5 == 0
    ensures t % 5 == 0 && 0 <= t && t + 4 < size
  {
    var x := sample * size as real;
    var t := RoundToNearest5(x);
    TargetIndexBounds(sample, size, t);
    if t + 4 >= size then t - 5 else t
  }

  /** The target lies within five below, or two and a half above, sample * size. */
  lemma TargetIndexNear(sample: real, size: int)
    requires 0.0 <= sample <= 1.0 && 5 <= size && size % 5 == 0
    ensures sample * size as real - 5.0 <= TargetIndex(sample, size) as real <= sample * size as real + 2.5
  {
    var t := RoundToNearest5(sample * size as real);
    TargetIndexIs(sample, size);
    TargetIndexBounds(sample, size, t);
  }

  lemma TargetIndexIs(sample: real, size: int)
    requires 0.0 <= sample <= 1.0 && 5 <= size && size % 5 == 0
    ensures var t := RoundToNearest5(sample * size as real);
      TargetIndex(sample, size) == if t + 4 >= size then t - 5 else t
  {
  }

  lemma TargetIndexBounds(sample: real, size: int, t: int)
    requires 0.0 <= sample <= 1.0 && 5 <= size && size % 5 == 0
    requires t == RoundToNearest5(sample * size as real)
    ensures 0 <= t <= size
    ensures t + 4 >= size ==> t == size
    ensures sample * size as real - 2.5 <= t as real <= sample * size as real + 2.5
  {
    var x := sample * size as real;
    assert x <= size as real by {
      VolumeSampling.NonNegativeProduct(1.0 - sample, size as real);
    }
    var k := NearestInt(x);
    assert x - 0.5 <= k as real <= x + 0.5;
    assert 0 <= k <= size;
    assert k - 2 <= t <= k + 2;
    var q := t / 5;
    assert t == 5 * q;
    var z := size / 5;
    assert size == 5 * z;
    assert 0 <= q <= z;
    assert t + 4 >= size ==> q == z;
  }

  /** The sample of a table of `tuples` samples that `TargetIndex` selects. */
  function TupleFor(sample: real, tuples: nat): (k: nat)
    requires 0.0 <= sample <= 1.0 && 1 <= tuples
    ensures k < tuples
  {
    var t := TargetIndex(sample, 5 * tuples);
    assert t == 5 * (t / 5);
    t / 5
  }

  /** The selected sample lies within one sample below, or half a sample above, sample * tuples. */
  lemma TupleForNear(sample: real, tuples: nat)
    requires 0.0 <= sample <= 1.0 && 1 <= tuples
    ensures var k := TupleFor(sample, tuples);
      sample * tuples as real - 1.0 <= k as real <= sample * tuples as real + 0.5
  {
    var t := TargetIndex(sample, 5 * tuples);
    TargetIndexNear(sample, 5 * tuples);
    assert t == 5 * (t / 5);
    assert sample * (5 * tuples) as real == 5.0 * (sample * tuples as real);
  }

  /** Entry k of the reset table is grey and, when k is within one step of 100v, close to v. */
  lemma DefaultEntryNear(v: real, k: nat)
    requires k < 100 && v * 100.0 - 1.0 <= k as real <= v * 100.0 + 0.5
    ensures var e := Discretized(DefaultSamples(), 100)[k];
      e.r == e.g == e.b == e.alpha && v - 0.01 <= e.r <= v + 0.015
  {
    if k < 99 {
      DefaultTableIsGreyRamp(100, k);
      assert PositionAt(k, 100) * 100.0 == k as real;
    }
  }

  /**
   * After a reset, looking up intensity v gives grey, with red, green, blue
   * and alpha equal and within one table step of v.
   */
  lemma DefaultLookupIsGrey(v: real)
    requires 0.0 <= v <= 1.0
    ensures var d := Discretized(DefaultSamples(), 100);
      var e := d[TupleFor(v, |d|)];
      e.r == e.g == e.b == e.alpha && v - 0.01 <= e.r <= v + 0.015
  {
    var k := TupleFor(v, 100);
    TupleForNear(v, 100);
    DefaultEntryNear(v, k);
  }

  // ---------------------------------------------------------------------
  // Editing the samples
  // ---------------------------------------------------------------------

  /** Samples j and j + 1 enclose v. */
  predicate BracketsAt(s: seq<Sample>, j: int, v: real)
  {
    0 <= j && j + 1 < |s| && s[j].position <= v <= s[j + 1].position
  }

  /** The first pair from k on that encloses v: where `AddSample` inserts. */
  function InsertionPoint(s: seq<Sample>, v: real, k: nat): (r: Option<nat>)
    ensures r.Some? ==> k <= r.value && r.value + 1 < |s|
    decreases |s| - k
  {
    if k + 1 >= |s| then None
    else if BracketsAt(s, k, v) then Some(k)
    else InsertionPoint(s, v, k + 1)
  }

  /** The search finds the first enclosing pair, and finds none only when there is none. */
  lemma {:induction false} InsertionPointMeaning(s: seq<Sample>, v: real, k: nat)
    ensures InsertionPoint(s, v, k).Some? ==>
      k <= InsertionPoint(s, v, k).value && BracketsAt(s, InsertionPoint(s, v, k).value, v) &&
      forall j :: k <= j < InsertionPoint(s, v, k).value ==> !BracketsAt(s, j, v)
    ensures InsertionPoint(s, v, k).None? <==> forall j :: k <= j ==> !BracketsAt(s, j, v)
    decreases |s| - k
  {
    if k + 1 < |s| && !BracketsAt(s, k, v) {
      InsertionPointMeaning(s, v, k + 1);
    }
  }

  /**
   * An intensity between the first sample at or below it and the last sample
   * always has an enclosing pair, sorted or not.
   */
  lemma {:induction false} InsertionFound(s: seq<Sample>, v: real, k: nat)
    requires k + 1 < |s| && s[k].position <= v <= s[|s| - 1].position
    ensures InsertionPoint(s, v, k).Some?
    decreases |s| - k
  {
    if !BracketsAt(s, k, v) {
      InsertionFound(s, v, k + 1);
    }
  }

  /** `samples.insert(begin + 5(k+1), ...)`: e placed right after sample k. */
  function InsertAfter(s: seq<Sample>, k: nat, e: Sample): (r: seq<Sample>)
    requires k < |s|
    ensures |r| == |s| + 1 && r[k + 1] == e
    ensures forall x :: 0 <= x <= k ==> r[x] == s[x]
    ensures forall x :: k + 1 < x < |r| ==> r[x] == s[x - 1]
  {
    s[..k + 1] + [e] + s[k + 1..]
  }

  /**
   * Inserting between an enclosing pair keeps the vector consistent and adds
   * exactly the new sample.
   */
  lemma InsertKeepsConsistent(s: seq<Sample>, k: nat, e: Sample)
    requires Consistent(s) && BracketsAt(s, k, e.position)
    ensures Consistent(InsertAfter(s, k, e))
    ensures multiset(InsertAfter(s, k, e)) == multiset(s) + multiset{e}
    ensures AllColorsInUnit(s) && ColorsInUnit(e) ==> AllColorsInUnit(InsertAfter(s, k, e))
  {
    InsertKeepsSorted(s, k, e);
    InsertAddsOne(s, k, e);
    var r := InsertAfter(s, k, e);
    assert r[0] == s[0] && r[|r| - 1] == s[|s| - 1];
    if AllColorsInUnit(s) && ColorsInUnit(e) {
      forall x | 0 <= x < |r|
        ensures ColorsInUnit(r[x])
      {
        if x <= k { assert r[x] == s[x]; } else if k + 1 < x { assert r[x] == s[x - 1]; }
      }
    }
  }

  /** Inserting adds exactly one copy of e. */
  lemma InsertAddsOne(s: seq<Sample>, k: nat, e: Sample)
    requires k < |s|
    ensures multiset(InsertAfter(s, k, e)) == multiset(s) + multiset{e}
  {
    assert s[..k + 1] + s[k + 1..] == s;
  }

  /** The sortedness half of `InsertKeepsConsistent`. */
  lemma InsertKeepsSorted(s: seq<Sample>, k: nat, e: Sample)
    requires SortedByPosition(s) && BracketsAt(s, k, e.position)
    ensures SortedByPosition(InsertAfter(s, k, e))
  {
    var r := InsertAfter(s, k, e);
    forall i, j | 0 <= i < j < |r|
      ensures r[i].position <= r[j].position
    {
      if j <= k {
        assert r[i] == s[i] && r[j] == s[j];
      } else if j == k + 1 {
        assert r[i] == s[i];
        assert s[i].position <= s[k].position;
      } else if i <= k {
        assert r[i] == s[i] && r[j] == s[j - 1];
        assert s[i].position <= s[j - 1].position;
      } else if i == k + 1 {
        assert r[j] == s[j - 1];
        assert s[k + 1].position <= s[j - 1].position;
      } else {
        assert r[i] == s[i - 1] && r[j] == s[j - 1];
      }
    }
  }

  /** The index of the last sample before k sitting at p: the one `RemoveSample` erases. */
  function LastAt(s: seq<Sample>, p: real, k: nat): (r: Option<nat>)
    requires k <= |s|
    ensures r.Some? ==> r.value < k && s[r.value].position == p
  {
    if k == 0 then None
    else if s[k - 1].position == p then Some(k - 1)
    else LastAt(s, p, k - 1)
  }

  /** No later sample before k sits at p, and none at all when the search fails. */
  lemma {:induction false} LastAtMeaning(s: seq<Sample>, p: real, k: nat)
    requires k <= |s|
    ensures LastAt(s, p, k).Some? ==> forall l :: LastAt(s, p, k).value < l < k ==> s[l].position != p
    ensures LastAt(s, p, k).None? <==> forall l :: 0 <= l < k ==> s[l].position != p
  {
    if k > 0 && s[k - 1].position != p {
      LastAtMeaning(s, p, k - 1);
    }
  }

  /** What `RemoveSample(p)` leaves: the edge positions 0 and 1 are refused. */
  function Removed(s: seq<Sample>, p: real): seq<Sample>
  {
    if p == 0.0 || p == 1.0 then s
    else match LastAt(s, p, |s|)
      case None => s
      case Some(j) => s[..j] + s[j + 1..]
  }

  /** Erasing an inner sample keeps the vector consistent and only takes that sample away. */
  lemma EraseInnerKeepsConsistent(s: seq<Sample>, j: nat)
    requires Consistent(s) && 0 < j < |s| - 1
    ensures Consistent(s[..j] + s[j + 1..])
    ensures multiset(s[..j] + s[j + 1..]) == multiset(s) - multiset{s[j]}
    ensures AllColorsInUnit(s) ==> AllColorsInUnit(s[..j] + s[j + 1..])
  {
    var r := s[..j] + s[j + 1..];
    EraseKeepsSorted(s, j);
    EraseRemovesOne(s, j);
    assert r[0] == s[0] && r[|r| - 1] == s[|s| - 1];
    if AllColorsInUnit(s) {
      forall x | 0 <= x < |r|
        ensures ColorsInUnit(r[x])
      {
        if x < j { assert r[x] == s[x]; } else { assert r[x] == s[x + 1]; }
      }
    }
  }

  /** The sortedness half of `EraseInnerKeepsConsistent`. */
  lemma EraseKeepsSorted(s: seq<Sample>, j: nat)
    requires SortedByPosition(s) && j < |s|
    ensures SortedByPosition(s[..j] + s[j + 1..])
  {
    var r := s[..j] + s[j + 1..];
    forall a, b | 0 <= a < b < |r|
      ensures r[a].position <= r[b].position
    {
      var a' := if a < j then a else a + 1;
      var b' := if b < j then b else b + 1;
      assert r[a] == s[a'] && r[b] == s[b'];
    }
  }

  /** Erasing index j takes exactly one copy of s[j] away. */
  lemma EraseRemovesOne(s: seq<Sample>, j: nat)
    requires j < |s|
    ensures multiset(s[..j] + s[j + 1..]) == multiset(s) - multiset{s[j]}
  {
    assert s == s[..j] + [s[j]] + s[j + 1..];
  }

  /**
   * Removal keeps the vector consistent, takes one sample away exactly when
   * an inner sample sits at p, and never adds one.
   */
  lemma RemovedKeepsConsistent(s: seq<Sample>, p: real)
    requires Consistent(s)
    ensures Consistent(Removed(s, p))
    ensures |Removed(s, p)| == |s| - 1 <==>
      p != 0.0 && p != 1.0 && exists l :: 0 <= l < |s| && s[l].position == p
    ensures multiset(Removed(s, p)) <= multiset(s)
    ensures AllColorsInUnit(s) ==> AllColorsInUnit(Removed(s, p))
  {
    LastAtMeaning(s, p, |s|);
    if p != 0.0 && p != 1.0 && LastAt(s, p, |s|).Some? {
      var j := LastAt(s, p, |s|).value;
      assert s[j].position == p;
      assert 0 < j < |s| - 1;
      assert Removed(s, p) == s[..j] + s[j + 1..];
      EraseInnerKeepsConsistent(s, j);
    } else {
      assert Removed(s, p) == s;
    }
  }

  /** Distance between two reals. */
  function Distance(a: real, b: real): real
  {
    if a < b then b - a else a - b
  }

  /** The alpha constraint of `FindClosestSample`; -1 switches it off. */
  predicate AlphaMatches(alpha: real, stored: real, threshold: real)
  {
    alpha == -1.0 || Distance(alpha, stored) < threshold
  }

  /**
   * What pair k offers `FindClosestSample`: if it encloses the target, the
   * nearer of its two samples (the lower one on a tie), provided that one is
   * within the threshold and passes the alpha constraint.
   */
  function Candidate(s: seq<Sample>, k: nat, target: real, alpha: real, threshold: real): (c: Option<real>)
    requires k + 1 < |s|
    ensures c.Some? ==> BracketsAt(s, k, target) && Distance(c.value, target) <= threshold
    ensures c.Some? ==>
      Distance(c.value, target) <= Distance(s[k].position, target) &&
      Distance(c.value, target) <= Distance(s[k + 1].position, target)
    ensures c.Some? ==>
      (c.value == s[k].position && AlphaMatches(alpha, s[k].alpha, threshold)) ||
      (c.value == s[k + 1].position && AlphaMatches(alpha, s[k + 1].alpha, threshold))
  {
    if !BracketsAt(s, k, target) then None
    else
      var diffUp := s[k + 1].position - target;
      var diffDown := target - s[k].position;
      if diffUp > threshold && diffDown > threshold then None
      else if diffUp < diffDown then
        if AlphaMatches(alpha, s[k + 1].alpha, threshold) then Some(s[k + 1].position) else None
      else if AlphaMatches(alpha, s[k].alpha, threshold) then Some(s[k].position)
      else None
  }

  /** The result of `FindClosestSample` searching the pairs from k on. */
  function ClosestFrom(s: seq<Sample>, target: real, alpha: real, threshold: real, k: nat): real
    decreases |s| - k
  {
    if k + 1 >= |s| then -1.0
    else match Candidate(s, k, target, alpha, threshold)
      case Some(c) => c
      case None => ClosestFrom(s, target, alpha, threshold, k + 1)
  }

  /**
   * On a consistent vector the search gives -1 exactly when no pair offers a
   * candidate, and otherwise a sample position within the threshold.
   */
  lemma {:induction false} ClosestMeaning(s: seq<Sample>, target: real, alpha: real, threshold: real, k: nat)
    requires Consistent(s)
    ensures ClosestFrom(s, target, alpha, threshold, k) == -1.0 <==>
      forall j :: k <= j && j + 1 < |s| ==> Candidate(s, j, target, alpha, threshold).None?
    ensures ClosestFrom(s, target, alpha, threshold, k) != -1.0 ==>
      Distance(ClosestFrom(s, target, alpha, threshold, k), target) <= threshold &&
      exists j :: 0 <= j < |s| && s[j].position == ClosestFrom(s, target, alpha, threshold, k)
    decreases |s| - k
  {
    if k + 1 < |s| {
      var c := Candidate(s, k, target, alpha, threshold);
      if c.Some? {
        assert s[0].position <= s[k].position && s[0].position <= s[k + 1].position;
        if c.value == s[k].position {
          assert 0 <= k < |s| && s[k].position == c.value;
        } else {
          assert 0 <= k + 1 < |s| && s[k + 1].position == c.value;
        }
      } else {
        ClosestMeaning(s, target, alpha, threshold, k + 1);
      }
    }
  }

  /**
   * The search's answer, when it has one, is a closest sample of all: no
   * sample lies nearer the target. Its alpha passes the constraint.
   */
  lemma {:induction false} ClosestIsNearest(s: seq<Sample>, target: real, alpha: real, threshold: real, k: nat)
    requires Consistent(s)
    ensures ClosestFrom(s, target, alpha, threshold, k) != -1.0 ==>
      (forall j :: 0 <= j < |s| ==>
        Distance(ClosestFrom(s, target, alpha, threshold, k), target) <= Distance(s[j].position, target)) &&
      exists j :: 0 <= j < |s| && s[j].position == ClosestFrom(s, target, alpha, threshold, k) &&
        AlphaMatches(alpha, s[j].alpha, threshold)
    decreases |s| - k
  {
    if k + 1 < |s| {
      var c := Candidate(s, k, target, alpha, threshold);
      if c.Some? {
        forall j | 0 <= j < |s|
          ensures Distance(c.value, target) <= Distance(s[j].position, target)
        {
          if j <= k {
            assert s[j].position <= s[k].position;
          } else {
            assert s[k + 1].position <= s[j].position;
          }
        }
        if c.value == s[k].position && AlphaMatches(alpha, s[k].alpha, threshold) {
          assert 0 <= k < |s|;
        } else {
          assert 0 <= k + 1 < |s|;
        }
      } else {
        ClosestIsNearest(s, target, alpha, threshold, k + 1);
      }
    }
  }

  /**
   * Without the alpha constraint and for a target in [0, 1], the search gives
   * -1 exactly when every sample lies more than `threshold` from the target.
   */
  lemma ClosestNoneMeaning(s: seq<Sample>, target: real, threshold: real)
    requires Consistent(s) && 0.0 <= target <= 1.0
    ensures ClosestFrom(s, target, -1.0, threshold, 0) == -1.0 <==>
      forall j :: 0 <= j < |s| ==> Distance(s[j].position, target) > threshold
  {
    ClosestMeaning(s, target, -1.0, threshold, 0);
    if ClosestFrom(s, target, -1.0, threshold, 0) == -1.0 {
      InsertionFound(s, target, 0);
      InsertionPointMeaning(s, target, 0);
      var k := InsertionPoint(s, target, 0).value;
      assert Candidate(s, k, target, -1.0, threshold).None?;
      forall j | 0 <= j < |s|
        ensures Distance(s[j].position, target) > threshold
      {
        if j <= k {
          assert s[j].position <= s[k].position;
        } else {
          assert s[k + 1].position <= s[j].position;
        }
      }
    }
  }

  /** A target outside [0, 1] lies in no pair, so the search gives -1. */
  lemma ClosestOutsideUnit(s: seq<Sample>, target: real, alpha: real, threshold: real)
    requires Consistent(s) && (target < 0.0 || 1.0 < target)
    ensures ClosestFrom(s, target, alpha, threshold, 0) == -1.0
  {
    ClosestMeaning(s, target, alpha, threshold, 0);
    forall j | 0 <= j && j + 1 < |s|
      ensures Candidate(s, j, target, alpha, threshold).None?
    {
      assert s[0].position <= s[j].position && s[j + 1].position <= s[|s| - 1].position;
    }
  }

  // ---------------------------------------------------------------------
  // The class
  // ---------------------------------------------------------------------

  /** Maps intensities in [0, 1] to a colour and an opacity. */
  class TransferFunction {
    var samples: seq<Sample>
    var discretizedSamples: seq<Sample>

    /** The sample vector is consistent and a table has been built. */
    ghost predicate Valid()
      reads this
    {
      Consistent(samples) && 1 <= |discretizedSamples|
    }

    constructor ()
      ensures Valid()
      ensures samples == DefaultSamples() && discretizedSamples == Discretized(DefaultSamples(), 100)
    {
      new;
      Reset();
    }

    /** Back to black and transparent at 0, white and opaque at 1, and a fresh table. */
    method Reset()
      modifies this
      ensures Valid()
      ensures samples == DefaultSamples() && discretizedSamples == Discretized(DefaultSamples(), 100)
    {
      samples := DefaultSamples();
      DiscretizeSamples(100);
    }

    /** Rebuilds the table from the samples with n - 1 interpolated entries and the last sample. */
    method DiscretizeSamples(n: int)
      requires Consistent(samples)
      modifies this`discretizedSamples
      ensures discretizedSamples == Discretized(samples, n)
    {
      var s := samples;
      var table := [];
      var currentSampleIndex := 0;
      var current := s[0];
      var next := s[1];
      var i := 0;
      while i < n - 1
        invariant 0 <= i <= Steps(n)
        invariant currentSampleIndex == CursorBefore(s, n, i)
        invariant current == s[currentSampleIndex] && next == s[currentSampleIndex + 1]
        invariant table == DiscretizedPrefix(s, n, i)
      {
        var currentPosition := PositionAt(i, n);
        CursorStep(s, n, i);
        if currentPosition >= next.position {
          currentSampleIndex := currentSampleIndex + 1;
          current := s[currentSampleIndex];
          next := s[currentSampleIndex + 1];
        }
        var entry := Sample(currentPosition,
          Channel(currentPosition, current.position, next.position, current.r, next.r),
          Channel(currentPosition, current.position, next.position, current.g, next.g),
          Channel(currentPosition, current.position, next.position, current.b, next.b),
          Channel(currentPosition, current.position, next.position, current.alpha, next.alpha));
        EntryFrom(s, n, i, current, next);
        table := table + [entry];
        i := i + 1;
      }
      DiscretizedFrom(s, n, table);
      discretizedSamples := table + [s[|s| - 1]];
    }

    /**
     * Inserts a sample after the first pair that encloses its intensity and
     * rebuilds the table with 100 entries.
     */
    method AddSample(sample: real, color: Vec3, alpha: real)
      requires Valid()
      requires 0.0 <= sample <= 1.0 && ColorsInUnit(Sample(sample, color.x, color.y, color.z, alpha))
      modifies this
      ensures Valid()
      ensures InsertionPoint(old(samples), sample, 0).Some?
      ensures samples == InsertAfter(old(samples), InsertionPoint(old(samples), sample, 0).value,
        Sample(sample, color.x, color.y, color.z, alpha))
      ensures multiset(samples) == multiset(old(samples)) + multiset{Sample(sample, color.x, color.y, color.z, alpha)}
      ensures old(AllColorsInUnit(samples)) ==> AllColorsInUnit(samples)
      ensures discretizedSamples == Discretized(samples, 100)
    {
      var e := Sample(sample, color.x, color.y, color.z, alpha);
      ghost var s0 := samples;
      InsertionFound(s0, sample, 0);
      var i := 0;
      while i + 1 < |samples|
        invariant samples == s0
        invariant 0 <= i < |samples|
        invariant InsertionPoint(s0, sample, i) == InsertionPoint(s0, sample, 0)
        decreases |samples| - i
      {
        if sample >= samples[i].position && sample <= samples[i + 1].position {
          InsertKeepsConsistent(samples, i, e);
          samples := InsertAfter(samples, i, e);
          break;
        }
        i := i + 1;
      }
      DiscretizeSamples(100);
    }

    /** The colour of the table entry `TupleFor` selects. */
    function GetColor(sample: real): (c: Vec3)
      reads this
      requires 1 <= |discretizedSamples| && 0.0 <= sample <= 1.0
      ensures c == Vec3(discretizedSamples[TupleFor(sample, |discretizedSamples|)].r,
        discretizedSamples[TupleFor(sample, |discretizedSamples|)].g,
        discretizedSamples[TupleFor(sample, |discretizedSamples|)].b)
      ensures AllColorsInUnit(discretizedSamples) ==>
        0.0 <= c.x <= 1.0 && 0.0 <= c.y <= 1.0 && 0.0 <= c.z <= 1.0
    {
      var t := TargetIndex(sample, 5 * |discretizedSamples|);
      var e := discretizedSamples[t / 5];
      Vec3(e.r, e.g, e.b)
    }

    /** The alpha of the table entry `TupleFor` selects. */
    function GetAlpha(sample: real): (a: real)
      reads this
      requires 1 <= |discretizedSamples| && 0.0 <= sample <= 1.0
      ensures a == discretizedSamples[TupleFor(sample, |discretizedSamples|)].alpha
      ensures AllColorsInUnit(discretizedSamples) ==> 0.0 <= a <= 1.0
    {
      var t := TargetIndex(sample, 5 * |discretizedSamples|);
      discretizedSamples[t / 5].alpha
    }

    /**
     * Erases the last sample sitting exactly at `sample`, unless that is 0 or
     * 1. The table is left as it was.
     */
    method RemoveSample(sample: real)
      requires Valid()
      modifies this`samples
      ensures Valid()
      ensures samples == Removed(old(samples), sample)
    {
      if sample == 0.0 || sample == 1.0 {
        return;
      }
      ghost var s0 := samples;
      var i := |samples| - 1;
      while i >= 0
        invariant samples == s0
        invariant -1 <= i < |samples|
        invariant LastAt(s0, sample, i + 1) == LastAt(s0, sample, |s0|)
      {
        if samples[i].position == sample {
          assert LastAt(s0, sample, |s0|) == Some(i);
          RemovedKeepsConsistent(s0, sample);
          samples := samples[..i] + samples[i + 1..];
          return;
        }
        i := i - 1;
      }
    }

    /**
     * The first enclosing pair's nearer sample that is within `threshold` of
     * `target` and whose alpha matches, or -1.
     */
    method FindClosestSample(target: real, alpha: real, threshold: real) returns (r: real)
      requires Valid()
      ensures r == ClosestFrom(samples, target, alpha, threshold, 0)
      ensures r != -1.0 ==>
        Distance(r, target) <= threshold &&
        (forall j :: 0 <= j < |samples| ==> Distance(r, target) <= Distance(samples[j].position, target)) &&
        exists j :: 0 <= j < |samples| && samples[j].position == r && AlphaMatches(alpha, samples[j].alpha, threshold)
      ensures alpha == -1.0 && 0.0 <= target <= 1.0 ==>
        (r == -1.0 <==> forall j :: 0 <= j < |samples| ==> Distance(samples[j].position, target) > threshold)
      ensures target < 0.0 || 1.0 < target ==> r == -1.0
    {
      ClosestMeaning(samples, target, alpha, threshold, 0);
      ClosestIsNearest(samples, target, alpha, threshold, 0);
      if alpha == -1.0 && 0.0 <= target <= 1.0 {
        ClosestNoneMeaning(samples, target, threshold);
      }
      if target < 0.0 || 1.0 < target {
        ClosestOutsideUnit(samples, target, alpha, threshold);
      }
      var i := 0;
      while i + 1 < |samples|
        invariant 0 <= i < |samples|
        invariant ClosestFrom(samples, target, alpha, threshold, i) == ClosestFrom(samples, target, alpha, threshold, 0)
        decreases |samples| - i
      {
        var prevSample := samples[i].position;
        var nextSample := samples[i + 1].position;
        if target >= prevSample && target <= nextSample {
          var diffUp := nextSample - target;
          var diffDown := target - prevSample;
          if !(diffUp > threshold && diffDown > threshold) {
            if diffUp < diffDown {
              if AlphaMatches(alpha, samples[i + 1].alpha, threshold) {
                return nextSample;
              }
            } else if AlphaMatches(alpha, samples[i].alpha, threshold) {
              return prevSample;
            }
          }
        }
        i := i + 1;
      }
      return -1.0;
    }

    /**
     * Sets colour and alpha of the sample at 0 or at 1, leaving every
     * position alone, and rebuilds the table.
     */
    method UpdateEdgeSample(sample: real, red: real, green: real, blue: real, alpha: real)
      requires Valid()
      modifies this
      ensures Valid()
      ensures sample == 0.0 ==> samples == old(samples)[0 := Sample(0.0, red, green, blue, alpha)]
      ensures sample != 0.0 && sample == 1.0 ==>
        samples == old(samples)[|old(samples)| - 1 := Sample(1.0, red, green, blue, alpha)]
      ensures sample != 0.0 && sample != 1.0 ==> samples == old(samples)
      ensures discretizedSamples == Discretized(samples, 100)
    {
      if sample == 0.0 {
        samples := samples[0 := Sample(samples[0].position, red, green, blue, alpha)];
      } else if sample == 1.0 {
        var last := |samples| - 1;
        samples := samples[last := Sample(samples[last].position, red, green, blue, alpha)];
      }
      DiscretizeSamples(100);
    }
  }
}
