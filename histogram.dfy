/**
 * The voxel histogram of `calculateHistogram` (cpp-renderer/Volume.h): 200
 * bins, a voxel of value v counted in bin floor(v · 200 + 0.5), and a bin
 * number past 199 replaced by 99. The counts are then replaced by their
 * cube roots; the cube root is a parameter of the method that does so.
 */
module VolumeHistogram {
  import opened Numeric

  const Bins: int := 200

  /** The bin a voxel value is counted in. */
  function Bin(v: real): (b: int)
    ensures 0.0 <= v ==> 0 <= b < Bins
    ensures v * 200.0 + 0.5 < 200.0 ==> b as real - 0.5 <= v * 200.0 < b as real + 0.5
    ensures 200.0 <= v * 200.0 + 0.5 ==> b == 99
  {
    var index := Floor(v * 200.0 + 0.5);
    if index > 199 then 99 else index
  }

  /** The full-scale value 1.0 rounds to bin 200 and is counted in bin 99, next to the value 0.5. */
  lemma FullScaleInMiddleBin()
    ensures Bin(1.0) == 99 && Bin(0.5) == 100 && Bin(0.0) == 0
  {
  }

  /** How many of the values fall in bin `b`. */
  function Count(values: seq<real>, b: int): (n: nat)
    ensures n <= |values|
  {
    if values == [] then 0
    else Count(values[..|values| - 1], b) + (if Bin(values[|values| - 1]) == b then 1 else 0)
  }

  /** The counts of bins 0 to k - 1 added up. */
  function SumCounts(values: seq<real>, k: nat): nat
  {
    if k == 0 then 0 else SumCounts(values, k - 1) + Count(values, k - 1)
  }

  lemma {:induction false} SumCountsOfNothing(k: nat)
    ensures SumCounts([], k) == 0
  {
    if k > 0 {
      SumCountsOfNothing(k - 1);
    }
  }

  /** One more value adds one to the sum when its bin is among those summed. */
  lemma {:induction false} SumCountsAppend(values: seq<real>, v: real, k: nat)
    ensures SumCounts(values + [v], k) == SumCounts(values, k) + (if 0 <= Bin(v) < k then 1 else 0)
  {
    if k > 0 {
      SumCountsAppend(values, v, k - 1);
      assert (values + [v])[..|values + [v]| - 1] == values;
    }
  }

  /** With no negative voxel every voxel is counted in exactly one bin, so the counts add up to the number of voxels. */
  lemma {:induction false} CountsSumToSize(values: seq<real>)
    requires forall i :: 0 <= i < |values| ==> 0.0 <= values[i]
    ensures SumCounts(values, Bins as nat) == |values|
  {
    if values == [] {
      SumCountsOfNothing(Bins as nat);
    } else {
      var init := values[..|values| - 1];
      CountsSumToSize(init);
      SumCountsAppend(init, values[|values| - 1], Bins as nat);
      assert init + [values[|values| - 1]] == values;
    }
  }
}
