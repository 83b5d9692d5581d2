/**
 * The C# transfer function (Data/TransferFunction.cs, with the node record of
 * Data/TfNode.cs): a list of nodes kept sorted by input value, each with an
 * opacity and a colour on the 0 to 255 scale. A value is looked up by finding
 * the first adjacent pair of nodes that brackets it and interpolating linearly
 * between them. Two tables hold the results at the hundredths 0.00 to 1.00, and
 * a table lookup rounds its query to the nearest hundredth.
 *
 * Table keys are whole numbers of hundredths: key k stands for the value k / 100.
 */
module CsTransferFunctions {
  import opened Numeric
  import opened Vectors
  import VolumeSampling

  /** Data/TfNode.cs. */
  datatype TfNode = TfNode(inputValue: real, outputOpacity: real, outputColor: Vec3)

  /** The adjacent pair of nodes found around a value. */
  datatype Neighbors = Neighbors(lower: TfNode, higher: TfNode)

  /**
   * The exceptions a lookup throws: indexing an empty node list, asking for a
   * value no pair brackets, and a key missing from a table.
   */
  datatype TfError = NoNodes | NotBetweenNodes | KeyNotFound

  datatype Result<T> = Success(value: T) | Failure(error: TfError)

  /** The value of table key k. */
  function Hundredth(k: int): real
  {
    k as real / 100.0
  }

  /** `(float)Math.Round(v, 2)` as a key: the nearest hundredth, a tie going to the even one. */
  function KeyOf(v: real): (k: int)
    ensures Hundredth(k) - 0.005 <= v <= Hundredth(k) + 0.005
  {
    RoundHalfEven(v * 100.0)
  }

  /** A key's own value rounds back to the key. */
  lemma KeyOfHundredth(k: int)
    ensures KeyOf(Hundredth(k)) == k
  {
    assert Hundredth(k) * 100.0 == k as real;
    RoundHalfEvenOfInt(k);
  }

  /** Every value in [0, 1] has a key in [0, 100], so the full table has an entry for it. */
  lemma KeyInTable(v: real)
    requires 0.0 <= v <= 1.0
    ensures 0 <= KeyOf(v) <= 100
  {
    RoundHalfEvenMonotone(0.0, v * 100.0);
    RoundHalfEvenMonotone(v * 100.0, 100.0);
    RoundHalfEvenOfInt(0);
    RoundHalfEvenOfInt(100);
  }

  // ---- The search for the bracketing pair ----

  predicate Brackets(lower: TfNode, higher: TfNode, v: real)
  {
    lower.inputValue <= v && higher.inputValue >= v
  }

  /** The adjacent pair ending at node j. */
  function PairAt(nodes: seq<TfNode>, j: int): Neighbors
    requires 1 <= j < |nodes|
  {
    Neighbors(nodes[j - 1], nodes[j])
  }

  /** The pair ending at node j brackets v. */
  predicate BracketsAt(nodes: seq<TfNode>, j: int, v: real)
  {
    1 <= j < |nodes| && Brackets(nodes[j - 1], nodes[j], v)
  }

  /** The first pair (nodes[i - 1], nodes[i]), from i on, that brackets v. */
  function FirstBracketFrom(nodes: seq<TfNode>, v: real, i: nat): Result<Neighbors>
    requires 1 <= i <= |nodes|
    decreases |nodes| - i
  {
    if i == |nodes| then Failure(NotBetweenNodes)
    else if Brackets(nodes[i - 1], nodes[i], v) then Success(Neighbors(nodes[i - 1], nodes[i]))
    else FirstBracketFrom(nodes, v, i + 1)
  }

  /** What `GetNeighboringNodes` finds: the first bracketing adjacent pair. */
  function NeighboringNodes(nodes: seq<TfNode>, v: real): Result<Neighbors>
  {
    if |nodes| == 0 then Failure(NoNodes) else FirstBracketFrom(nodes, v, 1)
  }

  /** The search from i succeeds exactly when some pair from i on brackets v, and then it is the first such pair. */
  lemma {:induction false} FirstBracketFromMeaning(nodes: seq<TfNode>, v: real, i: nat)
    requires 1 <= i <= |nodes|
    ensures FirstBracketFrom(nodes, v, i).Success? <==> exists j :: i <= j && BracketsAt(nodes, j, v)
    ensures FirstBracketFrom(nodes, v, i).Success? ==>
              exists j :: i <= j && BracketsAt(nodes, j, v) && FirstBracketFrom(nodes, v, i).value == PairAt(nodes, j)
                          && forall l :: i <= l < j ==> !BracketsAt(nodes, l, v)
    ensures FirstBracketFrom(nodes, v, i).Failure? ==> FirstBracketFrom(nodes, v, i).error == NotBetweenNodes
    decreases |nodes| - i
  {
    if i < |nodes| && !Brackets(nodes[i - 1], nodes[i], v) {
      FirstBracketFromMeaning(nodes, v, i + 1);
      var r := FirstBracketFrom(nodes, v, i + 1);
      if r.Success? {
        var j :| i + 1 <= j && BracketsAt(nodes, j, v) && r.value == PairAt(nodes, j)
                 && forall l :: i + 1 <= l < j ==> !BracketsAt(nodes, l, v);
        assert forall l :: i <= l < j ==> !BracketsAt(nodes, l, v);
      }
    } else if i < |nodes| {
      assert BracketsAt(nodes, i, v) && FirstBracketFrom(nodes, v, i).value == PairAt(nodes, i);
    }
  }

  /**
   * The neighbours are the first adjacent pair that brackets v; there are none
   * exactly when the list is empty (`NoNodes`) or no pair brackets v
   * (`NotBetweenNodes`).
   */
  lemma NeighboringNodesMeaning(nodes: seq<TfNode>, v: real)
    ensures NeighboringNodes(nodes, v).Success? <==> exists j :: 1 <= j && BracketsAt(nodes, j, v)
    ensures NeighboringNodes(nodes, v).Success? ==>
              exists j :: 1 <= j && BracketsAt(nodes, j, v) && NeighboringNodes(nodes, v).value == PairAt(nodes, j)
                          && forall l :: 1 <= l < j ==> !BracketsAt(nodes, l, v)
    ensures NeighboringNodes(nodes, v).Failure? ==>
              NeighboringNodes(nodes, v).error == (if |nodes| == 0 then NoNodes else NotBetweenNodes)
  {
    if |nodes| > 0 {
      FirstBracketFromMeaning(nodes, v, 1);
    }
  }

  // ---- Interpolation ----

  /** `LinearInterpolate`; only called on a pair with different inputs. */
  function LinearInterpolate(x: real, x0: real, y0: real, x1: real, y1: real): real
    requires x1 != x0
  {
    y0 + (x - x0) * (y1 - y0) / (x1 - x0)
  }

  /** The formula is interpolation between y0 and y1 at the fraction of the way x lies from x0 to x1. */
  lemma LinearInterpolateIsLerp(x: real, x0: real, y0: real, x1: real, y1: real)
    requires x1 != x0
    ensures LinearInterpolate(x, x0, y0, x1, y1) == VolumeSampling.Lerp(y0, y1, (x - x0) / (x1 - x0))
  {
    var t := (x - x0) / (x1 - x0);
    assert (x - x0) * (y1 - y0) / (x1 - x0) == t * (y1 - y0);
  }

  lemma FractionInUnit(a: real, b: real)
    requires 0.0 <= a <= b && 0.0 < b
    ensures 0.0 <= a / b <= 1.0
  {
    assert a / b * b == a;
  }

  /** The interpolation gives y0 at x0 and y1 at x1, and between them a value within any bounds of both. */
  lemma LinearInterpolateBounded(x: real, x0: real, y0: real, x1: real, y1: real, lo: real, hi: real)
    requires x0 < x1
    ensures LinearInterpolate(x0, x0, y0, x1, y1) == y0 && LinearInterpolate(x1, x0, y0, x1, y1) == y1
    ensures x0 <= x <= x1 && lo <= y0 <= hi && lo <= y1 <= hi ==> lo <= LinearInterpolate(x, x0, y0, x1, y1) <= hi
  {
    assert (x1 - x0) * (y1 - y0) / (x1 - x0) == y1 - y0;
    if x0 <= x <= x1 && lo <= y0 <= hi && lo <= y1 <= hi {
      var t := (x - x0) / (x1 - x0);
      FractionInUnit(x - x0, x1 - x0);
      LinearInterpolateIsLerp(x, x0, y0, x1, y1);
      VolumeSampling.LerpBounded(y0, y1, t, lo, hi);
    }
  }

  /**
   * `GetColorOfIntensity(v, useLookupTable: false)`: the higher node's colour
   * as stored (0 to 255) when the pair has equal inputs, and otherwise the
   * interpolated colour divided by 255.
   */
  function ColorOfIntensity(nodes: seq<TfNode>, v: real): (r: Result<Vec3>)
    ensures r.Success? <==> NeighboringNodes(nodes, v).Success?
  {
    var found := NeighboringNodes(nodes, v);
    if found.Failure? then Failure(found.error)
    else
      var lower := found.value.lower;
      var higher := found.value.higher;
      if higher.inputValue == lower.inputValue then Success(higher.outputColor)
      else
        var red := LinearInterpolate(v, lower.inputValue, lower.outputColor.x, higher.inputValue, higher.outputColor.x);
        var green := LinearInterpolate(v, lower.inputValue, lower.outputColor.y, higher.inputValue, higher.outputColor.y);
        var blue := LinearInterpolate(v, lower.inputValue, lower.outputColor.z, higher.inputValue, higher.outputColor.z);
        Success(Vec3(red / 255.0, green / 255.0, blue / 255.0))
  }

  /** `GetOpacityOfIntensity(v, useLookupTable: false)`. */
  function OpacityOfIntensity(nodes: seq<TfNode>, v: real): (r: Result<real>)
    ensures r.Success? <==> NeighboringNodes(nodes, v).Success?
  {
    var found := NeighboringNodes(nodes, v);
    if found.Failure? then Failure(found.error)
    else
      var lower := found.value.lower;
      var higher := found.value.higher;
      if higher.inputValue == lower.inputValue then Success(higher.outputOpacity)
      else Success(LinearInterpolate(v, lower.inputValue, lower.outputOpacity, higher.inputValue, higher.outputOpacity))
  }

  /** Every channel of a colour lies in [lo, hi]. */
  predicate ColorWithin(c: Vec3, lo: real, hi: real)
  {
    lo <= c.x <= hi && lo <= c.y <= hi && lo <= c.z <= hi
  }

  /** Every node's colour is on the 0 to 255 scale and its opacity in [0, 1]. */
  predicate NodesInRange(nodes: seq<TfNode>)
  {
    forall i :: 0 <= i < |nodes| ==>
      ColorWithin(nodes[i].outputColor, 0.0, 255.0) && 0.0 <= nodes[i].outputOpacity <= 1.0
  }

  /**
   * With nodes in range the opacity is in [0, 1]; the colour is in [0, 1]
   * when interpolated and on the 0 to 255 scale when the pair's inputs are
   * equal.
   */
  lemma IntensityBounded(nodes: seq<TfNode>, v: real)
    requires NodesInRange(nodes)
    ensures OpacityOfIntensity(nodes, v).Success? ==> 0.0 <= OpacityOfIntensity(nodes, v).value <= 1.0
    ensures ColorOfIntensity(nodes, v).Success? ==> ColorWithin(ColorOfIntensity(nodes, v).value, 0.0, 255.0)
    ensures var found := NeighboringNodes(nodes, v);
            found.Success? && found.value.lower.inputValue != found.value.higher.inputValue
            ==> ColorWithin(ColorOfIntensity(nodes, v).value, 0.0, 1.0)
  {
    NeighboringNodesMeaning(nodes, v);
    var found := NeighboringNodes(nodes, v);
    if found.Success? {
      var j :| 1 <= j && BracketsAt(nodes, j, v) && found.value == PairAt(nodes, j);
      var lower, higher := nodes[j - 1], nodes[j];
      assert ColorWithin(lower.outputColor, 0.0, 255.0) && 0.0 <= lower.outputOpacity <= 1.0;
      assert ColorWithin(higher.outputColor, 0.0, 255.0) && 0.0 <= higher.outputOpacity <= 1.0;
      if lower.inputValue != higher.inputValue {
        var x0, x1 := lower.inputValue, higher.inputValue;
        LinearInterpolateBounded(v, x0, lower.outputOpacity, x1, higher.outputOpacity, 0.0, 1.0);
        LinearInterpolateBounded(v, x0, lower.outputColor.x, x1, higher.outputColor.x, 0.0, 255.0);
        LinearInterpolateBounded(v, x0, lower.outputColor.y, x1, higher.outputColor.y, 0.0, 255.0);
        LinearInterpolateBounded(v, x0, lower.outputColor.z, x1, higher.outputColor.z, 0.0, 255.0);
      }
    }
  }

  /**
   * Two nodes at the same input: at that input the colour comes back on the
   * 0 to 255 scale, just above it on the 0 to 1 scale.
   */
  lemma EqualInputsGiveRawColor()
    ensures var nodes := [TfNode(0.0, 0.0, Vec3(0.0, 0.0, 0.0)), TfNode(0.0, 1.0, Vec3(255.0, 255.0, 255.0)),
                          TfNode(1.0, 1.0, Vec3(255.0, 255.0, 255.0))];
            && ColorOfIntensity(nodes, 0.0) == Success(Vec3(255.0, 255.0, 255.0))
            && ColorOfIntensity(nodes, 0.5) == Success(Vec3(1.0, 1.0, 1.0))
  {
    var nodes := [TfNode(0.0, 0.0, Vec3(0.0, 0.0, 0.0)), TfNode(0.0, 1.0, Vec3(255.0, 255.0, 255.0)),
                  TfNode(1.0, 1.0, Vec3(255.0, 255.0, 255.0))];
    assert NeighboringNodes(nodes, 0.0) == Success(Neighbors(nodes[0], nodes[1]));
    assert NeighboringNodes(nodes, 0.5) == Success(Neighbors(nodes[1], nodes[2]));
  }

  // ---- The default nodes ----

  /** The two nodes a new transfer function starts with: black and transparent at 0, white and opaque at 1. */
  function DefaultNodes(): seq<TfNode>
  {
    [TfNode(0.0, 0.0, Vec3(0.0, 0.0, 0.0)), TfNode(1.0, 1.0, Vec3(255.0, 255.0, 255.0))]
  }

  /** The default function is the grey ramp: value v gives colour (v, v, v) and opacity v on [0, 1], and throws outside. */
  lemma DefaultIsGreyRamp(v: real)
    ensures 0.0 <= v <= 1.0 ==> ColorOfIntensity(DefaultNodes(), v) == Success(Vec3(v, v, v))
    ensures 0.0 <= v <= 1.0 ==> OpacityOfIntensity(DefaultNodes(), v) == Success(v)
    ensures !(0.0 <= v <= 1.0) ==> ColorOfIntensity(DefaultNodes(), v) == Failure(NotBetweenNodes)
  {
    var nodes := DefaultNodes();
    if 0.0 <= v <= 1.0 {
      assert NeighboringNodes(nodes, v) == Success(Neighbors(nodes[0], nodes[1]));
      assert LinearInterpolate(v, 0.0, 0.0, 1.0, 255.0) == v * 255.0;
    } else {
      assert NeighboringNodes(nodes, v) == FirstBracketFrom(nodes, v, 2);
    }
  }

  // ---- Sorting ----

  predicate SortedByInput(nodes: seq<TfNode>)
  {
    forall i, j :: 0 <= i < j < |nodes| ==> nodes[i].inputValue <= nodes[j].inputValue
  }

  /**
   * One step of the library insertion sort: the node goes before the first
   * node with a strictly larger input, so after every node with an equal one.
   */
  function Insert(sorted: seq<TfNode>, node: TfNode): (r: seq<TfNode>)
    ensures |r| == |sorted| + 1 && (r[0] == node || (sorted != [] && r[0] == sorted[0]))
    ensures multiset(r) == multiset(sorted) + multiset{node}
  {
    if sorted == [] then [node]
    else if node.inputValue < sorted[0].inputValue then [node] + sorted
    else
      assert sorted == [sorted[0]] + sorted[1..];
      [sorted[0]] + Insert(sorted[1..], node)
  }

  /** Inserting into a sorted list keeps it sorted. */
  lemma {:induction false} InsertSorted(sorted: seq<TfNode>, node: TfNode)
    requires SortedByInput(sorted)
    ensures SortedByInput(Insert(sorted, node))
  {
    if sorted != [] && node.inputValue >= sorted[0].inputValue {
      InsertSorted(sorted[1..], node);
      var rest := Insert(sorted[1..], node);
      assert sorted[0].inputValue <= rest[0].inputValue;
      assert Insert(sorted, node) == [sorted[0]] + rest;
    }
  }

  /** A node whose input is at least every input of a list is inserted at its end. */
  lemma {:induction false} InsertAtEnd(sorted: seq<TfNode>, node: TfNode)
    requires forall i :: 0 <= i < |sorted| ==> sorted[i].inputValue <= node.inputValue
    ensures Insert(sorted, node) == sorted + [node]
  {
    if sorted != [] {
      InsertAtEnd(sorted[1..], node);
      assert sorted == [sorted[0]] + sorted[1..];
    }
  }

  /** The library's insertion sort: each node in turn is inserted into the sorted prefix before it. */
  function InsertionSort(nodes: seq<TfNode>): (r: seq<TfNode>)
    ensures |r| == |nodes| && multiset(r) == multiset(nodes)
  {
    if nodes == [] then []
    else
      assert nodes == nodes[..|nodes| - 1] + [nodes[|nodes| - 1]];
      Insert(InsertionSort(nodes[..|nodes| - 1]), nodes[|nodes| - 1])
  }

  /** The insertion sort gives an ascending list. */
  lemma {:induction false} InsertionSortSorted(nodes: seq<TfNode>)
    ensures SortedByInput(InsertionSort(nodes))
  {
    if nodes != [] {
      InsertionSortSorted(nodes[..|nodes| - 1]);
      InsertSorted(InsertionSort(nodes[..|nodes| - 1]), nodes[|nodes| - 1]);
    }
  }

  /** The insertion sort leaves an ascending list as it is. */
  lemma {:induction false} InsertionSortKeepsSorted(nodes: seq<TfNode>)
    requires SortedByInput(nodes)
    ensures InsertionSort(nodes) == nodes
  {
    if nodes != [] {
      var prefix := nodes[..|nodes| - 1];
      assert SortedByInput(prefix);
      InsertionSortKeepsSorted(prefix);
      InsertAtEnd(prefix, nodes[|nodes| - 1]);
      assert prefix + [nodes[|nodes| - 1]] == nodes;
    }
  }

  /** The library's compare-and-swap step: positions i and j swap when the input at i is strictly larger. */
  function SwapIfGreater(nodes: seq<TfNode>, i: int, j: int): (r: seq<TfNode>)
    requires 0 <= i < j < |nodes|
    ensures |r| == |nodes| && multiset(r) == multiset(nodes)
    ensures r[i].inputValue <= r[j].inputValue
  {
    if nodes[i].inputValue > nodes[j].inputValue then nodes[i := nodes[j]][j := nodes[i]] else nodes
  }

  /**
   * `SortListOfTfNodes`: `List.Sort` with the comparison of input values.
   * The library sorts two or three elements with compare-and-swap steps
   * (positions 0-1, then 0-2 and 1-2) and up to 16 elements by insertion.
   */
  function SortByInput(nodes: seq<TfNode>): (r: seq<TfNode>)
    ensures |r| == |nodes| && multiset(r) == multiset(nodes)
  {
    if |nodes| == 2 then SwapIfGreater(nodes, 0, 1)
    else if |nodes| == 3 then SwapIfGreater(SwapIfGreater(SwapIfGreater(nodes, 0, 1), 0, 2), 1, 2)
    else InsertionSort(nodes)
  }

  /** The sorted list is ascending by input value. */
  lemma SortByInputSorted(nodes: seq<TfNode>)
    ensures SortedByInput(SortByInput(nodes))
  {
    if |nodes| == 3 {
      var s1 := SwapIfGreater(nodes, 0, 1);
      var s2 := SwapIfGreater(s1, 0, 2);
      var s3 := SwapIfGreater(s2, 1, 2);
      assert s2[0].inputValue <= s2[1].inputValue;
      assert s3[0] == s2[0];
    } else if |nodes| != 2 {
      InsertionSortSorted(nodes);
    }
  }

  /**
   * An ascending list is left as it is: in particular a node added with an
   * input at least every other input stays last, after nodes with the same
   * input.
   */
  lemma SortByInputKeepsSorted(nodes: seq<TfNode>)
    requires SortedByInput(nodes)
    ensures SortByInput(nodes) == nodes
  {
    if |nodes| != 2 && |nodes| != 3 {
      InsertionSortKeepsSorted(nodes);
    }
  }

  /**
   * A node added to the default function at input 1 sorts after the white
   * node, so below 1 the function is still the grey ramp.
   */
  lemma AddAtTopKeepsRamp(opacity: real, color: Vec3, v: real)
    requires 0.0 <= v < 1.0
    ensures var nodes := SortByInput(DefaultNodes() + [TfNode(1.0, opacity, color)]);
            nodes == DefaultNodes() + [TfNode(1.0, opacity, color)] &&
            ColorOfIntensity(nodes, v) == Success(Vec3(v, v, v))
  {
    var nodes := DefaultNodes() + [TfNode(1.0, opacity, color)];
    SortByInputKeepsSorted(nodes);
    assert NeighboringNodes(nodes, v) == Success(Neighbors(nodes[0], nodes[1]));
    assert LinearInterpolate(v, 0.0, 0.0, 1.0, 255.0) == v * 255.0;
  }

  // ---- The lookup tables ----

  /** Every key 0 to 100 has neighbours, so the table loop runs to the end. */
  ghost predicate Covered(nodes: seq<TfNode>)
  {
    forall k :: 0 <= k <= 100 ==> NeighboringNodes(nodes, Hundredth(k)).Success?
  }

  /** The colour table over the keys below n. */
  function ColorTableUpTo(nodes: seq<TfNode>, n: int): (t: map<int, Vec3>)
    requires forall k :: 0 <= k < n ==> NeighboringNodes(nodes, Hundredth(k)).Success?
  {
    map k | 0 <= k < n :: ColorOfIntensity(nodes, Hundredth(k)).value
  }

  /** The opacity table over the keys below n. */
  function OpacityTableUpTo(nodes: seq<TfNode>, n: int): (t: map<int, real>)
    requires forall k :: 0 <= k < n ==> NeighboringNodes(nodes, Hundredth(k)).Success?
  {
    map k | 0 <= k < n :: OpacityOfIntensity(nodes, Hundredth(k)).value
  }

  /** `_colorLookupTable[(float)Math.Round(v, 2)]`. */
  function Lookup<T>(table: map<int, T>, v: real): Result<T>
  {
    if KeyOf(v) in table then Success(table[KeyOf(v)]) else Failure(KeyNotFound)
  }

  /**
   * A full table answers a query with the direct result at the query's
   * nearest hundredth when that lies in [0, 1] (always the case for a query in
   * [0, 1]), and throws `KeyNotFound` otherwise.
   */
  lemma LookupMatchesDirect(nodes: seq<TfNode>, v: real)
    requires Covered(nodes)
    ensures 0 <= KeyOf(v) <= 100 ==>
              && Lookup(ColorTableUpTo(nodes, 101), v) == ColorOfIntensity(nodes, Hundredth(KeyOf(v)))
              && Lookup(OpacityTableUpTo(nodes, 101), v) == OpacityOfIntensity(nodes, Hundredth(KeyOf(v)))
    ensures !(0 <= KeyOf(v) <= 100) ==>
              Lookup(ColorTableUpTo(nodes, 101), v) == Failure(KeyNotFound)
              && Lookup(OpacityTableUpTo(nodes, 101), v) == Failure(KeyNotFound)
    ensures 0.0 <= v <= 1.0 ==> 0 <= KeyOf(v) <= 100
  {
    if 0.0 <= v <= 1.0 {
      KeyInTable(v);
    }
  }

  /** At a key itself the table holds exactly the direct result. */
  lemma TableExactAtKeys(nodes: seq<TfNode>, k: int)
    requires Covered(nodes) && 0 <= k <= 100
    ensures Lookup(ColorTableUpTo(nodes, 101), Hundredth(k)) == ColorOfIntensity(nodes, Hundredth(k))
    ensures Lookup(OpacityTableUpTo(nodes, 101), Hundredth(k)) == OpacityOfIntensity(nodes, Hundredth(k))
  {
    KeyOfHundredth(k);
  }

  /** The default nodes cover every key. */
  lemma DefaultCovered()
    ensures Covered(DefaultNodes())
  {
    forall k | 0 <= k <= 100
      ensures NeighboringNodes(DefaultNodes(), Hundredth(k)).Success?
    {
      DefaultIsGreyRamp(Hundredth(k));
    }
  }

  class TransferFunction {
    var nodes: seq<TfNode>
    var colorLookupTable: map<int, Vec3>
    var opacityLookupTable: map<int, real>

    /** Two nodes, black and transparent at 0, white and opaque at 1, and tables built from them. */
    constructor ()
      ensures nodes == DefaultNodes() && Covered(nodes)
      ensures colorLookupTable == ColorTableUpTo(nodes, 101) && opacityLookupTable == OpacityTableUpTo(nodes, 101)
    {
      nodes := DefaultNodes();
      colorLookupTable, opacityLookupTable := map[], map[];
      new;
      DefaultCovered();
      var thrown := RecalculateLookupTables();
    }

    /** `GetColorOfIntensity`: the table entry at the nearest hundredth, or the direct result. */
    function GetColorOfIntensity(voxelValue: real, useLookupTable: bool): (r: Result<Vec3>)
      reads this
      ensures !useLookupTable ==> r == ColorOfIntensity(nodes, voxelValue)
      ensures useLookupTable ==> (r.Success? <==> KeyOf(voxelValue) in colorLookupTable)
    {
      if useLookupTable then Lookup(colorLookupTable, voxelValue)
      else ColorOfIntensity(nodes, voxelValue)
    }

    /** `GetOpacityOfIntensity`: the table entry at the nearest hundredth, or the direct result. */
    function GetOpacityOfIntensity(voxelValue: real, useLookupTable: bool): (r: Result<real>)
      reads this
      ensures !useLookupTable ==> r == OpacityOfIntensity(nodes, voxelValue)
      ensures useLookupTable ==> (r.Success? <==> KeyOf(voxelValue) in opacityLookupTable)
    {
      if useLookupTable then Lookup(opacityLookupTable, voxelValue)
      else OpacityOfIntensity(nodes, voxelValue)
    }

    /**
     * `RecalculateLookupTables`: fresh tables, then the direct colour and
     * opacity at 0.00, 0.01, ..., 1.00 (the decimal loop variable is k / 100
     * exactly). A key without neighbours throws, leaving the keys before it.
     * The new tables depend on the nodes alone, so a second run without a node
     * change rebuilds the same tables.
     */
    method RecalculateLookupTables() returns (thrown: bool)
      modifies this`colorLookupTable, this`opacityLookupTable
      ensures thrown <==> !Covered(nodes)
      ensures !thrown ==> colorLookupTable == ColorTableUpTo(nodes, 101) && opacityLookupTable == OpacityTableUpTo(nodes, 101)
      ensures thrown ==> exists k :: 0 <= k <= 100 && !NeighboringNodes(nodes, Hundredth(k)).Success?
                          && (forall j :: 0 <= j < k ==> NeighboringNodes(nodes, Hundredth(j)).Success?)
                          && colorLookupTable == ColorTableUpTo(nodes, k) && opacityLookupTable == OpacityTableUpTo(nodes, k)
    {
      colorLookupTable, opacityLookupTable := map[], map[];
      var k := 0;
      while k <= 100
        invariant 0 <= k <= 101
        invariant forall j :: 0 <= j < k ==> NeighboringNodes(nodes, Hundredth(j)).Success?
        invariant colorLookupTable == ColorTableUpTo(nodes, k) && opacityLookupTable == OpacityTableUpTo(nodes, k)
      {
        var floatValue := Hundredth(k);
        var color := GetColorOfIntensity(floatValue, false);
        if color.Failure? {
          return true;
        }
        colorLookupTable := colorLookupTable[k := color.value];
        var opacity := GetOpacityOfIntensity(floatValue, false).value;
        opacityLookupTable := opacityLookupTable[k := opacity];
        k := k + 1;
      }
      return false;
    }

    /**
     * `AddNode`: the new node joins the list and the list is sorted again.
     * The tables are not rebuilt.
     */
    method AddNode(inputValue: real, outputOpacity: real, outputColor: Vec3)
      modifies this`nodes
      ensures |nodes| == |old(nodes)| + 1 && SortedByInput(nodes)
      ensures multiset(nodes) == multiset(old(nodes)) + multiset{TfNode(inputValue, outputOpacity, outputColor)}
      ensures nodes == SortByInput(old(nodes) + [TfNode(inputValue, outputOpacity, outputColor)])
    {
      var newNode := TfNode(inputValue, outputOpacity, outputColor);
      assert multiset(nodes + [newNode]) == multiset(nodes) + multiset{newNode};
      nodes := nodes + [newNode];
      SortListOfTfNodes();
    }

    /** `SortListOfTfNodes`: the same nodes, ascending by input value. */
    method SortListOfTfNodes()
      modifies this`nodes
      ensures SortedByInput(nodes) && multiset(nodes) == multiset(old(nodes))
      ensures nodes == SortByInput(old(nodes))
    {
      SortByInputSorted(nodes);
      nodes := SortByInput(nodes);
    }

    /**
     * `GetNeighboringNodes`: walks the adjacent pairs from the front and
     * returns the first that brackets the value.
     */
    method GetNeighboringNodes(voxelValue: real) returns (r: Result<Neighbors>)
      ensures r == NeighboringNodes(nodes, voxelValue)
    {
      if |nodes| == 0 {
        // `Nodes[0]` on an empty list throws.
        return Failure(NoNodes);
      }
      var previousNode := nodes[0];
      var i := 1;
      while i < |nodes|
        invariant 1 <= i <= |nodes| && previousNode == nodes[i - 1]
        invariant NeighboringNodes(nodes, voxelValue) == FirstBracketFrom(nodes, voxelValue, i)
      {
        var currentNode := nodes[i];
        if previousNode.inputValue <= voxelValue && currentNode.inputValue >= voxelValue {
          return Success(Neighbors(previousNode, currentNode));
        }
        previousNode := currentNode;
        i := i + 1;
      }
      return Failure(NotBetweenNodes);
    }
  }
}
