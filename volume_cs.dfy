/**
 * The C# volume (Data/Volume.cs): three public sizes and a three-dimensional
 * integer array allocated by the constructor. Loading from a file is a stub
 * that returns a 1 x 1 x 1 volume whatever the file name.
 */
module CsVolumes {

  class Volume {
    var XSize: int
    var YSize: int
    var ZSize: int
    var Contents: array3<int>

    /** The array has the dimensions the size fields record. */
    ghost predicate Valid()
      reads this
    {
      0 <= XSize && 0 <= YSize && 0 <= ZSize
      && Contents.Length0 == XSize && Contents.Length1 == YSize && Contents.Length2 == ZSize
    }

    /** Every voxel holds 0, as a freshly allocated .NET array does. */
    ghost predicate AllZero()
      reads this, Contents
    {
      forall i, j, k :: 0 <= i < Contents.Length0 && 0 <= j < Contents.Length1 && 0 <= k < Contents.Length2
        ==> Contents[i, j, k] == 0
    }

    /** An empty volume of the given dimensions. */
    constructor (xSize: nat, ySize: nat, zSize: nat)
      ensures Valid() && fresh(Contents)
      ensures XSize == xSize && YSize == ySize && ZSize == zSize
      ensures AllZero()
    {
      XSize := xSize;
      YSize := ySize;
      ZSize := zSize;
      Contents := new int[xSize, ySize, zSize]((i, j, k) => 0);
    }
  }

  /** `LoadFromDatFile`: the file name is ignored and a fresh 1 x 1 x 1 volume of 0 is returned. */
  method LoadFromDatFile(filename: string) returns (v: Volume)
    ensures fresh(v) && fresh(v.Contents) && v.Valid() && v.AllZero()
    ensures v.XSize == 1 && v.YSize == 1 && v.ZSize == 1
  {
    v := new Volume(1, 1, 1);
  }
}
