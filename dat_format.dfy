/**
 * The .dat volume file format read by `loadVolumeDat` (cpp-renderer/Volume.h):
 * three little-endian 16-bit words (width, height, depth) followed by one
 * little-endian 16-bit word per voxel, x fastest, then y, then z.
 *
 * `Decode` is the reader with the end-of-data check done before each voxel
 * is read; `LoadAsWritten` follows the program's stream calls, which test
 * `eof()` before a read rather than after it (see `TruncatedFileLoads`).
 */
module DatFormat {

  newtype byte = x: int | 0 <= x < 256

  datatype Option<T> = None | Some(value: T)

  /** `BYTE2INT(b0, b1)` with little-endian data: the unsigned word b0 + 256 · b1. */
  function Byte2Int(b0: byte, b1: byte): (r: int)
    ensures 0 <= r <= 65535
  {
    (b1 as int) * 256 + b0 as int
  }

  /** The two bytes of a 16-bit word, low byte first. */
  function WordBytes(w: int): (bytes: (byte, byte))
    requires 0 <= w <= 65535
  {
    ((w % 256) as byte, (w / 256) as byte)
  }

  /** Decoding a word's bytes gives back the word, and encoding a decoded pair gives back the pair. */
  lemma Byte2IntRoundTrip(b0: byte, b1: byte, w: int)
    requires 0 <= w <= 65535
    ensures WordBytes(Byte2Int(b0, b1)) == (b0, b1)
    ensures Byte2Int(WordBytes(w).0, WordBytes(w).1) == w
  {
  }

  datatype DatFile = DatFile(width: int, height: int, depth: int, raw: seq<int>)

  /** Sizes and voxels that fit in 16-bit words, one voxel per cell of the grid. */
  predicate WellFormed(f: DatFile)
  {
    && 0 <= f.width <= 65535 && 0 <= f.height <= 65535 && 0 <= f.depth <= 65535
    && |f.raw| == f.width * f.height * f.depth
    && forall i :: 0 <= i < |f.raw| ==> 0 <= f.raw[i] <= 65535
  }

  datatype Error = PrematureEndOfHeader | PrematureEndOfData

  datatype Result<T> = Success(value: T) | Failure(error: Error)

  /** The number of voxels of a grid. */
  function VoxelNum(width: nat, height: nat, depth: nat): nat
  {
    width * height * depth
  }

  /** The word stored at byte offset `at`. */
  function Word(data: seq<byte>, at: nat): int
    requires at + 2 <= |data|
  {
    Byte2Int(data[at], data[at + 1])
  }

  /** The file read with the end of data detected before it is needed. */
  function Decode(data: seq<byte>): (r: Result<DatFile>)
    ensures r.Success? ==> WellFormed(r.value)
    ensures r.Success? ==> 6 + 2 * |r.value.raw| <= |data|
  {
    if |data| < 6 then Failure(PrematureEndOfHeader)
    else
      var width, height, depth := Word(data, 0), Word(data, 2), Word(data, 4);
      var n := width * height * depth;
      if |data| < 6 + 2 * n then Failure(PrematureEndOfData)
      else Success(DatFile(width, height, depth, seq(n, i requires 0 <= i < n => Word(data, 6 + 2 * i))))
  }

  /** The bytes of a sequence of words. */
  function EncodeWords(words: seq<int>): (bytes: seq<byte>)
    requires forall i :: 0 <= i < |words| ==> 0 <= words[i] <= 65535
    ensures |bytes| == 2 * |words|
    ensures forall i :: 0 <= i < |words| ==> (bytes[2 * i], bytes[2 * i + 1]) == WordBytes(words[i])
  {
    if words == [] then []
    else
      var (lo, hi) := WordBytes(words[0]);
      [lo, hi] + EncodeWords(words[1..])
  }

  /** A file as the format lays it out. */
  function Encode(f: DatFile): (bytes: seq<byte>)
    requires WellFormed(f)
    ensures |bytes| == 6 + 2 * |f.raw|
  {
    EncodeWords([f.width, f.height, f.depth]) + EncodeWords(f.raw)
  }

  /** Reading a file written in the format gives it back, whatever bytes follow it. */
  lemma DecodeEncode(f: DatFile, trailing: seq<byte>)
    requires WellFormed(f)
    ensures Decode(Encode(f) + trailing) == Success(f)
  {
    var data := Encode(f) + trailing;
    var header := EncodeWords([f.width, f.height, f.depth]);
    var body := EncodeWords(f.raw);
    assert data == header + body + trailing;
    Byte2IntRoundTrip(0, 0, f.width);
    Byte2IntRoundTrip(0, 0, f.height);
    Byte2IntRoundTrip(0, 0, f.depth);
    assert Word(data, 0) == f.width && Word(data, 2) == f.height && Word(data, 4) == f.depth;
    var r := Decode(data);
    assert r.Success?;
    forall i | 0 <= i < |f.raw|
      ensures r.value.raw[i] == f.raw[i]
    {
      assert data[6 + 2 * i] == body[2 * i] && data[6 + 2 * i + 1] == body[2 * i + 1];
      Byte2IntRoundTrip(0, 0, f.raw[i]);
    }
    assert r.value == f;
  }

  /** Words read from the data at `at` encode back to the bytes they were read from. */
  lemma {:induction false} EncodeWordsRead(words: seq<int>, data: seq<byte>, at: nat)
    requires at + 2 * |words| <= |data|
    requires forall i :: 0 <= i < |words| ==> words[i] == Word(data, at + 2 * i)
    ensures forall i :: 0 <= i < |words| ==> 0 <= words[i] <= 65535
    ensures EncodeWords(words) == data[at..at + 2 * |words|]
  {
    if words != [] {
      var rest := words[1..];
      assert forall i :: 0 <= i < |rest| ==> rest[i] == words[i + 1];
      EncodeWordsRead(rest, data, at + 2);
      Byte2IntRoundTrip(data[at], data[at + 1], 0);
      assert data[at..at + 2 * |words|] == [data[at], data[at + 1]] + data[at + 2..at + 2 + 2 * |rest|];
    }
  }

  /** A successfully read file is the encoding of what was read, followed by whatever came after it. */
  lemma EncodeDecode(data: seq<byte>)
    requires Decode(data).Success?
    ensures var f := Decode(data).value;
            Encode(f) == data[..6 + 2 * |f.raw|]
  {
    var f := Decode(data).value;
    var n := |f.raw|;
    EncodeWordsRead([f.width, f.height, f.depth], data, 0);
    EncodeWordsRead(f.raw, data, 6);
    assert data[..6 + 2 * n] == data[0..6] + data[6..6 + 2 * n];
  }

  // ---- The stream calls as the program makes them ----

  /** An input file stream: the bytes, the read position and the end-of-file flag. */
  datatype Stream = Stream(data: seq<byte>, pos: nat, eof: bool)

  /** The two-byte `buffer` the words are read into. */
  datatype Buffer = Buffer(b0: byte, b1: byte)

  predicate StreamValid(s: Stream)
  {
    s.pos <= |s.data|
  }

  /**
   * `fileIn.read(buffer, 2)`: two bytes when two are left. With fewer, the
   * bytes that are left are copied, the rest of the buffer keeps its old
   * contents and end-of-file is set; once it is set nothing more is read.
   */
  function Read2(s: Stream, buffer: Buffer): (r: (Stream, Buffer))
    requires StreamValid(s)
    ensures StreamValid(r.0) && r.0.data == s.data && s.pos <= r.0.pos
    ensures !r.0.eof ==> r.0.pos == s.pos + 2 && r.1 == Buffer(s.data[s.pos], s.data[s.pos + 1])
  {
    if s.eof then (s, buffer)
    else if s.pos + 2 <= |s.data| then (s.(pos := s.pos + 2), Buffer(s.data[s.pos], s.data[s.pos + 1]))
    else if s.pos + 1 == |s.data| then (Stream(s.data, s.pos + 1, true), buffer.(b0 := s.data[s.pos]))
    else (s.(eof := true), buffer)
  }

  /**
   * The voxel loop as written: `eof()` is tested before each read, and the
   * word is taken from the buffer whatever the read delivered.
   */
  function VoxelsAsWritten(s: Stream, buffer: Buffer, remaining: nat): Option<seq<int>>
    requires StreamValid(s)
    decreases remaining
  {
    if remaining == 0 then Some([])
    else if s.eof then None
    else
      var r := Read2(s, buffer);
      match VoxelsAsWritten(r.0, r.1, remaining - 1)
      case None => None
      case Some(rest) => Some([Byte2Int(r.1.b0, r.1.b1)] + rest)
  }

  /**
   * `loadVolumeDat` as written, on an opened file: three header reads, then
   * the voxel loop. `initial` is the buffer's content before the first read.
   */
  function LoadAsWritten(data: seq<byte>, initial: Buffer): Option<DatFile>
  {
    var r1 := Read2(Stream(data, 0, false), initial);
    var r2 := Read2(r1.0, r1.1);
    var r3 := Read2(r2.0, r2.1);
    var width, height, depth := Byte2Int(r1.1.b0, r1.1.b1), Byte2Int(r2.1.b0, r2.1.b1), Byte2Int(r3.1.b0, r3.1.b1);
    match VoxelsAsWritten(r3.0, r3.1, VoxelNum(width, height, depth))
    case None => None
    case Some(raw) => Some(DatFile(width, height, depth, raw))
  }

  /** On data long enough for every voxel, the loop as written reads each word in turn. */
  lemma {:induction false} VoxelsAsWrittenComplete(data: seq<byte>, k: nat, n: nat, buffer: Buffer)
    requires k <= n && 6 + 2 * n <= |data|
    ensures var r := VoxelsAsWritten(Stream(data, 6 + 2 * k, false), buffer, n - k);
            && r.Some? && |r.value| == n - k
            && forall i :: 0 <= i < n - k ==> r.value[i] == Word(data, 6 + 2 * (k + i))
    decreases n - k
  {
    if k < n {
      var s := Stream(data, 6 + 2 * k, false);
      var r := Read2(s, buffer);
      assert r.0 == Stream(data, 6 + 2 * (k + 1), false);
      assert Byte2Int(r.1.b0, r.1.b1) == Word(data, 6 + 2 * k);
      VoxelsAsWrittenComplete(data, k + 1, n, r.1);
    }
  }

  /** Where the decoder succeeds, the program loads the same file. */
  lemma AsWrittenAgreesOnCompleteFiles(data: seq<byte>, initial: Buffer)
    requires Decode(data).Success?
    ensures LoadAsWritten(data, initial) == Some(Decode(data).value)
  {
    var f := Decode(data).value;
    var r1 := Read2(Stream(data, 0, false), initial);
    var r2 := Read2(r1.0, r1.1);
    var r3 := Read2(r2.0, r2.1);
    assert r3.0 == Stream(data, 6 + 2 * 0, false);
    assert Byte2Int(r1.1.b0, r1.1.b1) == f.width && Byte2Int(r2.1.b0, r2.1.b1) == f.height;
    assert Byte2Int(r3.1.b0, r3.1.b1) == f.depth;
    var n := VoxelNum(f.width, f.height, f.depth);
    assert n - 0 == |f.raw|;
    VoxelsAsWrittenComplete(data, 0, n, r3.1);
    var r := VoxelsAsWritten(r3.0, r3.1, n);
    assert r.value == f.raw;
    assert f == DatFile(f.width, f.height, f.depth, f.raw);
  }

  /** Past the last byte, one more voxel is read and takes the word left in the buffer. */
  lemma StaleVoxel(data: seq<byte>, buffer: Buffer)
    requires |data| == 6
    ensures VoxelsAsWritten(Stream(data, 6, false), buffer, 1) == Some([Byte2Int(buffer.b0, buffer.b1)])
  {
    var r := Read2(Stream(data, 6, false), buffer);
    assert r == (Stream(data, 6, true), buffer);
    assert VoxelsAsWritten(r.0, r.1, 0) == Some([]);
    assert [Byte2Int(buffer.b0, buffer.b1)] + [] == [Byte2Int(buffer.b0, buffer.b1)];
  }

  /** On a complete header the three header reads leave the stream at the first voxel, with the depth word in the buffer. */
  lemma HeaderAsWritten(data: seq<byte>, initial: Buffer)
    requires 6 <= |data|
    ensures var r1 := Read2(Stream(data, 0, false), initial);
            var r2 := Read2(r1.0, r1.1);
            var r3 := Read2(r2.0, r2.1);
            && Byte2Int(r1.1.b0, r1.1.b1) == Word(data, 0)
            && Byte2Int(r2.1.b0, r2.1.b1) == Word(data, 2)
            && r3 == (Stream(data, 6, false), Buffer(data[4], data[5]))
  {
  }

  /** A file that is only a 1 x 1 x 1 header loads, with the depth word as its voxel. */
  lemma HeaderOnlyLoads(data: seq<byte>, initial: Buffer)
    requires |data| == 6 && Word(data, 0) == 1 && Word(data, 2) == 1 && Word(data, 4) == 1
    ensures LoadAsWritten(data, initial) == Some(DatFile(1, 1, 1, [1]))
  {
    HeaderAsWritten(data, initial);
    assert VoxelNum(1, 1, 1) == 1;
    StaleVoxel(data, Buffer(data[4], data[5]));
  }

  /**
   * A 1 x 1 x 1 header with no voxel data at all: the program reports
   * success and takes the voxel from the header bytes left in the buffer,
   * while the decoder reports the premature end.
   */
  lemma TruncatedFileLoads(initial: Buffer)
    ensures LoadAsWritten([1, 0, 1, 0, 1, 0], initial) == Some(DatFile(1, 1, 1, [1]))
    ensures Decode([1, 0, 1, 0, 1, 0]) == Failure(PrematureEndOfData)
  {
    var data: seq<byte> := [1, 0, 1, 0, 1, 0];
    assert Word(data, 0) == 1 && Word(data, 2) == 1 && Word(data, 4) == 1;
    HeaderOnlyLoads(data, initial);
  }
}
