/**
 * `ChunkReaderWriterImpl_Integer`: reads and writes one chunk of Java `int`s
 * as a compressed blob of 4-byte big-endian groups. The file system is a map
 * from path to file contents held by a `FileSystem` object; the compressor is
 * a pair of byte transformations whose round trip is stated as a requirement
 * where it is needed, not assumed.
 */
module IntegerChunkIO {
  import opened Wrappers
  import opened BigEndian

  type Path = string

  /**
   * A compressor seen from outside: `compress` turns a byte stream into the
   * bytes stored in a file; `uncompress` turns file contents back into a byte
   * stream, or fails (`None`) on contents it cannot read.
   */
  datatype Codec = Codec(compress: Bytes -> Bytes, uncompress: Bytes -> Option<Bytes>)

  /** Uncompressing what was compressed gives back the original bytes. */
  ghost predicate RoundTrips(codec: Codec) {
    forall b :: codec.uncompress(codec.compress(b)) == Some(b)
  }

  /** The `IOException`s `read` can throw. */
  datatype ReadError =
    | UncompressFailed  // the compressor could not read the file
    | EndOfStream       // fewer than four bytes per element after uncompressing

  /** A `ucar.ma2.Array` of `int`s: its shape and its elements in row-major order. */
  datatype IntArray = IntArray(shape: seq<int>, data: seq<int32>)

  /** The shape a chunk reader/writer can be made for: one size of at least 1 per axis. */
  predicate ValidChunkShape(chunkShape: seq<int>) {
    forall i :: 0 <= i < |chunkShape| ==> chunkShape[i] >= 1
  }

  /** The number of cells of an array of the given shape. */
  function Product(shape: seq<int>): (n: int)
    ensures ValidChunkShape(shape) ==> n >= 1
    ensures ValidChunkShape(shape) && shape != [] ==> n >= shape[|shape| - 1]
  {
    if shape == [] then 1 else Product(shape[..|shape| - 1]) * shape[|shape| - 1]
  }

  /** The chunk that stands for a file that does not exist: every cell holds `fill`. */
  function Filled(chunkShape: seq<int>, fill: int32): (a: IntArray)
    requires ValidChunkShape(chunkShape)
    ensures a.shape == chunkShape && |a.data| == Product(chunkShape)
    ensures forall i :: 0 <= i < |a.data| ==> a.data[i] == fill
  {
    IntArray(chunkShape, seq(Product(chunkShape), _ => fill))
  }

  /**
   * What `read(path)` returns: the filled chunk when there is no file at
   * `path`; otherwise the first `Product(chunkShape)` big-endian `int`s of the
   * uncompressed file, shaped as the chunk.
   */
  function ReadChunk(codec: Codec, chunkShape: seq<int>, fill: int32, files: map<Path, Bytes>, path: Path)
    : Result<IntArray, ReadError>
    requires ValidChunkShape(chunkShape)
  {
    if path !in files then Success(Filled(chunkShape, fill))
    else
      match codec.uncompress(files[path])
      case None => Failure(UncompressFailed)
      case Some(bytes) =>
        var n := Product(chunkShape);
        if |bytes| < 4 * n then Failure(EndOfStream)
        else Success(IntArray(chunkShape, DecodeInts(bytes, n)))
  }

  /** The files after `write(path, a)`: the file at `path` holds the compressed encoding of `a`. */
  function WriteChunk(codec: Codec, files: map<Path, Bytes>, path: Path, a: IntArray): map<Path, Bytes> {
    files[path := codec.compress(EncodeInts(a.data))]
  }

  /** The file system the chunks live in. */
  class FileSystem {
    var files: map<Path, Bytes>

    constructor (files: map<Path, Bytes>)
      ensures this.files == files
    {
      this.files := files;
    }
  }

  /** Reads and writes the chunks of an `int` array; every chunk has shape `chunkShape`. */
  class IntChunkReaderWriter {
    const compressor: Codec
    const chunkShape: seq<int>
    const fill: int32

    constructor (compressor: Codec, chunkShape: seq<int>, fill: int32)
      requires ValidChunkShape(chunkShape)
      ensures this.compressor == compressor && this.chunkShape == chunkShape && this.fill == fill
      ensures Valid()
    {
      this.compressor := compressor;
      this.chunkShape := chunkShape;
      this.fill := fill;
    }

    predicate Valid() {
      ValidChunkShape(chunkShape)
    }

    /** The number of cells of one chunk. */
    function Size(): (n: int)
      requires Valid()
      ensures n >= 1 && n == Product(chunkShape)
    {
      Product(chunkShape)
    }

    /**
     * The chunk stored at `path`: the filled chunk if there is no file, else
     * the file uncompressed and read as `Size()` big-endian `int`s.
     */
    method Read(fs: FileSystem, path: Path) returns (r: Result<IntArray, ReadError>)
      requires Valid()
      ensures r == ReadChunk(compressor, chunkShape, fill, fs.files, path)
    {
      if path !in fs.files {
        return Success(Filled(chunkShape, fill));
      }
      var uncompressed := compressor.uncompress(fs.files[path]);
      if uncompressed.None? {
        return Failure(UncompressFailed);
      }
      var bytes := uncompressed.value;
      var n := Size();
      var ints := new int32[n];
      for i := 0 to n
        invariant 4 * i <= |bytes|
        invariant ints[..i] == DecodeInts(bytes, i)
      {
        if |bytes| < 4 * i + 4 {
          return Failure(EndOfStream);
        }
        ints[i] := DecodeInt(bytes[4 * i..4 * i + 4]);
        assert ints[..i + 1] == ints[..i] + [ints[i]];
      }
      assert ints[..] == ints[..n];
      return Success(IntArray(chunkShape, ints[..]));
    }

    /**
     * Replaces the file at `path` with the compressed big-endian encoding of
     * every element of `a`, in row-major order; no other file changes.
     */
    method Write(fs: FileSystem, path: Path, a: IntArray)
      modifies fs
      ensures fs.files == WriteChunk(compressor, old(fs.files), path, a)
    {
      var ints := a.data;
      var out: Bytes := [];
      for i := 0 to |ints|
        invariant out == EncodeInts(ints[..i])
      {
        assert ints[..i + 1][..i] == ints[..i];
        out := out + EncodeInt(ints[i]);
      }
      assert ints[..|ints|] == ints;
      fs.files := fs.files[path := compressor.compress(out)];
    }
  }

  /** Without a file at `path`, `read` yields the filled chunk whatever the compressor does. */
  lemma {:induction false} ReadAbsentIsFilled(codec: Codec, other: Codec, chunkShape: seq<int>, fill: int32,
                                             files: map<Path, Bytes>, path: Path)
    requires ValidChunkShape(chunkShape) && path !in files
    ensures ReadChunk(codec, chunkShape, fill, files, path) == Success(Filled(chunkShape, fill))
    ensures ReadChunk(codec, chunkShape, fill, files, path) == ReadChunk(other, chunkShape, fill, files, path)
  {
  }

  /**
   * With a file at `path`, `read` succeeds exactly when the file uncompresses
   * to at least four bytes per cell, and then cell `i` is the big-endian `int`
   * in bytes `4i` to `4i + 3`; bytes past the last cell do not matter.
   */
  lemma {:induction false} ReadDecodesBigEndian(codec: Codec, chunkShape: seq<int>, fill: int32,
                                               files: map<Path, Bytes>, path: Path, bytes: Bytes, trailing: Bytes)
    requires ValidChunkShape(chunkShape) && path in files
    requires codec.uncompress(files[path]) == Some(bytes + trailing)
    requires |bytes| == 4 * Product(chunkShape)
    ensures var r := ReadChunk(codec, chunkShape, fill, files, path);
            && r.Success? && r.value.shape == chunkShape && |r.value.data| == Product(chunkShape)
            && (forall i :: 0 <= i < |r.value.data| ==> EncodeInt(r.value.data[i]) == bytes[4 * i..4 * i + 4])
            && EncodeInts(r.value.data) == bytes
  {
    var n := Product(chunkShape);
    DecodeIntsIgnoresTrailing(bytes, trailing, n);
    EncodeDecodeInts(bytes, n);
    assert bytes[..4 * n] == bytes;
    forall i | 0 <= i < n
      ensures EncodeInt(DecodeInts(bytes, n)[i]) == bytes[4 * i..4 * i + 4]
    {
      EncodeDecodeInt(bytes[4 * i..4 * i + 4]);
    }
  }

  /** A file that uncompresses to fewer than four bytes per cell makes `read` fail. */
  lemma {:induction false} ReadShortFails(codec: Codec, chunkShape: seq<int>, fill: int32,
                                         files: map<Path, Bytes>, path: Path)
    requires ValidChunkShape(chunkShape) && path in files
    requires codec.uncompress(files[path]).Some?
    requires |codec.uncompress(files[path]).value| < 4 * Product(chunkShape)
    ensures ReadChunk(codec, chunkShape, fill, files, path) == Failure(EndOfStream)
  {
  }

  /**
   * Round trip: when the compressor round-trips, writing a chunk with as many
   * elements as a chunk has cells and reading it back gives the same `int`s,
   * shaped as the chunk.
   */
  lemma {:induction false} WriteThenRead(codec: Codec, chunkShape: seq<int>, fill: int32,
                                        files: map<Path, Bytes>, path: Path, a: IntArray)
    requires ValidChunkShape(chunkShape) && RoundTrips(codec)
    requires |a.data| == Product(chunkShape)
    ensures ReadChunk(codec, chunkShape, fill, WriteChunk(codec, files, path, a), path)
            == Success(IntArray(chunkShape, a.data))
  {
    var bytes := EncodeInts(a.data);
    var after := WriteChunk(codec, files, path, a);
    assert path in after && codec.uncompress(after[path]) == Some(bytes);
    DecodeEncodeInts(a.data, []);
    assert bytes + [] == bytes;
    assert DecodeInts(bytes, |a.data|) == a.data;
  }

  /**
   * `write` does not check the element count: when the compressor
   * round-trips, a chunk written with more elements than cells reads back as
   * its first `Product(chunkShape)` elements, and one with fewer fails to read.
   */
  lemma {:induction false} WriteThenReadWrongSize(codec: Codec, chunkShape: seq<int>, fill: int32,
                                                 files: map<Path, Bytes>, path: Path, a: IntArray)
    requires ValidChunkShape(chunkShape) && RoundTrips(codec)
    ensures var r := ReadChunk(codec, chunkShape, fill, WriteChunk(codec, files, path, a), path);
            && (|a.data| < Product(chunkShape) ==> r == Failure(EndOfStream))
            && (|a.data| >= Product(chunkShape) ==> r == Success(IntArray(chunkShape, a.data[..Product(chunkShape)])))
  {
    var n := Product(chunkShape);
    var bytes := EncodeInts(a.data);
    var after := WriteChunk(codec, files, path, a);
    assert path in after && codec.uncompress(after[path]) == Some(bytes);
    if |a.data| >= n {
      var front, back := a.data[..n], a.data[n..];
      assert a.data == front + back;
      var fb := EncodeInts(front);
      assert bytes == fb + bytes[4 * n..] by {
        forall j | 0 <= j < 4 * n
          ensures bytes[j] == fb[j]
        {
          var i := j / 4;
          assert bytes[4 * i..4 * i + 4] == EncodeInt(a.data[i]) == fb[4 * i..4 * i + 4];
          assert bytes[j] == bytes[4 * i..4 * i + 4][j - 4 * i];
          assert fb[j] == fb[4 * i..4 * i + 4][j - 4 * i];
        }
      }
      DecodeEncodeInts(front, bytes[4 * n..]);
    }
  }

  /** Writing one path leaves what every other path reads unchanged. */
  lemma {:induction false} WriteLeavesOtherPaths(codec: Codec, chunkShape: seq<int>, fill: int32,
                                                files: map<Path, Bytes>, path: Path, other: Path, a: IntArray)
    requires ValidChunkShape(chunkShape) && other != path
    ensures ReadChunk(codec, chunkShape, fill, WriteChunk(codec, files, path, a), other)
            == ReadChunk(codec, chunkShape, fill, files, other)
  {
    var after := WriteChunk(codec, files, path, a);
    assert (other in after) == (other in files);
    assert other in files ==> after[other] == files[other];
  }

  /** Writing a path twice leaves only the second chunk: `write` replaces the whole file. */
  lemma {:induction false} WriteOverwrites(codec: Codec, files: map<Path, Bytes>, path: Path, a: IntArray, b: IntArray)
    ensures WriteChunk(codec, WriteChunk(codec, files, path, a), path, b) == WriteChunk(codec, files, path, b)
  {
  }
}
