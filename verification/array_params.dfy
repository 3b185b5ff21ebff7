/**
 * The `ArrayParams` builder and the `Params` value it builds. The builder's
 * fields are set one by one by its setters; `Build` computes the chunk shape
 * in the builder's own `chunks` array (allocating it when none was given and
 * then overwriting its entries below 1 in place) and hands the builder's
 * arrays to a new `Params`, which keeps them: as in the source, the arrays are
 * shared, not copied.
 */
module ArrayParameters {
  import opened Wrappers
  import opened ChunkLayout

  /** Element types of a Zarr array, by their Zarr type codes. */
  datatype DataType = F8 | F4 | I8 | I4 | U4 | I2 | U2 | I1 | U1

  datatype ByteOrder = BigEndian | LittleEndian

  /**
   * A compressor as far as the builder is concerned: the shared pass-through
   * compressor, the factory's default compressor, or one made by the factory
   * from an id. Their byte algorithms are not part of this model.
   */
  datatype Compressor = NullCompressor | DefaultCompressor | Configured(id: string)

  /** The contents of a Java `int[]` that may be null. */
  function Contents(a: array?<int>): (r: Option<seq<int>>)
    reads a
    ensures r.Some? <==> a != null
    ensures a != null ==> r.value == a[..]
  {
    if a == null then None else Some(a[..])
  }

  class ArrayParams {
    var shape: array?<int>
    var chunks: array?<int>
    var chunked: bool
    var dataType: DataType
    var byteOrder: ByteOrder
    var fillValue: Option<int>
    var compressor: Compressor

    /** A builder with the documented defaults and neither shape nor chunks. */
    constructor ()
      ensures shape == null && chunks == null
      ensures chunked && dataType == F8 && byteOrder == BigEndian
      ensures fillValue == Some(0) && compressor == DefaultCompressor
    {
      shape := null;
      chunks := null;
      chunked := true;
      dataType := F8;
      byteOrder := BigEndian;
      fillValue := Some(0);
      compressor := DefaultCompressor;
    }

    method SetShape(shape: array?<int>) returns (self: ArrayParams)
      modifies this`shape
      ensures self == this && this.shape == shape
    {
      this.shape := shape;
      self := this;
    }

    method SetChunks(chunks: array?<int>) returns (self: ArrayParams)
      modifies this`chunks
      ensures self == this && this.chunks == chunks
    {
      this.chunks := chunks;
      self := this;
    }

    method SetChunked(chunked: bool) returns (self: ArrayParams)
      modifies this`chunked
      ensures self == this && this.chunked == chunked
    {
      this.chunked := chunked;
      self := this;
    }

    method SetDataType(dataType: DataType) returns (self: ArrayParams)
      modifies this`dataType
      ensures self == this && this.dataType == dataType
    {
      this.dataType := dataType;
      self := this;
    }

    method SetByteOrder(byteOrder: ByteOrder) returns (self: ArrayParams)
      modifies this`byteOrder
      ensures self == this && this.byteOrder == byteOrder
    {
      this.byteOrder := byteOrder;
      self := this;
    }

    /** `fillValue` may be null (`None`). */
    method SetFillValue(fillValue: Option<int>) returns (self: ArrayParams)
      modifies this`fillValue
      ensures self == this && this.fillValue == fillValue
    {
      this.fillValue := fillValue;
      self := this;
    }

    /** A null compressor (`None`) is stored as the pass-through compressor. */
    method SetCompressor(compressor: Option<Compressor>) returns (self: ArrayParams)
      modifies this`compressor
      ensures self == this
      ensures compressor.None? ==> this.compressor == NullCompressor
      ensures compressor.Some? ==> this.compressor == compressor.value
    {
      if compressor.None? {
        this.compressor := NullCompressor;
      } else {
        this.compressor := compressor.value;
      }
      self := this;
    }

    /**
     * Validates the configuration and freezes it into a `Params`. The chunk
     * shape it ends with is `ResolveChunks` of the builder's shape, chunks and
     * `chunked` flag; it is left in the builder's `chunks` field, in the array
     * that field held if there was one.
     */
    method Build() returns (r: Result<Params, BuildError>)
      modifies this`chunks, chunks
      ensures Contents(shape) == old(Contents(shape))
      ensures var expected := ResolveChunks(old(Contents(shape)), old(Contents(chunks)), chunked);
              match expected
              case Failure(e) =>
                r == Failure(e) && chunks == old(chunks) && Contents(chunks) == old(Contents(chunks))
              case Success(cs) =>
                && chunks != null && chunks[..] == cs
                && (old(chunks) != null ==> chunks == old(chunks))
                && (old(chunks) == null ==> fresh(chunks))
                && r.Success? && fresh(r.value)
                && r.value.shape == shape && r.value.chunks == chunks
                && r.value.dataType == dataType && r.value.byteOrder == byteOrder
                && r.value.fillValue == fillValue && r.value.compressor == compressor
    {
      if shape == null || shape.Length == 0 {
        return Failure(ShapeNotGiven);
      }
      var shape: array<int> := this.shape;
      if chunks == null {
        if chunked {
          chunks := AutoChunkArray(shape);
        } else {
          chunks := CopyOf(shape);
        }
      }
      var chunks: array<int> := this.chunks;
      if shape.Length != chunks.Length {
        return Failure(ChunkRankMismatch(shape.Length, chunks.Length));
      }
      ReplaceNonPositive(shape, chunks);
      var params := new Params(shape, chunks, dataType, byteOrder, fillValue, compressor);
      r := Success(params);
    }
  }

  /** A fresh array holding the heuristic's chunk size for every axis of `shape`. */
  method AutoChunkArray(shape: array<int>) returns (chunks: array<int>)
    ensures fresh(chunks) && chunks[..] == AutoChunks(shape[..])
  {
    chunks := new int[shape.Length];
    for i := 0 to shape.Length
      invariant forall k :: 0 <= k < i ==> chunks[k] == AutoChunkDim(shape[k])
    {
      chunks[i] := AutoChunkDim(shape[i]);
    }
  }

  /** A fresh array with the same contents as `a`. */
  method CopyOf(a: array<int>) returns (copy: array<int>)
    ensures fresh(copy) && copy[..] == a[..]
  {
    copy := new int[a.Length];
    for i := 0 to a.Length
      invariant copy[..i] == a[..i]
    {
      copy[i] := a[i];
    }
  }

  /**
   * Overwrites, in place, every entry of `chunks` below 1 with the matching
   * entry of `shape`. The two may be the same array; `shape` keeps its contents.
   */
  method ReplaceNonPositive(shape: array<int>, chunks: array<int>)
    requires shape.Length == chunks.Length
    modifies chunks
    ensures chunks[..] == NormalizeChunks(old(shape[..]), old(chunks[..]))
    ensures shape[..] == old(shape[..])
  {
    for i := 0 to chunks.Length
      invariant shape[..] == old(shape[..])
      invariant forall k :: 0 <= k < i ==>
                  chunks[k] == if old(chunks[k]) < 1 then shape[k] else old(chunks[k])
      invariant forall k :: i <= k < chunks.Length ==> chunks[k] == old(chunks[k])
    {
      if chunks[i] < 1 {
        chunks[i] := shape[i];
      }
    }
  }

  /**
   * The configuration `build()` returns. Its fields are final, but its shape
   * and chunks are the very arrays the builder held.
   */
  class Params {
    const shape: array<int>
    const chunks: array<int>
    const dataType: DataType
    const byteOrder: ByteOrder
    const fillValue: Option<int>
    const compressor: Compressor

    constructor (shape: array<int>, chunks: array<int>, dataType: DataType, byteOrder: ByteOrder,
                 fillValue: Option<int>, compressor: Compressor)
      ensures this.shape == shape && this.chunks == chunks
      ensures this.dataType == dataType && this.byteOrder == byteOrder
      ensures this.fillValue == fillValue && this.compressor == compressor
    {
      this.shape := shape;
      this.chunks := chunks;
      this.dataType := dataType;
      this.byteOrder := byteOrder;
      this.fillValue := fillValue;
      this.compressor := compressor;
    }

    /** Chunked means the chunk shape differs from the shape, in length or in some entry. */
    predicate IsChunked()
      reads shape, chunks
      ensures IsChunked() <==> shape[..] != chunks[..]
    {
      shape.Length != chunks.Length || exists i :: 0 <= i < shape.Length && shape[i] != chunks[i]
    }

    /**
     * A fresh builder holding this configuration (the same shape and chunks
     * arrays), so that some settings can be overridden and built again.
     */
    method ToBuilder() returns (b: ArrayParams)
      ensures fresh(b)
      ensures b.shape == shape && b.chunks == chunks && b.chunked == IsChunked()
      ensures b.dataType == dataType && b.byteOrder == byteOrder
      ensures b.fillValue == fillValue && b.compressor == compressor
    {
      b := new ArrayParams();
      b.shape := shape;
      b.chunks := chunks;
      b.chunked := IsChunked();
      b.dataType := dataType;
      b.byteOrder := byteOrder;
      b.fillValue := fillValue;
      b.compressor := compressor;
    }
  }
}
