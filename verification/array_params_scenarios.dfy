/**
 * Two uses of the builder, written against the contracts of `ArrayParams`
 * and `Params` alone: a build with defaults only, and a rebuild of a built
 * configuration with a new shape.
 */
module ArrayParamsScenarios {
  import opened Wrappers
  import opened ChunkLayout
  import opened ArrayParameters

  /** A builder given only the shape (3800, 5000). */
  method DefaultsBuilder() returns (builder: ArrayParams)
    ensures fresh(builder) && fresh(builder.shape)
    ensures Contents(builder.shape) == Some([3800, 5000]) && builder.chunks == null && builder.chunked
    ensures builder.dataType == F8 && builder.byteOrder == BigEndian
    ensures builder.fillValue == Some(0) && builder.compressor == DefaultCompressor
  {
    var shape := new int[2];
    shape[0], shape[1] := 3800, 5000;
    builder := new ArrayParams();
    builder := builder.SetShape(shape);
    assert shape[..] == [3800, 5000];
  }

  /** Only a shape given: heuristic chunks, chunked, and every other setting at its default. */
  method DefaultsScenario() returns (params: Params)
    ensures params.shape[..] == [3800, 5000] && params.chunks[..] == [475, 500]
    ensures params.IsChunked()
    ensures params.dataType == F8 && params.byteOrder == BigEndian
    ensures params.fillValue == Some(0) && params.compressor == DefaultCompressor
  {
    var builder := DefaultsBuilder();
    AutoChunksExamples();
    assert ResolveChunks(Some([3800, 5000]), None, true) == Success([475, 500]);
    var r := builder.Build();
    assert r.Success?;
    params := r.value;
    assert params.shape[..] == [3800, 5000] && params.chunks[..] == [475, 500];
  }

  /** A builder given explicit chunks, a little-endian `i2` type, a null fill value and no compression. */
  method ExplicitBuilder() returns (builder: ArrayParams)
    ensures fresh(builder) && fresh(builder.shape) && fresh(builder.chunks)
    ensures Contents(builder.shape) == Some([3800, 5000]) && Contents(builder.chunks) == Some([12, 13])
    ensures builder.dataType == I2 && builder.byteOrder == LittleEndian
    ensures builder.fillValue == None && builder.compressor == NullCompressor
  {
    var shape := new int[2];
    shape[0], shape[1] := 3800, 5000;
    var chunks := new int[2];
    chunks[0], chunks[1] := 12, 13;
    builder := new ArrayParams();
    builder := builder.SetShape(shape);
    builder := builder.SetChunks(chunks);
    builder := builder.SetDataType(I2);
    builder := builder.SetByteOrder(LittleEndian);
    builder := builder.SetFillValue(None);
    builder := builder.SetCompressor(Some(NullCompressor));
    assert shape[..] == [3800, 5000] && chunks[..] == [12, 13];
  }

  /** The builder above, built: the given settings come out unchanged. */
  method ExplicitScenario() returns (params: Params)
    ensures fresh(params.shape) && fresh(params.chunks)
    ensures params.shape[..] == [3800, 5000] && params.chunks[..] == [12, 13]
    ensures params.dataType == I2 && params.byteOrder == LittleEndian
    ensures params.fillValue == None && params.compressor == NullCompressor
  {
    var builder := ExplicitBuilder();
    RebuildKeepsChunks([3800, 5000], [12, 13], builder.chunked);
    var r := builder.Build();
    assert r.Success?;
    params := r.value;
  }

  /**
   * The configuration above rebuilt with a new shape: everything but the
   * shape carries over, the chunks included.
   */
  method RebuildScenario() returns (newParams: Params)
    ensures newParams.shape[..] == [123, 456] && newParams.chunks[..] == [12, 13]
    ensures newParams.dataType == I2 && newParams.byteOrder == LittleEndian
    ensures newParams.fillValue == None && newParams.compressor == NullCompressor
  {
    var params := ExplicitScenario();
    var newShape := new int[2];
    newShape[0], newShape[1] := 123, 456;
    assert newShape[..] == [123, 456];
    var rebuilder := params.ToBuilder();
    rebuilder := rebuilder.SetShape(newShape);
    RebuildKeepsChunks([123, 456], [12, 13], rebuilder.chunked);
    assert Contents(rebuilder.shape) == Some([123, 456]);
    assert Contents(rebuilder.chunks) == Some([12, 13]);
    var r := rebuilder.Build();
    assert r.Success?;
    newParams := r.value;
  }
}
