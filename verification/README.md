# jzarr array configuration and integer chunk codec, in Dafny

This project models two sequential pieces of jzarr, a Java implementation of
the Zarr chunked-array format:

- **`ArrayParams`**, the builder that collects an array's shape, chunk shape,
  `chunked` flag, data type, byte order, fill value and compressor, and whose
  `build()` validates them and freezes them into an `ArrayParams.Params`.
  `build()` fails with "Shape must be given." on a null or empty shape; when
  no chunks are given it computes them (the per-axis heuristic of about 512
  cells per chunk, or a copy of the shape when `chunked` is false); it fails
  when the chunk rank differs from the shape rank; it overwrites every chunk
  size below 1, in place, with the shape's size on that axis. `toBuilder()`
  turns a `Params` back into a builder.
- **`ChunkReaderWriterImpl_Integer`**, which reads one chunk of `int`s from a
  file (a chunk of fill values when there is no file; otherwise the
  uncompressed file read as big-endian 4-byte `int`s) and writes one (every
  element as 4 big-endian bytes, compressed, replacing the file).

Files:

- `wrappers.dfy` (`Wrappers`): `Option` (a Java reference that may be null)
  and `Result` (a value or the exception thrown).
- `chunk_layout.dfy` (`ChunkLayout`): the chunk-shape arithmetic of `build()`
  as pure functions — Java's truncating `/` and `%`, the heuristic for one
  axis (`AutoChunkDim`) and for all (`AutoChunks`), the replacement of sizes
  below 1 (`NormalizeChunks`), the whole resolution with its two errors
  (`ResolveChunks`), the exception messages — and the lemmas about them.
- `array_params.dfy` (`ArrayParameters`): the builder as a class whose fields
  the setters assign and whose `Build` fills and overwrites the `chunks`
  array in loops, proved to leave exactly `ResolveChunks` of the old fields
  in that array; `Params` as a class of constant fields that keeps the
  builder's arrays (they are shared, not copied, as in the source). Because
  they are shared, building a builder obtained from `ToBuilder` overwrites,
  in place, the earlier `Params`' chunk entries below 1 (which it can only
  hold when its shape had sizes below 1); `Build`'s frame allows exactly that.
- `array_params_scenarios.dfy` (`ArrayParamsScenarios`): a build with only a
  shape and a rebuild through `ToBuilder` with a new shape, proved from the
  class contracts alone.
- `big_endian.dfy` (`BigEndian`): Java `int` (`int32`) to and from 4-byte
  big-endian groups, for one value and for a sequence, with both round trips.
- `chunk_io.dfy` (`IntegerChunkIO`): the file system as a `FileSystem` object
  holding a `map` from path to bytes, the compressor as a pair of functions
  (`Codec`), the reader/writer class with its `Read` and `Write` methods, the
  functions `ReadChunk` and `WriteChunk` that specify them, and the lemmas:
  fill on absence, big-endian decoding, short files, the write-read round
  trip, and that writes touch one path only.

Assumptions, stated where they are used:

- The compressor's round trip (`uncompress(compress(b)) == b`) is the
  predicate `RoundTrips`, required by the lemmas that need it; nothing is
  assumed about a compressor elsewhere.
- The parent class `ChunkReaderWriter` is not part of this model. Its
  `getSize()` is taken to be the product of the chunk shape (`Product`), and
  `createFilled` to give a chunk of that many fill values shaped as the chunk
  (`Filled`). The chunk shape has every size at least 1, as a built `Params`
  has when its shape is positive (`ResolvedChunksPositive`).

Behaviour of the code worth knowing:

- The heuristic is not a ceiling: it tests `shape % (shape / (n + 1))`, not
  `shape % (n + 1)`. For most sizes the result is the ceiling of
  `shape / (n + 1)`, but 261120 cells give 510 where that ceiling is 511
  (`HeuristicIsNotCeiling`).
- A null compressor is replaced by the pass-through compressor in the
  `compressor(...)` setter; `build()` never looks at the compressor. The
  builder's default is the factory's default compressor.
- The integer codec always uses big-endian order on both paths; it has no
  byte-order setting, so the array's configured byte order plays no part.
- `write` does not check that the array has `getSize()` elements; a read of
  such a chunk returns its first `getSize()` elements or fails
  (`WriteThenReadWrongSize`).

Shape and chunk sizes are unbounded integers, and no arithmetic of `build()`
can overflow a Java `int`: `numChunks` is at most 2^31 / 512, so
`numChunks + 1` fits; `chunkDim` is between 256 and 511
(`HeuristicDivisorBounds`), so `chunkDim + 1` fits and `shape % chunkDim`
is well defined.

## Model

| member | source | states |
|---|---|---|
| `ChunkLayout.HeuristicDivisorBounds` | src/main/java/com/bc/zarr/ArrayParams.java:159-166 | for an axis of at least 512 cells, `numChunks` is at least 1 and the divisor `shape / (numChunks + 1)` lies between 256 and 511, so `shape % chunkDim` never divides by zero |
| `ChunkLayout.AutoChunkDim` | src/main/java/com/bc/zarr/ArrayParams.java:158-169 | the heuristic chunk size of an axis of at least 512 cells is between 256 and 512 and no larger than the axis; a smaller axis is one chunk |
| `ChunkLayout.AutoChunks` | src/main/java/com/bc/zarr/ArrayParams.java:156-170 | one heuristic chunk size per axis, in axis order |
| `ChunkLayout.NormalizeChunks` | src/main/java/com/bc/zarr/ArrayParams.java:182-187 | every chunk size below 1 becomes the shape's size on that axis; every other size is kept |
| `ChunkLayout.ResolveChunks` | src/main/java/com/bc/zarr/ArrayParams.java:150-187 | fails with "shape not given" exactly when the shape is null or empty; explicitly given chunks of another rank fail with a rank error naming both ranks, and a rank error arises in no other case; with a shape and no chunks, or chunks of the right rank, it succeeds; on success the chunks have the shape's rank |
| `ChunkLayout.Message` | src/main/java/com/bc/zarr/ArrayParams.java:151-180 | the missing-shape message is "Shape must be given."; the rank message starts with the fixed sentence and "Expected: ", continues with the expected rank in decimal, " but was ", the actual rank in decimal, and ends with " !" |
| `ChunkLayout.NatToString` | src/main/java/com/bc/zarr/ArrayParams.java:179-179 | the decimal spelling of a length, as string concatenation writes it: non-empty, made of digits only, starting with `0` exactly when the number is 0, and exactly "0" for 0, so no leading zero (its value is `NatToStringValue`) |
| `ChunkLayout.NatToStringValue` | src/main/java/com/bc/zarr/ArrayParams.java:179-179 | the digits `NatToString(n)` produces stand for `n` |
| `ChunkLayout.MessageExamples` | src/test/java/com/bc/zarr/ArrayParametersBuilderTest.java:50-101 | the exact messages the tests expect: "Shape must be given." and the 2-versus-3 rank message |
| `ChunkLayout.UnchunkedChunksEqualShape` | src/main/java/com/bc/zarr/ArrayParams.java:171-173 | with `chunked(false)` and no chunks, the chunk shape equals the shape |
| `ChunkLayout.ResolvedChunksPositive` | src/main/java/com/bc/zarr/ArrayParams.java:154-187 | for a positive shape every resolved chunk size is at least 1, and computed (not given) chunk sizes never exceed the shape |
| `ChunkLayout.RebuildKeepsChunks` | src/main/java/com/bc/zarr/ArrayParams.java:154-187 | resolved chunks given again with a shape of the same rank come back unchanged, so a rebuild does not rerun the heuristic |
| `ChunkLayout.HeuristicIsNotCeiling` | src/main/java/com/bc/zarr/ArrayParams.java:161-166 | the remainder test uses the rounded-down quotient: 261120 cells give chunks of 510, not the ceiling 511 |
| `ChunkLayout.AutoChunkDimExamples` | src/test/java/com/bc/zarr/ArrayParametersBuilderTest.java:159-187 | the heuristic gives 475 for 3800, 500 for 5000 and for 4999, and 33 for 33 |
| `ChunkLayout.AutoChunksExamples` | src/test/java/com/bc/zarr/ArrayParametersBuilderTest.java:103-187 | shapes (3800,5000), (3800,4999), (3800,33) resolve to (475,500), (475,500), (475,33); (1000,1000) unchunked resolves to (1000,1000) |
| `ChunkLayout.GivenChunksExamples` | src/test/java/com/bc/zarr/ArrayParametersBuilderTest.java:32-198 | explicit chunks (200,100) are kept and (444,0) becomes (444,5000); a missing or empty shape and chunks (10,10,100) for a 2-D shape fail with the matching errors |
| `ArrayParameters.ArrayParams.constructor` | src/main/java/com/bc/zarr/ArrayParams.java:46-52 | a new builder has no shape or chunks, is chunked, `f8`, big-endian, fill 0 and the default compressor |
| `ArrayParameters.ArrayParams.SetShape` | src/main/java/com/bc/zarr/ArrayParams.java:60-63 | stores the shape array (which may be null) and returns the same builder, changing no other field |
| `ArrayParameters.ArrayParams.SetChunks` | src/main/java/com/bc/zarr/ArrayParams.java:72-75 | stores the chunks array and returns the same builder, changing no other field |
| `ArrayParameters.ArrayParams.SetChunked` | src/main/java/com/bc/zarr/ArrayParams.java:86-89 | stores the flag and returns the same builder, changing no other field |
| `ArrayParameters.ArrayParams.SetDataType` | src/main/java/com/bc/zarr/ArrayParams.java:98-101 | stores the data type and returns the same builder, changing no other field |
| `ArrayParameters.ArrayParams.SetByteOrder` | src/main/java/com/bc/zarr/ArrayParams.java:110-113 | stores the byte order and returns the same builder, changing no other field |
| `ArrayParameters.ArrayParams.SetFillValue` | src/main/java/com/bc/zarr/ArrayParams.java:122-125 | stores the fill value, null included, and returns the same builder, changing no other field |
| `ArrayParameters.ArrayParams.SetCompressor` | src/main/java/com/bc/zarr/ArrayParams.java:135-141 | a null compressor is stored as the pass-through compressor, any other as given; returns the same builder |
| `ArrayParameters.ArrayParams.Build` | src/main/java/com/bc/zarr/ArrayParams.java:150-190 | on an error of `ResolveChunks` returns it and leaves the chunks field and array as they were; otherwise leaves `ResolveChunks`' chunks in the builder's `chunks` field (the same array if one was given, a fresh one if not) and returns a fresh `Params` holding the builder's shape and chunks arrays and its other settings; the shape's contents never change |
| `ArrayParameters.AutoChunkArray` | src/main/java/com/bc/zarr/ArrayParams.java:156-170 | allocates a fresh array holding the heuristic chunk size of every axis |
| `ArrayParameters.CopyOf` | src/main/java/com/bc/zarr/ArrayParams.java:172-172 | a fresh array with the shape's contents |
| `ArrayParameters.ReplaceNonPositive` | src/main/java/com/bc/zarr/ArrayParams.java:182-187 | overwrites in place exactly the chunk entries below 1 with the shape's entries, even when shape and chunks are one array, and leaves the shape's contents as they were |
| `ArrayParameters.Params.constructor` | src/main/java/com/bc/zarr/ArrayParams.java:203-210 | the fields are the arguments, arrays shared |
| `ArrayParameters.Params.IsChunked` | src/main/java/com/bc/zarr/ArrayParams.java:220-222 | true exactly when the chunks differ from the shape |
| `ArrayParameters.Params.ToBuilder` | src/main/java/com/bc/zarr/ArrayParams.java:240-250 | a fresh builder holding the same shape and chunks arrays and the same settings, with `chunked` equal to `IsChunked()` |
| `ArrayParamsScenarios.DefaultsScenario` | src/test/java/com/bc/zarr/ArrayParametersBuilderTest.java:116-131 | a builder given only shape (3800,5000) builds a `Params` with that shape, chunks (475,500), chunked, `f8`, big-endian, fill 0 and the default compressor |
| `ArrayParamsScenarios.ExplicitScenario` | src/test/java/com/bc/zarr/ArrayParametersBuilderTest.java:134-143 | a builder given shape (3800,5000), chunks (12,13), `i2`, little-endian, null fill and the null compressor builds a `Params` with exactly those settings |
| `ArrayParamsScenarios.RebuildScenario` | src/test/java/com/bc/zarr/ArrayParametersBuilderTest.java:134-157 | that `Params`, turned back into a builder and given shape (123,456), builds a `Params` with the new shape and the old chunks (12,13), `i2`, little-endian, null fill and the null compressor |
| `BigEndian.EncodeInt` | src/main/java/com/bc/zarr/chunk/ChunkReaderWriterImpl_Integer.java:75-76 | four bytes whose big-endian value is the `int`'s 32-bit two's-complement pattern |
| `BigEndian.DecodeInt` | src/main/java/com/bc/zarr/chunk/ChunkReaderWriterImpl_Integer.java:55-56 | the `int` whose 32-bit pattern is the big-endian value of the four bytes |
| `BigEndian.DecodeEncodeInt` | src/main/java/com/bc/zarr/chunk/ChunkReaderWriterImpl_Integer.java:55-56 | decoding an encoded `int` gives it back |
| `BigEndian.EncodeDecodeInt` | src/main/java/com/bc/zarr/chunk/ChunkReaderWriterImpl_Integer.java:75-76 | encoding a decoded group gives the four bytes back |
| `BigEndian.EncodeInts` | src/main/java/com/bc/zarr/chunk/ChunkReaderWriterImpl_Integer.java:74-76 | four bytes per element, and bytes `4i` to `4i + 3` encode element `i` |
| `BigEndian.DecodeInts` | src/main/java/com/bc/zarr/chunk/ChunkReaderWriterImpl_Integer.java:51-56 | `n` elements, element `i` decoded from bytes `4i` to `4i + 3` |
| `BigEndian.DecodeIntsIgnoresTrailing` | src/main/java/com/bc/zarr/chunk/ChunkReaderWriterImpl_Integer.java:53-56 | bytes after the first `4n` do not change what is decoded |
| `BigEndian.DecodeEncodeInts` | src/main/java/com/bc/zarr/chunk/ChunkReaderWriterImpl_Integer.java:51-56 | decoding `|xs|` elements from the encoding of `xs`, followed by anything, gives `xs` |
| `BigEndian.EncodeDecodeInts` | src/main/java/com/bc/zarr/chunk/ChunkReaderWriterImpl_Integer.java:51-56 | encoding `n` decoded elements gives back the first `4n` bytes |
| `BigEndian.EncodeIntExamples` | src/main/java/com/bc/zarr/chunk/ChunkReaderWriterImpl_Integer.java:75-76 | 1, 0x01020304 and -2 encode most significant byte first, -2 in two's complement |
| `IntegerChunkIO.Filled` | src/main/java/com/bc/zarr/chunk/ChunkReaderWriterImpl_Integer.java:61-63 | the chunk for a missing file has the chunk's shape and `getSize()` cells, each the fill value |
| `IntegerChunkIO.IntChunkReaderWriter.constructor` | src/main/java/com/bc/zarr/chunk/ChunkReaderWriterImpl_Integer.java:38-40 | keeps the compressor, chunk shape and fill value |
| `IntegerChunkIO.IntChunkReaderWriter.Size` | src/main/java/com/bc/zarr/chunk/ChunkReaderWriterImpl_Integer.java:51-51 | the number of cells of a chunk, at least 1 |
| `IntegerChunkIO.IntChunkReaderWriter.Read` | src/main/java/com/bc/zarr/chunk/ChunkReaderWriterImpl_Integer.java:43-64 | returns `ReadChunk` of the current files: the filled chunk without a file; an error when the file does not uncompress or is shorter than four bytes per cell; else the decoded `int`s shaped as the chunk |
| `IntegerChunkIO.IntChunkReaderWriter.Write` | src/main/java/com/bc/zarr/chunk/ChunkReaderWriterImpl_Integer.java:67-80 | the file at the path becomes the compressed big-endian encoding of all the array's elements; every other file stays as it was |
| `IntegerChunkIO.ReadAbsentIsFilled` | src/main/java/com/bc/zarr/chunk/ChunkReaderWriterImpl_Integer.java:44-63 | without a file, `read` gives the filled chunk, the same whatever the compressor |
| `IntegerChunkIO.ReadDecodesBigEndian` | src/main/java/com/bc/zarr/chunk/ChunkReaderWriterImpl_Integer.java:49-58 | a file uncompressing to `4 * getSize()` bytes plus anything reads successfully, shaped as the chunk, cell `i` being the big-endian `int` of bytes `4i` to `4i + 3`, and re-encoding the cells gives those bytes |
| `IntegerChunkIO.ReadShortFails` | src/main/java/com/bc/zarr/chunk/ChunkReaderWriterImpl_Integer.java:51-56 | a file uncompressing to fewer than `4 * getSize()` bytes makes `read` fail with end of stream |
| `IntegerChunkIO.WriteThenRead` | src/main/java/com/bc/zarr/chunk/ChunkReaderWriterImpl_Integer.java:43-80 | with a round-tripping compressor, writing `getSize()` elements and reading the same path gives those elements shaped as the chunk |
| `IntegerChunkIO.WriteThenReadWrongSize` | src/main/java/com/bc/zarr/chunk/ChunkReaderWriterImpl_Integer.java:74-76 | with a round-tripping compressor, a chunk written with fewer elements than cells fails to read, one with more reads back as its first `getSize()` elements |
| `IntegerChunkIO.WriteLeavesOtherPaths` | src/main/java/com/bc/zarr/chunk/ChunkReaderWriterImpl_Integer.java:72-72 | writing one path does not change what any other path reads |
| `IntegerChunkIO.WriteOverwrites` | src/main/java/com/bc/zarr/chunk/ChunkReaderWriterImpl_Integer.java:72-78 | a second write to a path replaces the first entirely |

## Left out

- Region reads and writes, the chunk grid and per-chunk locking of `ZarrArray`: `ZarrArray` is not part of this model, and its concurrency is not a sequential behaviour.
- The compressors' byte algorithms (blosc, zlib, the null compressor) and `CompressorFactory`, including the default compressor's id and description: foreign codec code. A compressor is a pair of functions, and a builder's compressor only an identity (`Compressor`).
- Compression failure on write: `compress` is a total function here. In the source the target file is already opened (and truncated) before compressing, so a failing compressor would leave an empty or partial file; that state is not modelled.
- The `java.nio.file` calls, the image streams and `ZarrInputStreamAdapter`: replaced by a path-to-bytes map; a path that exists but is not a regular file is treated like a missing one.
- `ucar.ma2.Array`: an array is a flat sequence of `int`s in row-major order plus a shape; `reshape` and `get1DJavaArray` (including its conversion of non-`int` arrays) are not modelled.
- `DataType` and `Compressor` of the source are not part of this model; their stand-ins list only the type codes and identities the builder passes along.
- The fill value's numeric typing: the builder keeps an optional integer, the codec an `int`; floating-point fill values are out of scope.
- `IntegerChunkIO.Product`: the chunk size is an unbounded product; a chunk shape whose product overflows a Java `int` is not modelled.
- `dataType(null)` and `byteOrder(null)`: the source stores and passes on a null data type or byte order unchecked; `DataType` and `ByteOrder` here have no null value, so that case is not modelled.
- `IntegerChunkIO.ValidChunkShape`: a chunk shape with a size of 0 (an empty chunk) is not modelled; the reader/writer requires every chunk size to be at least 1, while the source's `getSize()` and `new int[getSize()]` also accept 0.
- The `Params` getters: they return the constant fields, which the model exposes directly.
