/**
 * The chunk-shape arithmetic behind `ArrayParams.build()`: the per-axis
 * auto-chunking heuristic, the replacement of chunk sizes below 1, and the
 * whole chunk-shape resolution with its two configuration errors, as pure
 * functions over the values the builder holds.
 */
module ChunkLayout {
  import opened Wrappers

  /** The number of cells per chunk and axis the heuristic aims at. */
  const TargetChunkDim: int := 512

  function Abs(x: int): nat { if x < 0 then -x else x }

  /** Java's `/` on `int`: the quotient truncated toward zero. */
  function JavaDiv(a: int, b: int): int
    requires b != 0
  {
    if (a < 0) == (b < 0) then Abs(a) / Abs(b) else -(Abs(a) / Abs(b))
  }

  /** Java's `%` on `int`: the remainder takes the sign of the dividend. */
  function JavaRem(a: int, b: int): int
    requires b != 0
  {
    a - b * JavaDiv(a, b)
  }

  /** On non-negative operands Java's `/` and `%` agree with Dafny's. */
  lemma JavaDivRemNonNegative(a: int, b: int)
    requires a >= 0 && b > 0
    ensures JavaDiv(a, b) == a / b && JavaRem(a, b) == a % b
  {
  }

  /**
   * The divisor the heuristic computes for an axis of `s >= 512` cells: with
   * `n = s / 512` it is `s / (n + 1)`, which lies between 256 and 511, so the
   * remainder taken by it never divides by zero.
   */
  lemma {:induction false} HeuristicDivisorBounds(s: int)
    requires s >= TargetChunkDim
    ensures JavaDiv(s, TargetChunkDim) >= 1
    ensures 256 <= JavaDiv(s, JavaDiv(s, TargetChunkDim) + 1) <= 511
  {
    JavaDivRemNonNegative(s, TargetChunkDim);
    var n := s / 512;
    assert 512 * n <= s < 512 * n + 512;
    JavaDivRemNonNegative(s, n + 1);
    var c := s / (n + 1);
    assert c * (n + 1) <= s < c * (n + 1) + (n + 1);
    // s < 512 * (n + 1), hence c < 512
    assert c < 512 by {
      assert c * (n + 1) <= s < 512 * (n + 1);
    }
    // n + 1 <= 2 * n and s >= 512 * n, hence c >= 256
    assert c >= 256 by {
      assert 256 * (n + 1) <= 512 * n <= s < (c + 1) * (n + 1);
    }
  }

  /**
   * The chunk size the builder picks for one axis of `s` cells when no chunks
   * are given and chunking is on (ArrayParams.java, lines 158-169).
   */
  function AutoChunkDim(s: int): (c: int)
    ensures s >= TargetChunkDim ==> 256 <= c <= TargetChunkDim && c <= s
    ensures s < TargetChunkDim ==> c == s
  {
    var numChunks := JavaDiv(s, TargetChunkDim);
    if numChunks > 0 then
      HeuristicDivisorBounds(s);
      var chunkDim := JavaDiv(s, numChunks + 1);
      if JavaRem(s, chunkDim) == 0 then chunkDim else chunkDim + 1
    else
      assert s < TargetChunkDim by {
        if s >= TargetChunkDim { JavaDivRemNonNegative(s, TargetChunkDim); }
      }
      s
  }

  /** The heuristic applied to every axis, in order. */
  function AutoChunks(shape: seq<int>): (chunks: seq<int>)
    ensures |chunks| == |shape|
    ensures forall i :: 0 <= i < |shape| ==> chunks[i] == AutoChunkDim(shape[i])
  {
    if shape == [] then []
    else AutoChunks(shape[..|shape| - 1]) + [AutoChunkDim(shape[|shape| - 1])]
  }

  /** Every chunk size below 1 replaced by the size of the array along that axis. */
  function NormalizeChunks(shape: seq<int>, chunks: seq<int>): (r: seq<int>)
    requires |chunks| == |shape|
    ensures |r| == |chunks|
    ensures forall i :: 0 <= i < |chunks| ==>
              r[i] == if chunks[i] < 1 then shape[i] else chunks[i]
  {
    if chunks == [] then []
    else
      var k := |chunks| - 1;
      NormalizeChunks(shape[..k], chunks[..k]) + [if chunks[k] < 1 then shape[k] else chunks[k]]
  }

  /** The two ways `build()` can refuse a configuration. */
  datatype BuildError =
    | ShapeNotGiven
    | ChunkRankMismatch(expected: nat, actual: nat)

  /** Decimal digits of a natural number, as Java's string concatenation writes them. */
  function NatToString(n: nat): (s: string)
    ensures |s| >= 1
    ensures forall i :: 0 <= i < |s| ==> '0' <= s[i] <= '9'
    ensures s[0] == '0' <==> n == 0
    ensures n == 0 ==> s == "0"
  {
    var d := ['0', '1', '2', '3', '4', '5', '6', '7', '8', '9'];
    if n < 10 then [d[n]] else NatToString(n / 10) + [d[n % 10]]
  }

  /** The number a string of decimal digits stands for. */
  function DigitsValue(s: string): nat
    requires forall i :: 0 <= i < |s| ==> '0' <= s[i] <= '9'
  {
    if s == [] then 0 else 10 * DigitsValue(s[..|s| - 1]) + (s[|s| - 1] as int - '0' as int)
  }

  /** `NatToString(n)` spells `n` in decimal. */
  lemma {:induction false} NatToStringValue(n: nat)
    ensures DigitsValue(NatToString(n)) == n
  {
    var s := NatToString(n);
    if n >= 10 {
      NatToStringValue(n / 10);
      assert s[..|s| - 1] == NatToString(n / 10);
    }
  }

  /** The message of the `IllegalArgumentException` `build()` throws. */
  function Message(e: BuildError): (m: string)
    ensures e.ShapeNotGiven? ==> m == "Shape must be given."
    ensures e.ChunkRankMismatch? ==>
              var prefix := "Chunks must have the same number of dimensions as shape. Expected: ";
              && |m| > |prefix| + 2
              && m[..|prefix|] == prefix
              && m[|m| - 2..] == " !"
              && m[|prefix|..|m| - 2] == NatToString(e.expected) + " but was " + NatToString(e.actual)
  {
    match e
    case ShapeNotGiven => "Shape must be given."
    case ChunkRankMismatch(expected, actual) =>
      var prefix := "Chunks must have the same number of dimensions as shape. Expected: ";
      var m := prefix + NatToString(expected) + " but was " + NatToString(actual) + " !";
      m
  }

  /**
   * The chunk shape `build()` ends with, or the error it throws, given the
   * builder's shape and chunks (`None` for a null array) and its `chunked` flag.
   */
  function ResolveChunks(shape: Option<seq<int>>, chunks: Option<seq<int>>, chunked: bool): (r: Result<seq<int>, BuildError>)
    ensures r == Failure(ShapeNotGiven) <==> shape.None? || shape.value == []
    ensures r.Failure? && r.error.ChunkRankMismatch? ==>
              shape.Some? && chunks.Some? && r.error == ChunkRankMismatch(|shape.value|, |chunks.value|)
              && |shape.value| != |chunks.value|
    ensures shape.Some? && shape.value != [] && chunks.Some? && |chunks.value| != |shape.value| ==>
              r == Failure(ChunkRankMismatch(|shape.value|, |chunks.value|))
    ensures shape.Some? && shape.value != [] && (chunks.None? || |chunks.value| == |shape.value|) ==> r.Success?
    ensures r.Success? ==> shape.Some? && |r.value| == |shape.value|
  {
    if shape.None? || |shape.value| == 0 then Failure(ShapeNotGiven)
    else
      var s := shape.value;
      var given := if chunks.Some? then chunks.value else if chunked then AutoChunks(s) else s;
      if |s| != |given| then Failure(ChunkRankMismatch(|s|, |given|))
      else Success(NormalizeChunks(s, given))
  }

  /**
   * With `chunked(false)` and no chunks the chunk shape is a copy of the
   * shape, whatever the shape holds, so the array is a single chunk.
   */
  lemma {:induction false} UnchunkedChunksEqualShape(shape: seq<int>)
    requires shape != []
    ensures ResolveChunks(Some(shape), None, false) == Success(shape)
  {
    var r := NormalizeChunks(shape, shape);
    assert forall i :: 0 <= i < |shape| ==> r[i] == shape[i];
    assert r == shape;
  }

  /**
   * When the shape is positive on every axis (the array-metadata invariant),
   * every resolved chunk size is at least 1, and a chunk size the builder
   * computed itself (no chunks given) never exceeds the shape.
   */
  lemma {:induction false} ResolvedChunksPositive(shape: seq<int>, chunks: Option<seq<int>>, chunked: bool)
    requires shape != [] && forall i :: 0 <= i < |shape| ==> shape[i] >= 1
    requires ResolveChunks(Some(shape), chunks, chunked).Success?
    ensures var cs := ResolveChunks(Some(shape), chunks, chunked).value;
            forall i :: 0 <= i < |cs| ==> 1 <= cs[i] && (chunks.None? ==> cs[i] <= shape[i])
  {
  }

  /**
   * Resolving chunks that are already resolved (every size at least 1, one per
   * axis of the new shape) keeps them: a builder derived from a built `Params`
   * and given a new shape of the same rank does not rerun the heuristic.
   */
  lemma {:induction false} RebuildKeepsChunks(newShape: seq<int>, chunks: seq<int>, chunked: bool)
    requires newShape != [] && |newShape| == |chunks|
    requires forall i :: 0 <= i < |chunks| ==> chunks[i] >= 1
    ensures ResolveChunks(Some(newShape), Some(chunks), chunked) == Success(chunks)
  {
    var r := NormalizeChunks(newShape, chunks);
    assert forall i :: 0 <= i < |chunks| ==> r[i] == chunks[i];
    assert r == chunks;
  }

  /**
   * The heuristic tests the shape against the rounded-down quotient, not the
   * number of chunks: for 261120 cells it keeps 510 (a divisor of 261120,
   * giving 512 chunks), where rounding 261120 / 511 up would give 511.
   */
  lemma HeuristicIsNotCeiling()
    ensures AutoChunkDim(261120) == 510
    ensures (261120 + 510) / 511 == 511
  {
    JavaDivRemNonNegative(261120, 512);
    JavaDivRemNonNegative(261120, 511);
    JavaDivRemNonNegative(261120, 510);
  }

  /** The per-axis sizes the builder's tests expect from the heuristic. */
  lemma AutoChunkDimExamples()
    ensures AutoChunkDim(3800) == 475
    ensures AutoChunkDim(5000) == 500
    ensures AutoChunkDim(4999) == 500
    ensures AutoChunkDim(33) == 33
  {
    JavaDivRemNonNegative(3800, 512);
    JavaDivRemNonNegative(3800, 8);
    JavaDivRemNonNegative(3800, 475);
    JavaDivRemNonNegative(5000, 512);
    JavaDivRemNonNegative(5000, 10);
    JavaDivRemNonNegative(5000, 500);
    JavaDivRemNonNegative(4999, 512);
    JavaDivRemNonNegative(4999, 10);
    JavaDivRemNonNegative(4999, 499);
    JavaDivRemNonNegative(33, 512);
  }

  /** The configurations without explicit chunks that the builder's tests check. */
  lemma AutoChunksExamples()
    ensures ResolveChunks(Some([3800, 5000]), None, true) == Success([475, 500])
    ensures ResolveChunks(Some([3800, 4999]), None, true) == Success([475, 500])
    ensures ResolveChunks(Some([3800, 33]), None, true) == Success([475, 33])
    ensures ResolveChunks(Some([1000, 1000]), None, false) == Success([1000, 1000])
  {
    AutoChunkDimExamples();
    AutoChunksOfTwo(3800, 5000);
    AutoChunksOfTwo(3800, 4999);
    AutoChunksOfTwo(3800, 33);
    UnchunkedChunksEqualShape([1000, 1000]);
  }

  /** Two-axis instance of the heuristic on axes whose sizes are at least 1. */
  lemma AutoChunksOfTwo(a: int, b: int)
    requires a >= 1 && b >= 1
    ensures ResolveChunks(Some([a, b]), None, true) == Success([AutoChunkDim(a), AutoChunkDim(b)])
  {
    var cs := AutoChunks([a, b]);
    assert cs == [AutoChunkDim(a), AutoChunkDim(b)];
    RebuildKeepsChunks([a, b], cs, true);
  }

  /** The configurations with explicit chunks, and the errors, that the builder's tests check. */
  lemma GivenChunksExamples()
    ensures ResolveChunks(Some([3800, 5000]), Some([444, 0]), true) == Success([444, 5000])
    ensures ResolveChunks(Some([800, 1000]), Some([200, 100]), true) == Success([200, 100])
    ensures ResolveChunks(None, Some([2, 3, 4]), true) == Failure(ShapeNotGiven)
    ensures ResolveChunks(Some([]), Some([2, 3, 4]), true) == Failure(ShapeNotGiven)
    ensures ResolveChunks(Some([1000, 1000]), Some([10, 10, 100]), true) == Failure(ChunkRankMismatch(2, 3))
  {
    var r := NormalizeChunks([3800, 5000], [444, 0]);
    assert r[0] == 444 && r[1] == 5000;
    assert r == [444, 5000];
    RebuildKeepsChunks([800, 1000], [200, 100], true);
  }

  /** The spellings of the two ranks in the rank test. */
  lemma SmallRanks()
    ensures NatToString(2) == "2" && NatToString(3) == "3"
  {
  }

  /** The exception messages the builder's tests expect. */
  lemma MessageExamples()
    ensures Message(ShapeNotGiven) == "Shape must be given."
    ensures Message(ChunkRankMismatch(2, 3))
            == "Chunks must have the same number of dimensions as shape. Expected: 2 but was 3 !"
  {
    SmallRanks();
    var prefix := "Chunks must have the same number of dimensions as shape. Expected: ";
    assert Message(ChunkRankMismatch(2, 3)) == prefix + "2" + " but was " + "3" + " !";
  }
}
