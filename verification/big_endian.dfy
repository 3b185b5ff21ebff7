/**
 * Java `int`s written as and read back from 4-byte big-endian groups, as the
 * integer chunk codec's image streams do with their byte order set to
 * `BIG_ENDIAN`.
 */
module BigEndian {

  newtype uint8 = x: int | 0 <= x < 0x100

  /** Java's 32-bit two's-complement `int`. */
  newtype int32 = x: int | -0x8000_0000 <= x < 0x8000_0000

  type Bytes = seq<uint8>

  const TwoTo32: int := 0x1_0000_0000

  /** The 32 bits of `x` read as an unsigned number (two's complement). */
  function Unsigned(x: int32): (u: nat)
    ensures u < TwoTo32
    ensures (u - x as int) % TwoTo32 == 0
  {
    if x < 0 then x as int + TwoTo32 else x as int
  }

  lemma UnsignedInjective(x: int32, y: int32)
    requires Unsigned(x) == Unsigned(y)
    ensures x == y
  {
  }

  /** The number four bytes stand for when the first is the most significant. */
  function Word(b: Bytes): nat
    requires |b| == 4
  {
    b[0] as int * 0x100_0000 + b[1] as int * 0x1_0000 + b[2] as int * 0x100 + b[3] as int
  }

  /** The four bytes of a group, recovered from its number by successive division. */
  function Digits(w: nat): (b: Bytes)
    requires w < TwoTo32
    ensures |b| == 4 && Word(b) == w
  {
    var r0 := w % 0x100_0000;
    var r1 := r0 % 0x1_0000;
    [(w / 0x100_0000) as uint8, (r0 / 0x1_0000) as uint8, (r1 / 0x100) as uint8, (r1 % 0x100) as uint8]
  }

  /** Each byte of a 4-byte group is determined by the number the group stands for. */
  lemma {:induction false} WordDigits(b: Bytes)
    requires |b| == 4
    ensures Word(b) < TwoTo32 && Digits(Word(b)) == b
  {
    var w := Word(b);
    var low := b[1] as int * 0x1_0000 + b[2] as int * 0x100 + b[3] as int;
    var mid := b[2] as int * 0x100 + b[3] as int;
    assert w / 0x100_0000 == b[0] as int && w % 0x100_0000 == low;
    assert low / 0x1_0000 == b[1] as int && low % 0x1_0000 == mid;
    assert mid / 0x100 == b[2] as int && mid % 0x100 == b[3] as int;
  }

  lemma {:induction false} WordInjective(a: Bytes, b: Bytes)
    requires |a| == 4 && |b| == 4 && Word(a) == Word(b)
    ensures a == b
  {
    WordDigits(a);
    WordDigits(b);
  }

  /** `x` as four bytes, most significant first. */
  function EncodeInt(x: int32): (b: Bytes)
    ensures |b| == 4 && Word(b) == Unsigned(x)
  {
    Digits(Unsigned(x))
  }

  /** The `int` four bytes stand for, the first being the most significant. */
  function DecodeInt(b: Bytes): (x: int32)
    requires |b| == 4
    ensures Unsigned(x) == Word(b)
  {
    WordDigits(b);
    var w := Word(b);
    if w >= 0x8000_0000 then (w - TwoTo32) as int32 else w as int32
  }

  lemma {:induction false} DecodeEncodeInt(x: int32)
    ensures DecodeInt(EncodeInt(x)) == x
  {
    UnsignedInjective(DecodeInt(EncodeInt(x)), x);
  }

  lemma {:induction false} EncodeDecodeInt(b: Bytes)
    requires |b| == 4
    ensures EncodeInt(DecodeInt(b)) == b
  {
    WordInjective(EncodeInt(DecodeInt(b)), b);
  }

  /** Every `int` of `xs`, in order, as 4 big-endian bytes (`writeInts`). */
  function EncodeInts(xs: seq<int32>): (r: Bytes)
    ensures |r| == 4 * |xs|
    ensures forall i :: 0 <= i < |xs| ==> r[4 * i..4 * i + 4] == EncodeInt(xs[i])
  {
    if xs == [] then []
    else
      var k := |xs| - 1;
      var front := EncodeInts(xs[..k]);
      assert forall i :: 0 <= i < k ==> (front + EncodeInt(xs[k]))[4 * i..4 * i + 4] == front[4 * i..4 * i + 4];
      front + EncodeInt(xs[k])
  }

  /** The first `n` 4-byte groups of `bytes` read as big-endian `int`s (`readFully`). */
  function DecodeInts(bytes: Bytes, n: nat): (r: seq<int32>)
    requires 4 * n <= |bytes|
    ensures |r| == n
    ensures forall i :: 0 <= i < n ==> r[i] == DecodeInt(bytes[4 * i..4 * i + 4])
  {
    if n == 0 then [] else DecodeInts(bytes, n - 1) + [DecodeInt(bytes[4 * (n - 1)..4 * n])]
  }

  /** Decoding reads only the bytes it needs: whatever follows them is ignored. */
  lemma {:induction false} DecodeIntsIgnoresTrailing(bytes: Bytes, trailing: Bytes, n: nat)
    requires 4 * n <= |bytes|
    ensures DecodeInts(bytes + trailing, n) == DecodeInts(bytes, n)
  {
    var a, b := DecodeInts(bytes + trailing, n), DecodeInts(bytes, n);
    forall i | 0 <= i < n
      ensures a[i] == b[i]
    {
      assert (bytes + trailing)[4 * i..4 * i + 4] == bytes[4 * i..4 * i + 4];
    }
  }

  /** Decoding the encoding of `xs`, followed by any bytes at all, gives `xs` back. */
  lemma {:induction false} DecodeEncodeInts(xs: seq<int32>, trailing: Bytes)
    ensures DecodeInts(EncodeInts(xs) + trailing, |xs|) == xs
  {
    var bytes := EncodeInts(xs);
    DecodeIntsIgnoresTrailing(bytes, trailing, |xs|);
    var d := DecodeInts(bytes, |xs|);
    forall i | 0 <= i < |xs|
      ensures d[i] == xs[i]
    {
      DecodeEncodeInt(xs[i]);
    }
  }

  /** Encoding `n` decoded groups gives back the first `4 * n` bytes. */
  lemma {:induction false} EncodeDecodeInts(bytes: Bytes, n: nat)
    requires 4 * n <= |bytes|
    ensures EncodeInts(DecodeInts(bytes, n)) == bytes[..4 * n]
  {
    var d := DecodeInts(bytes, n);
    var e := EncodeInts(d);
    forall j | 0 <= j < 4 * n
      ensures e[j] == bytes[j]
    {
      var i := j / 4;
      EncodeDecodeInt(bytes[4 * i..4 * i + 4]);
      assert e[4 * i..4 * i + 4] == EncodeInt(d[i]);
      assert e[4 * i..4 * i + 4] == bytes[4 * i..4 * i + 4];
      assert e[j] == e[4 * i..4 * i + 4][j - 4 * i];
    }
  }

  /** Two sample groups: the most significant byte comes first, negatives in two's complement. */
  lemma EncodeIntExamples()
    ensures EncodeInt(1) == [0, 0, 0, 1]
    ensures EncodeInt(0x0102_0304) == [1, 2, 3, 4]
    ensures EncodeInt(-2) == [0xFF, 0xFF, 0xFF, 0xFE]
  {
  }
}
