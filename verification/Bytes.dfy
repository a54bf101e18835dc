/** Bytes, fixed-width unsigned integers and the big-endian layout that the audio protocol uses. */
module Bytes {

  const TWO_32: int := 0x1_0000_0000
  const TWO_64: int := 0x1_0000_0000_0000_0000

  /** The longest audio packet, and the largest audio buffer. */
  const ABSOLUTE_MAX_BUFFER: int := 16 * 1024 * 1024

  type Byte = x: int | 0 <= x < 256
  type U16 = x: int | 0 <= x < 0x1_0000
  type U32 = x: int | 0 <= x < 0x1_0000_0000
  type U64 = x: int | 0 <= x < 0x1_0000_0000_0000_0000
  type S64 = x: int | -0x8000_0000_0000_0000 <= x < 0x8000_0000_0000_0000

  datatype Option<+T> = None | Some(value: T)

  function Min(a: int, b: int): int {
    if a <= b then a else b
  }

  function Max(a: int, b: int): int {
    if a <= b then b else a
  }

  function Zeros(n: nat): seq<Byte> {
    seq(n, _ => 0)
  }

  function Concat(chunks: seq<seq<Byte>>): seq<Byte> {
    if chunks == [] then [] else chunks[0] + Concat(chunks[1..])
  }

  /** The number whose base-256 digits are `b`, most significant first. */
  function Value(b: seq<Byte>): (v: nat)
    ensures v < Power256(|b|)
  {
    if b == [] then 0 else Value(b[..|b| - 1]) * 256 + b[|b| - 1]
  }

  function Power256(n: nat): (p: nat)
    ensures p > 0
  {
    if n == 0 then 1 else 256 * Power256(n - 1)
  }

  /** The `n` low base-256 digits of `v`, most significant first. */
  function Digits(v: nat, n: nat): (b: seq<Byte>)
    ensures |b| == n
    ensures v < Power256(n) ==> Value(b) == v
  {
    if n == 0 then [] else Digits(v / 256, n - 1) + [v % 256]
  }

  lemma LastDigit(v: nat, x: Byte)
    ensures (v * 256 + x) / 256 == v && (v * 256 + x) % 256 == x
  {
  }

  lemma {:induction false} DigitsOfValue(b: seq<Byte>)
    ensures Digits(Value(b), |b|) == b
  {
    if b != [] {
      var n := |b| - 1;
      DigitsOfValue(b[..n]);
      LastDigit(Value(b[..n]), b[n]);
      assert b == b[..n] + [b[n]];
    }
  }

  lemma Widths()
    ensures Power256(4) == TWO_32 && Power256(8) == TWO_64
  {
    assert Power256(2) == 0x1_0000;
    assert Power256(3) == 0x100_0000;
    assert Power256(6) == 0x1_0000_0000_0000;
  }

  function Join(hi: int, lo: int): int {
    hi * 256 + lo
  }

  function FromBe32(b: seq<Byte>): (v: U32)
    requires |b| == 4
  {
    Widths();
    Value(b)
  }

  function Be32(v: U32): (b: seq<Byte>)
    ensures |b| == 4 && FromBe32(b) == v
  {
    Widths();
    Digits(v, 4)
  }

  /** Four bytes are the layout of the number they read as: the layout is a bijection. */
  lemma Be32Onto(b: seq<Byte>)
    requires |b| == 4
    ensures Be32(FromBe32(b)) == b
  {
    DigitsOfValue(b);
  }

  /** The shifts and ors that take four bytes apart and together. */
  lemma FourBytes(a: Byte, b: Byte, c: Byte, d: Byte)
    ensures FromBe32([a, b, c, d]) == Join(Join(Join(a, b), c), d)
  {
    assert [a, b, c, d][..3] == [a, b, c] && [a, b, c][..2] == [a, b] && [a, b][..1] == [a];
    assert Value([a]) == a;
    assert Value([a, b]) == Join(a, b);
    assert Value([a, b, c]) == Join(Join(a, b), c);
  }

  function FromBe64(b: seq<Byte>): (v: U64)
    requires |b| == 8
  {
    Widths();
    Value(b)
  }

  function Be64(v: U64): (b: seq<Byte>)
    ensures |b| == 8 && FromBe64(b) == v
  {
    Widths();
    Digits(v, 8)
  }

  lemma ValueSnoc(a: seq<Byte>, x: Byte)
    ensures Value(a + [x]) == Join(Value(a), x)
  {
    assert (a + [x])[..|a|] == a;
  }

  lemma ValueOfWordPair(a: seq<Byte>, b: seq<Byte>)
    requires |b| == 4
    ensures Value(a + b) == Value(a) * TWO_32 + Value(b)
  {
    var s1 := a + [b[0]];
    var s2 := s1 + [b[1]];
    var s3 := s2 + [b[2]];
    assert a + b == s3 + [b[3]];
    ValueSnoc(a, b[0]);
    ValueSnoc(s1, b[1]);
    ValueSnoc(s2, b[2]);
    ValueSnoc(s3, b[3]);
    assert b == [b[0], b[1], b[2], b[3]];
    FourBytes(b[0], b[1], b[2], b[3]);
    JoinedWord(Value(a), b[0], b[1], b[2], b[3]);
  }

  lemma JoinedWord(v: int, b0: int, b1: int, b2: int, b3: int)
    ensures Join(Join(Join(Join(v, b0), b1), b2), b3) == v * TWO_32 + Join(Join(Join(b0, b1), b2), b3)
  {
  }

  /** A word taken apart by shifts. */
  lemma SplitWord(v: U32)
    ensures Be32(v) == [v / 0x100 / 0x100 / 0x100, v / 0x100 / 0x100 % 0x100, v / 0x100 % 0x100, v % 0x100]
  {
    var v1 := v / 0x100;
    var v2 := v1 / 0x100;
    FourBytes(v2 / 0x100, v2 % 0x100, v1 % 0x100, v % 0x100);
    Be32Onto([v2 / 0x100, v2 % 0x100, v1 % 0x100, v % 0x100]);
  }

  /** A 64-bit number goes out as two 32-bit halves, the high one first. */
  lemma Halves(hi: U32, lo: U32)
    ensures Be64(hi * TWO_32 + lo) == Be32(hi) + Be32(lo)
  {
    Widths();
    ValueOfWordPair(Be32(hi), Be32(lo));
    DigitsOfValue(Be32(hi) + Be32(lo));
  }
}
