/** 32-bit words as numbers, with the operations of section 3.2 of FIPS 180-4. */
module Words32 {
  import opened Arithmetic
  import opened Bytes

  type Word = U32

  function Pow2(n: nat): (p: nat)
    ensures p > 0
  {
    if n == 0 then 1 else 2 * Pow2(n - 1)
  }

  lemma {:induction false} Pow2Sum(m: nat, n: nat)
    ensures Pow2(m) * Pow2(n) == Pow2(m + n)
  {
    if m > 0 {
      Pow2Sum(m - 1, n);
      Doubled(Pow2(m - 1), Pow2(n));
    }
  }

  lemma Pow2Of32()
    ensures Pow2(32) == TWO_32
  {
    assert Pow2(8) == 256;
    Pow2Sum(8, 8);
    Pow2Sum(16, 16);
  }

  /** The low `n` bits of the conjunction. */
  function AndBits(x: nat, y: nat, n: nat): (r: nat)
    ensures r < Pow2(n)
  {
    if n == 0 then 0 else 2 * AndBits(x / 2, y / 2, n - 1) + (if x % 2 == 1 && y % 2 == 1 then 1 else 0)
  }

  function XorBits(x: nat, y: nat, n: nat): (r: nat)
    ensures r < Pow2(n)
  {
    if n == 0 then 0 else 2 * XorBits(x / 2, y / 2, n - 1) + (if x % 2 != y % 2 then 1 else 0)
  }

  function And(x: Word, y: Word): Word {
    Pow2Of32();
    AndBits(x, y, 32)
  }

  function Xor(x: Word, y: Word): Word {
    Pow2Of32();
    XorBits(x, y, 32)
  }

  function Not(x: Word): Word {
    TWO_32 - 1 - x
  }

  /** Addition modulo 2^32. */
  function Add(x: Word, y: Word): Word {
    (x + y) % TWO_32
  }

  function Shr(x: Word, n: nat): Word
    requires n < 32
  {
    Div(x, Pow2(n))
  }

  /** The low n bits move to the top. */
  function Rotr(x: Word, n: nat): Word
    requires n < 32
  {
    RotrFits(x, n);
    x / Pow2(n) + x % Pow2(n) * Pow2(32 - n)
  }

  lemma RotrFits(x: Word, n: nat)
    requires n < 32
    ensures 0 <= x / Pow2(n) + x % Pow2(n) * Pow2(32 - n) < TWO_32
  {
    var p, q := Pow2(n), Pow2(32 - n);
    Pow2Of32();
    Pow2Sum(n, 32 - n);
    Rotated(x, p, q);
  }

  lemma Rotated(x: nat, p: nat, q: nat)
    requires p > 0 && q > 0 && x < p * q
    ensures 0 <= x / p + x % p * q < p * q
  {
    DivBound(x, p);
    DivAtLeast(x, p, q);
    Swapped(x / p, x % p, p, q);
  }

  lemma Swapped(hi: nat, lo: nat, p: nat, q: nat)
    requires hi < q && lo < p
    ensures 0 <= hi + lo * q < p * q
  {
    Mono(lo, p - 1, q);
    assert (p - 1) * q == p * q - q;
  }

  lemma Wraps(s: nat, y: Word)
    ensures (s % TWO_32 + y) % TWO_32 == (s + y) % TWO_32
  {
  }

  /** Addition modulo 2^32 in any order. */
  lemma AnyOrder(a: Word, b: Word, c: Word, d: Word)
    ensures Add(Add(Add(a, b), c), d) == Add(Add(Add(d, c), b), a)
  {
    AddFour(a, b, c, d);
    AddFour(d, c, b, a);
  }

  lemma AddFour(a: Word, b: Word, c: Word, d: Word)
    ensures Add(Add(Add(a, b), c), d) == (a + b + c + d) % TWO_32
  {
    Wraps(a + b, c);
    Wraps(a + b + c, d);
  }

  /** A word as the number it is on the wire, most significant byte first. */
  function BigEndian(b0: Byte, b1: Byte, b2: Byte, b3: Byte): Word {
    var x0: int, x1: int, x2: int, x3: int := b0, b1, b2, b3;
    ((x0 * 256 + x1) * 256 + x2) * 256 + x3
  }
}

/** The SHA-256 of FIPS 180-4, as the standard states it. */
module Sha256Spec {
  import opened Bytes
  import opened Words32

  datatype Words = Words(a: Word, b: Word, c: Word, d: Word, e: Word, f: Word, g: Word, h: Word)

  // ---- section 4.1.2: functions ----

  function Ch(x: Word, y: Word, z: Word): Word { Xor(And(x, y), And(Not(x), z)) }

  function Maj(x: Word, y: Word, z: Word): Word { Xor(Xor(And(x, y), And(x, z)), And(y, z)) }

  function Sum0(x: Word): Word { Xor(Xor(Rotr(x, 2), Rotr(x, 13)), Rotr(x, 22)) }

  function Sum1(x: Word): Word { Xor(Xor(Rotr(x, 6), Rotr(x, 11)), Rotr(x, 25)) }

  function Sigma0(x: Word): Word { Xor(Xor(Rotr(x, 7), Rotr(x, 18)), Shr(x, 3)) }

  function Sigma1(x: Word): Word { Xor(Xor(Rotr(x, 17), Rotr(x, 19)), Shr(x, 10)) }

  // ---- section 4.2.2 and section 5.3.3: constants ----

  const K0: seq<Word> := [
    0x428a2f98, 0x71374491, 0xb5c0fbcf, 0xe9b5dba5, 0x3956c25b, 0x59f111f1, 0x923f82a4, 0xab1c5ed5]
  const K1: seq<Word> := [
    0xd807aa98, 0x12835b01, 0x243185be, 0x550c7dc3, 0x72be5d74, 0x80deb1fe, 0x9bdc06a7, 0xc19bf174]
  const K2: seq<Word> := [
    0xe49b69c1, 0xefbe4786, 0x0fc19dc6, 0x240ca1cc, 0x2de92c6f, 0x4a7484aa, 0x5cb0a9dc, 0x76f988da]
  const K3: seq<Word> := [
    0x983e5152, 0xa831c66d, 0xb00327c8, 0xbf597fc7, 0xc6e00bf3, 0xd5a79147, 0x06ca6351, 0x14292967]
  const K4: seq<Word> := [
    0x27b70a85, 0x2e1b2138, 0x4d2c6dfc, 0x53380d13, 0x650a7354, 0x766a0abb, 0x81c2c92e, 0x92722c85]
  const K5: seq<Word> := [
    0xa2bfe8a1, 0xa81a664b, 0xc24b8b70, 0xc76c51a3, 0xd192e819, 0xd6990624, 0xf40e3585, 0x106aa070]
  const K6: seq<Word> := [
    0x19a4c116, 0x1e376c08, 0x2748774c, 0x34b0bcb5, 0x391c0cb3, 0x4ed8aa4a, 0x5b9cca4f, 0x682e6ff3]
  const K7: seq<Word> := [
    0x748f82ee, 0x78a5636f, 0x84c87814, 0x8cc70208, 0x90befffa, 0xa4506ceb, 0xbef9a3f7, 0xc67178f2]

  const K := K0 + K1 + K2 + K3 + K4 + K5 + K6 + K7

  const IV := Words(0x6a09e667, 0xbb67ae85, 0x3c6ef372, 0xa54ff53a, 0x510e527f, 0x9b05688c, 0x1f83d9ab, 0x5be0cd19)

  // ---- section 5.1.1: padding ----

  /** How many zero bytes follow the 0x80. */
  function ZeroCount(n: nat): nat {
    if n % 64 < 56 then 55 - n % 64 else 119 - n % 64
  }

  /** The least number that leaves eight bytes for the length in the last block. */
  lemma ZeroCountIsLeast(n: nat, k: nat)
    ensures (n + 1 + ZeroCount(n)) % 64 == 56
    ensures (n + 1 + k) % 64 == 56 ==> k >= ZeroCount(n)
  {
    assert (n + 1 + k) % 64 == (n % 64 + 1 + k) % 64;
  }

  function Padding(n: nat): seq<Byte>
    requires 8 * n < TWO_64
  {
    [0x80] + Zeros(ZeroCount(n)) + Be64(8 * n)
  }

  // ---- section 6.2.2: the hash computation ----

  /** Word t of the message schedule. */
  function W(block: seq<Byte>, t: nat): Word
    requires |block| == 64 && t < 64
  {
    if t < 16 then BigEndian(block[4 * t], block[4 * t + 1], block[4 * t + 2], block[4 * t + 3])
    else Add(Add(Add(Sigma1(W(block, t - 2)), W(block, t - 7)), Sigma0(W(block, t - 15))), W(block, t - 16))
  }

  function Round(v: Words, k: Word, w: Word): Words {
    var t1 := Add(Add(Add(Add(v.h, Sum1(v.e)), Ch(v.e, v.f, v.g)), k), w);
    var t2 := Add(Sum0(v.a), Maj(v.a, v.b, v.c));
    Words(Add(t1, t2), v.a, v.b, v.c, Add(v.d, t1), v.e, v.f, v.g)
  }

  /** The working variables after t rounds with the constants k. */
  function Rounds(k: seq<Word>, v: Words, block: seq<Byte>, t: nat): Words
    requires |block| == 64 && |k| == 64 && t <= 64
  {
    if t == 0 then v else Round(Rounds(k, v, block, t - 1), k[t - 1], W(block, t - 1))
  }

  function Plus(x: Words, y: Words): Words {
    Words(Add(x.a, y.a), Add(x.b, y.b), Add(x.c, y.c), Add(x.d, y.d),
          Add(x.e, y.e), Add(x.f, y.f), Add(x.g, y.g), Add(x.h, y.h))
  }

  function Compress(v: Words, block: seq<Byte>): Words
    requires |block| == 64
  {
    Plus(v, Rounds(K, v, block, 64))
  }

  /** The intermediate hash value after whole blocks. */
  function HashBlocks(m: seq<Byte>): Words
    requires |m| % 64 == 0
  {
    if m == [] then IV else Compress(HashBlocks(m[..|m| - 64]), m[|m| - 64..])
  }

  lemma PaddedIsWhole(m: seq<Byte>)
    requires 8 * |m| < TWO_64
    ensures |m + Padding(|m|)| % 64 == 0
  {
    ZeroCountIsLeast(|m|, 0);
    RoomForLength(|m| + 1 + ZeroCount(|m|));
    assert |m + Padding(|m|)| == |m| + 1 + ZeroCount(|m|) + 8;
  }

  lemma RoomForLength(n: nat)
    requires n % 64 == 56
    ensures (n + 8) % 64 == 0
  {
  }

  function Sha256(m: seq<Byte>): Words
    requires 8 * |m| < TWO_64
  {
    PaddedIsWhole(m);
    HashBlocks(m + Padding(|m|))
  }

  // ---- the digest in hexadecimal ----

  const HEX := "0123456789abcdef"

  /** The `n` low hexadecimal digits, most significant first. */
  function HexDigits(x: nat, n: nat): (s: string)
    ensures |s| == n
  {
    if n == 0 then "" else HexDigits(x / 16, n - 1) + [HEX[x % 16]]
  }

  function HexWord(w: Word): (s: string)
    ensures |s| == 8
  {
    HexDigits(w, 8)
  }

  function Hex(v: Words): (s: string)
    ensures |s| == 64
  {
    HexWord(v.a) + HexWord(v.b) + HexWord(v.c) + HexWord(v.d)
    + HexWord(v.e) + HexWord(v.f) + HexWord(v.g) + HexWord(v.h)
  }
}

/** The streaming implementation. */
module Sha256Stream {
  import opened Arithmetic
  import opened Bytes
  import opened Sequences
  import opened Words32
  import opened Sha256Spec

  method Extend(w2: Word, w7: Word, w15: Word, w16: Word) returns (w: Word)
    ensures w == Add(Add(Add(Sigma1(w2), w7), Sigma0(w15)), w16)
  {
    var s0 := Xor(Xor(Rotr(w15, 7), Rotr(w15, 18)), Shr(w15, 3));
    var s1 := Xor(Xor(Rotr(w2, 17), Rotr(w2, 19)), Shr(w2, 10));
    AnyOrder(s1, w7, s0, w16);
    w := Add(Add(Add(w16, s0), w7), s1);
  }

  method FirstWords(p: seq<Byte>, w: array<Word>)
    requires |p| == 64 && w.Length == 64
    modifies w
    ensures forall t :: 0 <= t < 16 ==> w[t] == W(p, t)
  {
    for i := 0 to 16
      invariant forall t :: 0 <= t < i ==> w[t] == W(p, t)
    {
      w[i] := BigEndian(p[4 * i], p[4 * i + 1], p[4 * i + 2], p[4 * i + 3]);
    }
  }

  method Schedule(p: seq<Byte>) returns (w: array<Word>)
    requires |p| == 64
    ensures fresh(w) && w.Length == 64 && forall t :: 0 <= t < 64 ==> w[t] == W(p, t)
  {
    w := new Word[64];
    FirstWords(p, w);
    for i := 16 to 64
      invariant forall t :: 0 <= t < i ==> w[t] == W(p, t)
    {
      w[i] := Extend(w[i - 2], w[i - 7], w[i - 15], w[i - 16]);
    }
  }

  /** One round, as the code does it. */
  method OneRound(v: Words, k: Word, w: Word) returns (r: Words)
    ensures r == Round(v, k, w)
  {
    var t1 := Add(Add(Add(Add(v.h, Xor(Xor(Rotr(v.e, 6), Rotr(v.e, 11)), Rotr(v.e, 25))),
                          Xor(And(v.e, v.f), And(Not(v.e), v.g))), k), w);
    var t2 := Add(Xor(Xor(Rotr(v.a, 2), Rotr(v.a, 13)), Rotr(v.a, 22)),
                  Xor(Xor(And(v.a, v.b), And(v.a, v.c)), And(v.b, v.c)));
    r := Words(Add(t1, t2), v.a, v.b, v.c, Add(v.d, t1), v.e, v.f, v.g);
  }

  method AllRounds(k: seq<Word>, v0: Words, p: seq<Byte>, w: array<Word>) returns (v: Words)
    requires |k| == 64 && |p| == 64 && w.Length == 64 && forall t :: 0 <= t < 64 ==> w[t] == W(p, t)
    ensures v == Rounds(k, v0, p, 64)
  {
    v := v0;
    for i := 0 to 64
      invariant v == Rounds(k, v0, p, i)
    {
      v := OneRound(v, k[i], w[i]);
    }
  }

  method CompressBlock(h: Words, p: seq<Byte>) returns (r: Words)
    requires |p| == 64
    ensures r == Compress(h, p)
  {
    var w := Schedule(p);
    var v := AllRounds(K, h, p, w);
    r := Words(Add(h.a, v.a), Add(h.b, v.b), Add(h.c, v.c), Add(h.d, v.d),
               Add(h.e, v.e), Add(h.f, v.f), Add(h.g, v.g), Add(h.h, v.h));
  }

  /** A stand-in for HashBlocks. */
  ghost predicate IsHash(hash: seq<Byte> -> Words) {
    forall m: seq<Byte> {:trigger HashBlocks(m)} :: |m| % 64 == 0 ==> hash(m) == HashBlocks(m)
  }

  lemma OneMoreBlock(whole: seq<Byte>, p: seq<Byte>, hash: seq<Byte> -> Words)
    requires |whole| % 64 == 0 && |p| == 64 && IsHash(hash)
    ensures |whole + p| % 64 == 0 && hash(whole + p) == Compress(hash(whole), p)
  {
    assert (whole + p)[..|whole|] == whole && (whole + p)[|whole|..] == p;
    assert HashBlocks(whole + p) == Compress(HashBlocks(whole), p);
  }

  class Stream {
    var h: Words
    var len: nat            // modulo 2^64
    var buf: array<Byte>
    var fill: nat
    ghost var whole: seq<Byte>   // what has been compressed
    ghost const hash: seq<Byte> -> Words

    ghost predicate Core()
      reads this
    {
      buf.Length == 64 && fill < 64 && |whole| % 64 == 0 && IsHash(hash) && h == hash(whole)
    }

    ghost predicate Valid()
      reads this
    {
      Core() && len == (|whole| + fill) % TWO_64
    }

    /** Everything it was given. */
    ghost function Message(): seq<Byte>
      requires Core()
      reads this, buf
    {
      whole + buf[..fill]
    }

    constructor ()
      ensures Valid() && Message() == [] && fresh(buf)
    {
      h, len, fill, whole := IV, 0, 0, [];
      hash := m => if |m| % 64 == 0 then HashBlocks(m) else IV;
      buf := new Byte[64];
    }

    method Block(p: seq<Byte>)
      requires |p| == 64 && |whole| % 64 == 0 && IsHash(hash) && h == hash(whole)
      modifies this`h, this`whole
      ensures whole == old(whole) + p && |whole| % 64 == 0 && h == hash(whole)
    {
      OneMoreBlock(whole, p, hash);
      h := CompressBlock(h, p);
      whole := whole + p;
    }

    /** A whole block straight from the input. */
    method Direct(p: seq<Byte>)
      requires Core() && fill == 0 && |p| == 64
      modifies this`h, this`whole
      ensures Core() && Message() == old(Message()) + p
    {
      Block(p);
    }

    /** As much of the input as the buffer takes. */
    method Buffered(p: seq<Byte>)
      requires Core() && |p| <= 64 - fill
      modifies this`h, this`whole, this`fill, buf
      ensures Core() && Message() == old(Message()) + p
    {
      forall i | 0 <= i < |p| {
        buf[fill + i] := p[i];
      }
      fill := fill + |p|;
      assert buf[..fill] == old(buf[..fill]) + p;
      Assoc(whole, old(buf[..fill]), p);
      if fill == 64 {
        Block(buf[..]);
        fill := 0;
      }
    }

    /** One turn of the loop: a whole block, or as much as fits. */
    method Some(p: seq<Byte>) returns (take: nat)
      requires Core() && p != []
      modifies this`h, this`whole, this`fill, buf
      ensures Core() && 1 <= take <= |p| && Message() == old(Message()) + p[..take]
    {
      if fill == 0 && |p| >= 64 {
        take := 64;
        Direct(p[..take]);
      } else {
        take := Min(64 - fill, |p|);
        Buffered(p[..take]);
      }
    }

    method Update(p: seq<Byte>)
      requires Valid()
      modifies this`h, this`whole, this`fill, this`len, buf
      ensures Valid() && Message() == old(Message()) + p
    {
      ghost var before := Message();
      len := (len + |p|) % TWO_64;
      var at := 0;
      assert Message() == before + p[..0];
      while at < |p|
        invariant 0 <= at <= |p| && Core() && Message() == before + p[..at]
        invariant len == (|before| % TWO_64 + |p|) % TWO_64
      {
        var take := Some(p[at..]);
        OneMore(before, p, at, take);
        at := at + take;
      }
      assert p[..at] == p;
      assert |Message()| == |before| + |p|;
      Wrapped(|before|, |p|);
    }

    /** The padding and the length, which complete the last block. */
    method Pad()
      requires Valid() && 8 * |Message()| < TWO_64
      modifies this`h, this`whole, this`fill, this`len, buf
      ensures Core() && whole == old(Message()) + Padding(|old(Message())|)
    {
      ghost var m := Message();
      var bits := len * 8 % TWO_64;
      assert bits == 8 * |m|;
      var pad := [0x80] + Zeros(71);
      var padlen := (if fill < 56 then 56 else 120) - fill;
      Lengths(whole, buf[..fill]);
      PadBytes(pad, padlen, ZeroCount(|m|));
      Update(pad[..padlen]);
      var lenb := LengthBytes(bits);
      Update(lenb);
      Padded(m, pad[..padlen], lenb);
      Lengths(whole, buf[..fill]);
      Nothing(whole, buf[..fill]);
    }

    /** The digest of everything it was given, as FIPS 180-4 defines it. */
    method Finish() returns (hex: string)
      requires Valid() && 8 * |Message()| < TWO_64
      modifies this`h, this`whole, this`fill, this`len, buf
      ensures hex == Hex(Sha256(old(Message())))
    {
      Pad();
      assert h == HashBlocks(whole);
      hex := Hex(h);
    }
  }

  lemma OneMore(a: seq<Byte>, p: seq<Byte>, at: nat, take: nat)
    requires at + take <= |p|
    ensures (a + p[..at]) + p[at..][..take] == a + p[..at + take]
  {
    Assoc(a, p[..at], p[at..][..take]);
    assert p[..at] + p[at..][..take] == p[..at + take];
  }

  lemma Wrapped(n: nat, k: nat)
    ensures (n % TWO_64 + k) % TWO_64 == (n + k) % TWO_64
  {
  }

  lemma Padded(m: seq<Byte>, pad: seq<Byte>, lenb: seq<Byte>)
    requires 8 * |m| < TWO_64
    requires pad == [0x80] + Zeros(ZeroCount(|m|)) && lenb == Be64(8 * |m|)
    ensures m + pad + lenb == m + Padding(|m|) && |m + pad + lenb| % 64 == 0
  {
    Assoc(m, pad, lenb);
    PaddedIsWhole(m);
  }

  lemma PadBytes(pad: seq<Byte>, padlen: nat, zeros: nat)
    requires pad == [0x80] + Zeros(71) && padlen == 1 + zeros <= |pad|
    ensures pad[..padlen] == [0x80] + Zeros(zeros)
  {
  }

  lemma Nothing(whole: seq<Byte>, tail: seq<Byte>)
    ensures tail == [] ==> whole + tail == whole
  {
  }

  lemma Lengths(whole: seq<Byte>, tail: seq<Byte>)
    requires |whole| % 64 == 0 && |tail| < 64
    ensures |whole + tail| % 64 == |tail|
  {
  }

  /** What is above the k low bytes. */
  function High(v: nat, k: nat): nat {
    Div(v, Power256(k))
  }

  lemma {:induction false} DigitAt(v: nat, n: nat, i: nat)
    requires i < n
    ensures Digits(v, n)[i] == High(v, n - 1 - i) % 256
  {
    if i == n - 1 {
      assert High(v, 0) == v;
    } else {
      DigitAt(v / 256, n - 1, i);
      HighOfRest(v, n - 2 - i);
    }
  }

  lemma {:induction false} HighOfRest(v: nat, k: nat)
    ensures High(v / 256, k) == High(v, k + 1)
  {
    DivTwice(v, 256, Power256(k));
  }

  /** The length in bits, most significant byte first. */
  method LengthBytes(bits: nat) returns (b: seq<Byte>)
    requires bits < TWO_64
    ensures b == Be64(bits)
  {
    ghost var all := Be64(bits);
    b := [];
    for i := 0 to 8
      invariant |b| == i && b == all[..i]
    {
      DigitAt(bits, 8, i);
      b := b + [High(bits, 7 - i) % 256];
    }
  }

  lemma {:induction false} ConcatSnoc(parts: seq<seq<Byte>>, last: seq<Byte>)
    ensures Concat(parts + [last]) == Concat(parts) + last
  {
    if parts == [] {
      assert parts + [last] == [last] && [last][1..] == [] && last + [] == [] + last;
    } else {
      assert (parts + [last])[1..] == parts[1..] + [last];
      ConcatSnoc(parts[1..], last);
      Assoc(parts[0], Concat(parts[1..]), last);
    }
  }

  /** However a message is cut into updates, the result is the digest of the whole. */
  method DigestOf(parts: seq<seq<Byte>>) returns (hex: string)
    requires 8 * |Concat(parts)| < TWO_64
    ensures hex == Hex(Sha256(Concat(parts)))
  {
    var s := new Stream();
    for i := 0 to |parts|
      invariant s.Valid() && fresh(s) && fresh(s.buf) && s.Message() == Concat(parts[..i])
    {
      s.Update(parts[i]);
      ConcatSnoc(parts[..i], parts[i]);
      assert parts[..i] + [parts[i]] == parts[..i + 1];
    }
    assert parts[..|parts|] == parts;
    hex := s.Finish();
  }
}
