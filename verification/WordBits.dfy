/** The word operations bit by bit, which is how section 2.2.2 and section 3.2 of FIPS 180-4 define them. */
module WordBits {
  import opened Arithmetic
  import opened Bytes
  import opened Words32
  import opened Sha256Spec

  /** Bit i of a number, counted from the least significant. */
  function Bit(x: nat, i: nat): (b: nat)
    ensures b == 0 || b == 1
    decreases i
  {
    if i == 0 then x % 2 else Bit(x / 2, i - 1)
  }

  lemma {:induction false} BitIs(x: nat, i: nat)
    ensures Bit(x, i) == Div(x, Pow2(i)) % 2
    decreases i
  {
    if i > 0 {
      BitIs(x / 2, i - 1);
      DivTwice(x, 2, Pow2(i - 1));
    }
  }

  lemma {:induction false} AndBitsAt(x: nat, y: nat, n: nat, i: nat)
    requires i < n
    ensures Bit(AndBits(x, y, n), i) == if Bit(x, i) == 1 && Bit(y, i) == 1 then 1 else 0
  {
    var r := AndBits(x, y, n);
    if i > 0 {
      AndBitsAt(x / 2, y / 2, n - 1, i - 1);
      assert r / 2 == AndBits(x / 2, y / 2, n - 1);
    }
  }

  lemma {:induction false} XorBitsAt(x: nat, y: nat, n: nat, i: nat)
    requires i < n
    ensures Bit(XorBits(x, y, n), i) == if Bit(x, i) != Bit(y, i) then 1 else 0
  {
    var r := XorBits(x, y, n);
    if i > 0 {
      XorBitsAt(x / 2, y / 2, n - 1, i - 1);
      assert r / 2 == XorBits(x / 2, y / 2, n - 1);
    }
  }

  lemma {:induction false} ComplementAt(x: nat, n: nat, i: nat)
    requires i < n && x < Pow2(n)
    ensures Bit(Pow2(n) - 1 - x, i) == 1 - Bit(x, i)
  {
    var r := Pow2(n) - 1 - x;
    assert r / 2 == Pow2(n - 1) - 1 - x / 2 && r % 2 == 1 - x % 2;
    if i > 0 {
      ComplementAt(x / 2, n - 1, i - 1);
    }
  }

  lemma HalfOfStack(low: nat, high: nat, p: nat)
    ensures low + high * (2 * p) >= 0
    ensures (low + high * (2 * p)) / 2 == low / 2 + high * p && (low + high * (2 * p)) % 2 == low % 2
  {
    assert high * (2 * p) == 2 * (high * p);
  }

  /** One number below another: the bits of the lower one first. */
  lemma {:induction false} StackedAt(low: nat, high: nat, m: nat, i: nat)
    requires low < Pow2(m)
    ensures Bit(low + high * Pow2(m), i) == if i < m then Bit(low, i) else Bit(high, i - m)
  {
    if m > 0 {
      HalfOfStack(low, high, Pow2(m - 1));
      if i > 0 {
        StackedAt(low / 2, high, m - 1, i - 1);
      }
    }
  }

  lemma {:induction false} NoBits(i: nat)
    ensures Bit(0, i) == 0
  {
    if i > 0 {
      NoBits(i - 1);
    }
  }

  lemma NothingAbove(x: nat, n: nat, i: nat)
    requires x < Pow2(n) && i >= n
    ensures Bit(x, i) == 0
  {
    StackedAt(x, 0, n, i);
    NoBits(i - n);
  }

  lemma TwoParts(x: nat, p: nat)
    requires p > 0
    ensures x == x % p + Div(x, p) * p && x % p < p
  {
  }

  /** The bits of a number that is cut in two. */
  lemma CutAt(x: nat, m: nat, i: nat)
    ensures Bit(x, i) == if i < m then Bit(x % Pow2(m), i) else Bit(Div(x, Pow2(m)), i - m)
  {
    TwoParts(x, Pow2(m));
    StackedAt(x % Pow2(m), Div(x, Pow2(m)), m, i);
  }

  // ---- the operations on words ----

  lemma AndAt(x: Word, y: Word, i: nat)
    requires i < 32
    ensures Bit(And(x, y), i) == if Bit(x, i) == 1 && Bit(y, i) == 1 then 1 else 0
  {
    AndBitsAt(x, y, 32, i);
  }

  lemma XorAt(x: Word, y: Word, i: nat)
    requires i < 32
    ensures Bit(Xor(x, y), i) == if Bit(x, i) != Bit(y, i) then 1 else 0
  {
    XorBitsAt(x, y, 32, i);
  }

  lemma NotAt(x: Word, i: nat)
    requires i < 32
    ensures Bit(Not(x), i) == 1 - Bit(x, i)
  {
    Pow2Of32();
    ComplementAt(x, 32, i);
  }

  /** A right shift by n moves bit i + n to i, and zeros in from the left. */
  lemma ShrAt(x: Word, n: nat, i: nat)
    requires n < 32 && i < 32
    ensures Bit(Shr(x, n), i) == if i + n < 32 then Bit(x, i + n) else 0
  {
    Pow2Of32();
    CutAt(x, n, i + n);
    if i + n >= 32 {
      NothingAbove(x, 32, i + n);
    }
  }

  lemma HighFits(x: Word, n: nat)
    requires n < 32
    ensures Div(x, Pow2(n)) < Pow2(32 - n)
  {
    Pow2Of32();
    Pow2Sum(n, 32 - n);
    DivAtLeast(x, Pow2(n), Pow2(32 - n));
  }

  lemma AroundTheEnd(i: nat, n: nat)
    requires n < 32 && i < 32
    ensures (i + n) % 32 == if i < 32 - n then i + n else i - (32 - n)
  {
  }

  lemma RotrIsStacked(x: Word, n: nat)
    requires n < 32
    ensures Rotr(x, n) == Div(x, Pow2(n)) + x % Pow2(n) * Pow2(32 - n)
  {
  }

  /** A right rotation by n moves bit i + n to i, around the end. */
  lemma RotrAt(x: Word, n: nat, i: nat)
    requires n < 32 && i < 32
    ensures Bit(Rotr(x, n), i) == Bit(x, (i + n) % 32)
  {
    HighFits(x, n);
    RotrIsStacked(x, n);
    AroundTheEnd(i, n);
    StackedAt(Div(x, Pow2(n)), x % Pow2(n), 32 - n, i);
    CutAt(x, n, (i + n) % 32);
  }

  // ---- the functions of section 4.1.2 ----

  /** Where x has a one Ch takes y, elsewhere z. */
  lemma ChChooses(x: Word, y: Word, z: Word, i: nat)
    requires i < 32
    ensures Bit(Ch(x, y, z), i) == if Bit(x, i) == 1 then Bit(y, i) else Bit(z, i)
  {
    AndAt(x, y, i);
    NotAt(x, i);
    AndAt(Not(x), z, i);
    XorAt(And(x, y), And(Not(x), z), i);
  }

  /** Maj has a one where at least two of the three do. */
  lemma MajIsMajority(x: Word, y: Word, z: Word, i: nat)
    requires i < 32
    ensures Bit(Maj(x, y, z), i) == if Bit(x, i) + Bit(y, i) + Bit(z, i) >= 2 then 1 else 0
  {
    AndAt(x, y, i);
    AndAt(x, z, i);
    AndAt(y, z, i);
    XorAt(And(x, y), And(x, z), i);
    XorAt(Xor(And(x, y), And(x, z)), And(y, z), i);
  }

  lemma Parity(a: nat, b: nat, c: nat, ab: nat, abc: nat)
    requires a < 2 && b < 2 && c < 2 && ab == (if a != b then 1 else 0) && abc == if ab != c then 1 else 0
    ensures abc == (a + b + c) % 2
  {
  }

  lemma ParityAt(x: Word, y: Word, z: Word, i: nat)
    requires i < 32
    ensures Bit(Xor(Xor(x, y), z), i) == (Bit(x, i) + Bit(y, i) + Bit(z, i)) % 2
  {
    var xy := Xor(x, y);
    XorAt(x, y, i);
    XorAt(xy, z, i);
    Parity(Bit(x, i), Bit(y, i), Bit(z, i), Bit(xy, i), Bit(Xor(xy, z), i));
  }

  lemma RotationsAt(x: Word, a: nat, b: nat, c: nat, i: nat)
    requires a < 32 && b < 32 && c < 32 && i < 32
    ensures Bit(Xor(Xor(Rotr(x, a), Rotr(x, b)), Rotr(x, c)), i)
            == (Bit(x, (i + a) % 32) + Bit(x, (i + b) % 32) + Bit(x, (i + c) % 32)) % 2
  {
    ParityAt(Rotr(x, a), Rotr(x, b), Rotr(x, c), i);
    RotrAt(x, a, i);
    RotrAt(x, b, i);
    RotrAt(x, c, i);
  }

  lemma ShiftedAt(x: Word, a: nat, b: nat, c: nat, i: nat)
    requires a < 32 && b < 32 && c < 32 && i < 32
    ensures Bit(Xor(Xor(Rotr(x, a), Rotr(x, b)), Shr(x, c)), i)
            == (Bit(x, (i + a) % 32) + Bit(x, (i + b) % 32) + (if i + c < 32 then Bit(x, i + c) else 0)) % 2
  {
    ParityAt(Rotr(x, a), Rotr(x, b), Shr(x, c), i);
    RotrAt(x, a, i);
    RotrAt(x, b, i);
    ShrAt(x, c, i);
  }

  /** Each of the four mixes three places of the word. */
  lemma Sum0At(x: Word, i: nat)
    requires i < 32
    ensures Bit(Sum0(x), i) == (Bit(x, (i + 2) % 32) + Bit(x, (i + 13) % 32) + Bit(x, (i + 22) % 32)) % 2
  {
    RotationsAt(x, 2, 13, 22, i);
  }

  lemma Sum1At(x: Word, i: nat)
    requires i < 32
    ensures Bit(Sum1(x), i) == (Bit(x, (i + 6) % 32) + Bit(x, (i + 11) % 32) + Bit(x, (i + 25) % 32)) % 2
  {
    RotationsAt(x, 6, 11, 25, i);
  }

  lemma Sigma0At(x: Word, i: nat)
    requires i < 32
    ensures Bit(Sigma0(x), i)
            == (Bit(x, (i + 7) % 32) + Bit(x, (i + 18) % 32) + (if i + 3 < 32 then Bit(x, i + 3) else 0)) % 2
  {
    ShiftedAt(x, 7, 18, 3, i);
  }

  lemma Sigma1At(x: Word, i: nat)
    requires i < 32
    ensures Bit(Sigma1(x), i)
            == (Bit(x, (i + 17) % 32) + Bit(x, (i + 19) % 32) + (if i + 10 < 32 then Bit(x, i + 10) else 0)) % 2
  {
    ShiftedAt(x, 17, 19, 10, i);
  }

  // ---- words and bytes, words and digits ----

  /** A word's bytes, most significant first, are those it was made of. */
  lemma BigEndianIs(b0: Byte, b1: Byte, b2: Byte, b3: Byte)
    ensures Be32(BigEndian(b0, b1, b2, b3)) == [b0, b1, b2, b3]
  {
    FourBytes(b0, b1, b2, b3);
    Be32Onto([b0, b1, b2, b3]);
  }

  function DigitValue(c: char): nat {
    if '0' <= c <= '9' then c as nat - '0' as nat else if 'a' <= c <= 'f' then 10 + (c as nat - 'a' as nat) else 0
  }

  /** What a string of hexadecimal digits stands for. */
  function HexValue(s: string): nat {
    if s == "" then 0 else 16 * HexValue(s[..|s| - 1]) + DigitValue(s[|s| - 1])
  }

  lemma DigitIs(x: nat)
    requires x < 16
    ensures DigitValue(HEX[x]) == x
  {
  }

  lemma {:induction false} HexReadsBack(x: nat, n: nat)
    requires x < Pow2(4 * n)
    ensures |HexDigits(x, n)| == n && HexValue(HexDigits(x, n)) == x
    decreases n
  {
    if n > 0 {
      Pow2Sum(4, 4 * (n - 1));
      assert Pow2(4) == 16;
      HexReadsBack(x / 16, n - 1);
      DigitIs(x % 16);
      var s := HexDigits(x, n);
      assert s[..n - 1] == HexDigits(x / 16, n - 1);
    }
  }
}
