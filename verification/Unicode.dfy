/** The two encodings by what makes them what they are: they keep the order of the code points and cover their range. */
module Unicode {
  import opened Bytes
  import opened String16

  /** The order of a dictionary. */
  predicate Less(a: seq<int>, b: seq<int>) {
    b != [] && (a == [] || a[0] < b[0] || (a[0] == b[0] && Less(a[1..], b[1..])))
  }

  lemma LessAt(a: seq<int>, b: seq<int>, k: nat)
    requires k < |a| && k < |b| && a[k] < b[k] && forall i :: 0 <= i < k ==> a[i] == b[i]
    ensures Less(a, b)
  {
    if k > 0 {
      assert a[1..][k - 1] == a[k] && b[1..][k - 1] == b[k];
      assert forall i :: 0 <= i < k - 1 ==> a[1..][i] == a[i + 1] && b[1..][i] == b[i + 1];
      LessAt(a[1..], b[1..], k - 1);
    }
  }

  // ---- UTF-16: section 2 of RFC 2781 ----

  /** A code point beyond the first 65536 is a high and a low surrogate, in the order of the code points. */
  lemma PairsKeepOrder(a: CodePoint, b: CodePoint)
    requires 0x1_0000 <= a < b
    ensures |Utf16(a)| == 2 && IsHigh(Utf16(a)[0]) && IsLow(Utf16(a)[1])
    ensures Less(Utf16(a), Utf16(b))
  {
    if Utf16(a)[0] < Utf16(b)[0] {
      LessAt(Utf16(a), Utf16(b), 0);
    } else {
      LessAt(Utf16(a), Utf16(b), 1);
    }
  }

  /** Every pair of a high and a low surrogate is one. */
  lemma PairsCoverAll(hi: int, lo: int)
    requires IsHigh(hi) && IsLow(lo)
    ensures exists cp: CodePoint :: cp >= 0x1_0000 && Utf16(cp) == [hi, lo]
  {
    assert Utf16(PairCp(hi, lo)) == [hi, lo];
  }

  lemma SinglesAreThemselves(cp: CodePoint)
    requires cp < 0x1_0000
    ensures Utf16(cp) == [cp]
  {
  }

  // ---- UTF-8: section 3 of RFC 3629 ----

  /** The bytes of a sequence of its length, the first one by its leading bits, the others in 80..BF. */
  predicate WellFormed(b: seq<Byte>) {
    match |b|
    case 1 => b[0] < 0x80
    case 2 => 0xC2 <= b[0] < 0xE0 && Tail(b[1])
    case 3 => 0xE0 <= b[0] < 0xF0 && Tail(b[1]) && Tail(b[2]) && (b[0] == 0xE0 ==> b[1] >= 0xA0)
    case 4 =>
      && 0xF0 <= b[0] < 0xF5 && Tail(b[1]) && Tail(b[2]) && Tail(b[3])
      && (b[0] == 0xF0 ==> b[1] >= 0x90) && (b[0] == 0xF4 ==> b[1] < 0x90)
    case _ => false
  }

  predicate Tail(b: Byte) {
    0x80 <= b < 0xC0
  }

  lemma Utf8IsWellFormed(cp: CodePoint)
    ensures WellFormed(Utf8(cp))
  {
  }

  /** The order of the bytes is that of the code points, whatever their lengths. */
  lemma Utf8KeepsOrder(a: CodePoint, b: CodePoint)
    requires a < b
    ensures Less(Utf8(a), Utf8(b))
  {
    var s, t := Utf8(a), Utf8(b);
    var k := FirstDifference(a, b);
    LessAt(s, t, k);
  }

  lemma LongerIsLarger(a: CodePoint, b: CodePoint)
    requires a < b
    ensures |Utf8(a)| <= |Utf8(b)| && (|Utf8(a)| < |Utf8(b)| ==> Utf8(a)[0] < Utf8(b)[0])
  {
  }

  lemma FirstDifference(a: CodePoint, b: CodePoint) returns (k: nat)
    requires a < b
    ensures k < |Utf8(a)| && k < |Utf8(b)| && Utf8(a)[k] < Utf8(b)[k]
    ensures forall i :: 0 <= i < k ==> Utf8(a)[i] == Utf8(b)[i]
  {
    LongerIsLarger(a, b);
    if |Utf8(a)| < |Utf8(b)| {
      k := 0;
    } else {
      k := DigitThatDiffers(a, b);
    }
  }

  lemma DigitThatDiffers(a: CodePoint, b: CodePoint) returns (k: nat)
    requires a < b && |Utf8(a)| == |Utf8(b)|
    ensures k < |Utf8(a)| && Utf8(a)[k] < Utf8(b)[k] && forall i :: 0 <= i < k ==> Utf8(a)[i] == Utf8(b)[i]
  {
    if Utf8(a)[0] < Utf8(b)[0] {
      k := 0;
    } else if Utf8(a)[1] < Utf8(b)[1] {
      k := 1;
    } else if Utf8(a)[2] < Utf8(b)[2] {
      k := 2;
    } else {
      k := 3;
    }
  }

  lemma TwoBytes(b0: int, b1: int)
    requires 0xC2 <= b0 < 0xE0 && 0x80 <= b1 < 0xC0
    ensures exists cp: CodePoint :: Utf8(cp) == [b0, b1]
  {
    var cp := (b0 - 0xC0) * 64 + (b1 - 0x80);
    assert cp / 64 == b0 - 0xC0 && cp % 64 == b1 - 0x80;
    assert Utf8(cp) == [b0, b1];
  }

  lemma ThreeBytes(b0: int, b1: int, b2: int)
    requires 0xE0 <= b0 < 0xF0 && 0x80 <= b1 < 0xC0 && 0x80 <= b2 < 0xC0 && (b0 == 0xE0 ==> b1 >= 0xA0)
    ensures exists cp: CodePoint :: Utf8(cp) == [b0, b1, b2]
  {
    var high := (b0 - 0xE0) * 64 + (b1 - 0x80);
    var cp := high * 64 + (b2 - 0x80);
    assert high / 64 == b0 - 0xE0 && high % 64 == b1 - 0x80;
    assert cp / 64 == high && cp % 64 == b2 - 0x80;
    assert Utf8(cp) == [b0, b1, b2];
  }

  lemma FourBytes(b0: int, b1: int, b2: int, b3: int)
    requires 0xF0 <= b0 < 0xF5 && 0x80 <= b1 < 0xC0 && 0x80 <= b2 < 0xC0 && 0x80 <= b3 < 0xC0
    requires (b0 == 0xF0 ==> b1 >= 0x90) && (b0 == 0xF4 ==> b1 < 0x90)
    ensures exists cp: CodePoint :: Utf8(cp) == [b0, b1, b2, b3]
  {
    var top := (b0 - 0xF0) * 64 + (b1 - 0x80);
    var high := top * 64 + (b2 - 0x80);
    var cp := high * 64 + (b3 - 0x80);
    assert top / 64 == b0 - 0xF0 && top % 64 == b1 - 0x80;
    assert high / 64 == top && high % 64 == b2 - 0x80;
    assert cp / 64 == high && cp % 64 == b3 - 0x80;
    assert Utf8(cp) == [b0, b1, b2, b3];
  }

  /** Every well-formed sequence is the encoding of a code point. */
  lemma Utf8CoversAll(b: seq<Byte>)
    requires WellFormed(b)
    ensures exists cp: CodePoint :: Utf8(cp) == b
  {
    match |b|
    case 1 => assert Utf8(b[0]) == b;
    case 2 => TwoBytes(b[0], b[1]); assert b == [b[0], b[1]];
    case 3 => ThreeBytes(b[0], b[1], b[2]); assert b == [b[0], b[1], b[2]];
    case 4 => FourBytes(b[0], b[1], b[2], b[3]); assert b == [b[0], b[1], b[2], b[3]];
  }
}
