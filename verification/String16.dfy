/**
 The two text encodings a String16 passes between: UTF-8 (section 3 of RFC 3629) on the caller's side and
 UTF-16 units (section 2 of RFC 2781) in the parcel.  The decoders are as lenient as the code is:
 malformed UTF-8 becomes U+FFFD, overlong forms and surrogates pass.
 */
module String16 {
  import opened Bytes

  const REPLACEMENT := 0xFFFD

  // ---- the encodings ----

  /** A code point that UTF-16 can carry, surrogates included. */
  type CodePoint = x: int | 0 <= x < 0x11_0000

  predicate IsHigh(u: int) { 0xD800 <= u < 0xDC00 }

  predicate IsLow(u: int) { 0xDC00 <= u < 0xE000 }

  /** A Unicode scalar value other than NUL. */
  predicate IsScalar(cp: CodePoint) {
    cp != 0 && !IsHigh(cp) && !IsLow(cp)
  }

  function Utf8(cp: CodePoint): (b: seq<Byte>)
    ensures 1 <= |b| <= 4 && (cp < 0x1_0000 ==> |b| <= 3)
    ensures cp != 0 ==> 0 !in b
  {
    if cp < 0x80 then [cp]
    else if cp < 0x800 then [0xC0 + cp / 64, 0x80 + cp % 64]
    else if cp < 0x1_0000 then [0xE0 + cp / 64 / 64, 0x80 + cp / 64 % 64, 0x80 + cp % 64]
    else [0xF0 + cp / 64 / 64 / 64, 0x80 + cp / 64 / 64 % 64, 0x80 + cp / 64 % 64, 0x80 + cp % 64]
  }

  /** Of any value that four bytes of UTF-8 can hold. */
  function Utf16(cp: int): (u: seq<U16>)
    requires 0 <= cp < 0x20_0000
    ensures 1 <= |u| <= 2
  {
    if cp >= 0x1_0000 then [0xD800 + (cp - 0x1_0000) / 1024, 0xDC00 + (cp - 0x1_0000) % 1024] else [cp]
  }

  function Utf8Of(cps: seq<CodePoint>): seq<Byte> {
    if cps == [] then [] else Utf8(cps[0]) + Utf8Of(cps[1..])
  }

  function Utf16Of(cps: seq<CodePoint>): seq<U16> {
    if cps == [] then [] else Utf16(cps[0]) + Utf16Of(cps[1..])
  }

  // ---- from UTF-8 to units ----

  /** The byte at `i` of a NUL-terminated string. */
  function At(s: seq<Byte>, i: nat): Byte {
    if i < |s| then s[i] else 0
  }

  /** How many continuation bytes a lead byte asks for; none means it is no lead byte. */
  function Extra(lead: Byte): Option<nat> {
    if lead < 0x80 then Some(0)
    else if 0xC0 <= lead < 0xE0 then Some(1)
    else if 0xE0 <= lead < 0xF0 then Some(2)
    else if 0xF0 <= lead < 0xF8 then Some(3)
    else None
  }

  function LeadBits(lead: Byte): int {
    if lead < 0x80 then lead else if lead < 0xE0 then lead - 0xC0 else if lead < 0xF0 then lead - 0xE0 else lead - 0xF0
  }

  datatype Step = Step(cp: int, used: nat)

  /** Continuation bytes `i` to `extra`, onto the bits `cp` seen so far. */
  function Continue(s: seq<Byte>, i: nat, extra: nat, cp: int): Step
    decreases extra + 1 - i
  {
    if i > extra then Step(cp, i)
    else if 0x80 <= At(s, i) < 0xC0 then Continue(s, i + 1, extra, cp * 64 + (At(s, i) - 0x80))
    else Step(REPLACEMENT, i)
  }

  /** The first code point of a string. */
  function First(s: seq<Byte>): Step {
    match Extra(At(s, 0))
    case None => Step(REPLACEMENT, 1)
    case Some(extra) => Continue(s, 1, extra, LeadBits(At(s, 0)))
  }

  lemma {:induction false} ContinueStays(s: seq<Byte>, i: nat, extra: nat, cp: int)
    requires 1 <= i <= extra + 1 && i <= |s|
    ensures i <= Continue(s, i, extra, cp).used <= |s|
    decreases extra + 1 - i
  {
    if i <= extra && 0x80 <= At(s, i) < 0xC0 {
      ContinueStays(s, i + 1, extra, cp * 64 + (At(s, i) - 0x80));
    }
  }

  lemma ContinueFits(s: seq<Byte>, extra: nat, cp: int)
    requires extra <= 3
    requires 0 <= cp && match extra { case 0 => cp < 0x80 case 1 => cp < 32 case 2 => cp < 16 case _ => cp < 8 }
    ensures 0 <= Continue(s, 1, extra, cp).cp < 0x20_0000
  {
    if extra >= 1 && 0x80 <= At(s, 1) < 0xC0 {
      var c1 := cp * 64 + (At(s, 1) - 0x80);
      if extra >= 2 && 0x80 <= At(s, 2) < 0xC0 {
        var c2 := c1 * 64 + (At(s, 2) - 0x80);
        assert Continue(s, 1, extra, cp) == Continue(s, 3, extra, c2);
        if extra >= 3 && 0x80 <= At(s, 3) < 0xC0 {
          assert Continue(s, 3, extra, c2) == Continue(s, 4, extra, c2 * 64 + (At(s, 3) - 0x80));
        }
      }
    }
  }

  /** On any bytes the decoder advances, does not pass the NUL, and yields what fits two units. */
  lemma FirstAdvances(s: seq<Byte>)
    requires s != []
    ensures 1 <= First(s).used <= |s| && 0 <= First(s).cp < 0x20_0000
  {
    match Extra(At(s, 0))
    case None =>
    case Some(extra) =>
      ContinueStays(s, 1, extra, LeadBits(At(s, 0)));
      ContinueFits(s, extra, LeadBits(At(s, 0)));
  }

  /** The units that a UTF-8 string is sent as. */
  function Units(s: seq<Byte>): (u: seq<U16>)
    ensures |u| <= |s|
    decreases |s|
  {
    if s == [] then []
    else
      FirstAdvances(s);
      AtMostAUnitPerByte(s);
      Utf16(First(s).cp) + Units(s[First(s).used..])
  }

  /** Two units take at least four bytes. */
  lemma AtMostAUnitPerByte(s: seq<Byte>)
    requires s != []
    ensures First(s).cp >= 0x1_0000 ==> First(s).used >= 2
  {
  }

  // ---- from units to UTF-8 ----

  predicate StartsWithPair(u: seq<U16>) {
    |u| >= 2 && IsHigh(u[0]) && IsLow(u[1])
  }

  function PairCp(hi: int, lo: int): (cp: CodePoint)
    requires IsHigh(hi) && IsLow(lo)
    ensures cp >= 0x1_0000 && Utf16(cp) == [hi, lo]
  {
    0x1_0000 + (hi - 0xD800) * 1024 + (lo - 0xDC00)
  }

  /** The text that units are read as; an unpaired surrogate is encoded as it is. */
  function Text(u: seq<U16>): (s: seq<Byte>)
    ensures |s| <= 3 * |u|
    ensures 0 !in u ==> 0 !in s
  {
    if u == [] then []
    else if StartsWithPair(u) then Utf8(PairCp(u[0], u[1])) + Text(u[2..])
    else Utf8(u[0]) + Text(u[1..])
  }

  // ---- the round trips ----

  lemma One(u: seq<U16>)
    requires u != []
    ensures u == [u[0]] + u[1..]
  {
  }

  lemma Two(u: seq<U16>)
    requires |u| >= 2
    ensures u == [u[0], u[1]] + u[2..]
  {
  }

  /** The decoder takes back exactly one encoded code point, surrogates included. */
  lemma FirstOfUtf8(cp: CodePoint, rest: seq<Byte>)
    ensures First(Utf8(cp) + rest) == Step(cp, |Utf8(cp)|)
  {
    var b := Utf8(cp);
    var s := b + rest;
    assert forall i :: 0 <= i < |b| ==> At(s, i) == b[i];
    if 0x80 <= cp < 0x800 {
      assert Continue(s, 1, 1, cp / 64) == Continue(s, 2, 1, cp);
    } else if 0x800 <= cp < 0x1_0000 {
      assert Continue(s, 1, 2, cp / 64 / 64) == Continue(s, 2, 2, cp / 64);
      assert Continue(s, 2, 2, cp / 64) == Continue(s, 3, 2, cp);
    } else if cp >= 0x1_0000 {
      assert Continue(s, 1, 3, cp / 64 / 64 / 64) == Continue(s, 2, 3, cp / 64 / 64);
      assert Continue(s, 2, 3, cp / 64 / 64) == Continue(s, 3, 3, cp / 64);
      assert Continue(s, 3, 3, cp / 64) == Continue(s, 4, 3, cp);
    }
  }

  lemma UnitsOfUtf8(cp: CodePoint, rest: seq<Byte>)
    ensures Units(Utf8(cp) + rest) == Utf16(cp) + Units(rest)
  {
    FirstOfUtf8(cp, rest);
    assert (Utf8(cp) + rest)[|Utf8(cp)|..] == rest;
  }

  /** Every sequence of units comes back from its text: put after get is the identity. */
  lemma {:induction false} UnitsOfText(u: seq<U16>)
    ensures Units(Text(u)) == u
  {
    if u == [] {
    } else if StartsWithPair(u) {
      UnitsOfText(u[2..]);
      UnitsOfUtf8(PairCp(u[0], u[1]), Text(u[2..]));
      Two(u);
    } else {
      UnitsOfText(u[1..]);
      UnitsOfUtf8(u[0], Text(u[1..]));
      One(u);
    }
  }

  /** Well-formed UTF-8 goes out as the UTF-16 of the same scalar values. */
  lemma {:induction false} UnitsOfScalars(cps: seq<CodePoint>)
    ensures Units(Utf8Of(cps)) == Utf16Of(cps)
  {
    if cps != [] {
      UnitsOfScalars(cps[1..]);
      UnitsOfUtf8(cps[0], Utf8Of(cps[1..]));
    }
  }

  /** And well-formed UTF-16 is read as the UTF-8 of the same scalar values. */
  lemma {:induction false} TextOfScalars(cps: seq<CodePoint>)
    requires forall i :: 0 <= i < |cps| ==> IsScalar(cps[i])
    ensures Text(Utf16Of(cps)) == Utf8Of(cps)
  {
    if cps != [] {
      TextOfScalars(cps[1..]);
      var rest := Utf16Of(cps[1..]);
      var u := Utf16(cps[0]) + rest;
      if cps[0] >= 0x1_0000 {
        assert StartsWithPair(u) && u[2..] == rest;
        assert PairCp(u[0], u[1]) == cps[0];
      } else {
        assert u[0] == cps[0] && u[1..] == rest;
      }
    }
  }

  /** get(put(s)) == s for every UTF-8 encoding of non-NUL scalar values. */
  lemma TextOfUnits(cps: seq<CodePoint>)
    requires forall i :: 0 <= i < |cps| ==> IsScalar(cps[i])
    ensures Text(Units(Utf8Of(cps))) == Utf8Of(cps)
  {
    UnitsOfScalars(cps);
    TextOfScalars(cps);
  }

  // ---- NUL ----

  /** What a C caller sees of a buffer: all before the first NUL. */
  function CString(s: seq<Byte>): (c: seq<Byte>)
    ensures c <= s && 0 !in c
    ensures 0 !in s ==> c == s
    ensures 0 in s ==> |c| < |s|
  {
    if s == [] || s[0] == 0 then [] else [s[0]] + CString(s[1..])
  }

  lemma {:induction false} CStringOfUtf8(b: seq<Byte>, rest: seq<Byte>)
    requires 0 !in b
    ensures CString(b + rest) == b + CString(rest)
  {
    if b == [] {
      assert b + rest == rest;
    } else {
      assert (b + rest)[1..] == b[1..] + rest;
      CStringOfUtf8(b[1..], rest);
    }
  }

  lemma KeepsOne(cp: CodePoint, rest: seq<U16>)
    requires cp != 0
    ensures Units(CString(Utf8(cp) + Text(rest))) == Utf16(cp) + Units(CString(Text(rest)))
  {
    CStringOfUtf8(Utf8(cp), Text(rest));
    UnitsOfUtf8(cp, CString(Text(rest)));
  }

  /** The units before the first zero. */
  function BeforeZero(u: seq<U16>): (b: seq<U16>)
    ensures b <= u && 0 !in b
    ensures b == u <==> 0 !in u
    ensures 0 in u ==> |b| < |u| && u[|b|] == 0
  {
    if u == [] || u[0] == 0 then [] else [u[0]] + BeforeZero(u[1..])
  }

  lemma BeforeZeroTwo(u: seq<U16>)
    requires |u| >= 2 && u[0] != 0 && u[1] != 0
    ensures BeforeZero(u) == [u[0], u[1]] + BeforeZero(u[2..])
  {
    assert u[1..][1..] == u[2..];
    assert BeforeZero(u[1..]) == [u[1]] + BeforeZero(u[2..]);
  }

  /** As a C string, the text is that of the units before the first zero unit; so put after get needs that there is none. */
  lemma {:induction false} UnitsOfCString(u: seq<U16>)
    ensures Units(CString(Text(u))) == BeforeZero(u)
    ensures Units(CString(Text(u))) == u <==> 0 !in u
  {
    if u == [] {
    } else if StartsWithPair(u) {
      UnitsOfCString(u[2..]);
      KeepsOne(PairCp(u[0], u[1]), u[2..]);
      BeforeZeroTwo(u);
    } else if u[0] != 0 {
      UnitsOfCString(u[1..]);
      KeepsOne(u[0], u[1..]);
    } else {
      assert Text(u)[0] == 0;
    }
  }
}
