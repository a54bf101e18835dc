/** How items lie in a binder parcel: little-endian words, and String16 padded to a multiple of four. */
module ParcelLayout {
  import opened Bytes
  import opened String16

  const MAX_REPLY := 4 * 1024 * 1024

  type S32 = x: int | -0x8000_0000 <= x < 0x8000_0000

  function Le32(v: S32): (b: seq<Byte>)
    ensures |b| == 4 && FromLe32(b) == v
  {
    var w := if v < 0 then v + TWO_32 else v;
    var b := [w % 256, w / 256 % 256, w / 256 / 256 % 256, w / 256 / 256 / 256];
    assert w == b[0] + 256 * (b[1] + 256 * (b[2] + 256 * b[3]));
    b
  }

  function FromLe32(b: seq<Byte>): (v: S32)
    requires |b| == 4
  {
    var b0: int, b1: int, b2: int, b3: int := b[0], b[1], b[2], b[3];
    var w := b0 + 256 * (b1 + 256 * (b2 + 256 * b3));
    if w >= 0x8000_0000 then w - TWO_32 else w
  }

  function Unit(lo: Byte, hi: Byte): U16 {
    var l: int, h: int := lo, hi;
    l + 256 * h
  }

  function LoHi(u: U16): (b: seq<Byte>)
    ensures |b| == 2 && Unit(b[0], b[1]) == u
  {
    [u % 256, u / 256]
  }

  function UnitBytes(u: seq<U16>): (b: seq<Byte>)
    ensures |b| == 2 * |u|
  {
    if u == [] then [] else LoHi(u[0]) + UnitBytes(u[1..])
  }

  function UnitAt(b: seq<Byte>, i: nat): U16
    requires i + 1 < |b|
  {
    Unit(b[i], b[i + 1])
  }

  function UnitsAt(b: seq<Byte>, n: nat): (u: seq<U16>)
    requires 2 * n <= |b|
    ensures |u| == n
  {
    if n == 0 then [] else [UnitAt(b, 0)] + UnitsAt(b[2..], n - 1)
  }

  lemma FirstUnit(a: seq<Byte>, b: seq<Byte>, rest: seq<Byte>)
    requires |a| == 2
    ensures ((a + b) + rest)[0] == a[0] && ((a + b) + rest)[1] == a[1] && ((a + b) + rest)[2..] == b + rest
  {
  }

  lemma {:induction false} UnitsOfBytes(u: seq<U16>, rest: seq<Byte>)
    ensures UnitsAt(UnitBytes(u) + rest, |u|) == u
  {
    if u != [] {
      FirstUnit(LoHi(u[0]), UnitBytes(u[1..]), rest);
      UnitsOfBytes(u[1..], rest);
      One(u);
    }
  }

  lemma {:induction false} UnitsAtIndex(b: seq<Byte>, n: nat, i: nat)
    requires 2 * n <= |b| && i < n
    ensures UnitsAt(b, n)[i] == UnitAt(b, 2 * i)
  {
    if i > 0 {
      UnitsAtIndex(b[2..], n - 1, i - 1);
    }
  }

  /** The bytes that the units and their terminator take, rounded up to a multiple of four. */
  function Padded(units: nat): (n: nat)
    ensures n % 4 == 0 && 2 * units + 2 <= n < 2 * units + 6
  {
    ((units + 1) * 2 + 3) / 4 * 4
  }

  /** A string as the code writes it: -1 for null, else length, units, at least one zero unit, padding. */
  function EncStr(s: Option<seq<Byte>>): seq<Byte>
    requires s.Some? ==> |Units(s.value)| <= MAX_REPLY / 4
  {
    match s
    case None => Le32(-1)
    case Some(utf8) =>
      var u := Units(utf8);
      Le32(|u|) + (UnitBytes(u) + Zeros(Padded(|u|) - 2 * |u|))
  }

  /** The size of the string's layout, for any string. */
  function SizeOf(s: Option<seq<Byte>>): nat {
    match s
    case None => 4
    case Some(utf8) => 4 + Padded(|Units(utf8)|)
  }

  datatype Read<+T> = Read(value: T, used: nat) | Short

  /** Reading a String16 at the front of any bytes. */
  function DecStr(b: seq<Byte>): Read<Option<seq<Byte>>> {
    if |b| < 4 then Short
    else
      var units := FromLe32(b[..4]);
      if units < 0 then Read(None, 4)
      else if units > MAX_REPLY || 4 + Padded(units) > |b| then Short
      else Read(Some(Text(UnitsAt(b[4..], units))), 4 + Padded(units))
  }

  lemma Layout(head: seq<Byte>, units: seq<Byte>, pad: seq<Byte>, rest: seq<Byte>)
    requires |head| == 4
    ensures ((head + (units + pad)) + rest)[..4] == head
    ensures ((head + (units + pad)) + rest)[4..] == units + (pad + rest)
  {
  }

  lemma DecodesUnits(b: seq<Byte>, u: seq<U16>, tail: seq<Byte>)
    requires |u| <= MAX_REPLY / 4 && |b| >= 4 && FromLe32(b[..4]) == |u|
    requires b[4..] == UnitBytes(u) + tail && |tail| >= Padded(|u|) - 2 * |u|
    ensures DecStr(b) == Read(Some(Text(u)), 4 + Padded(|u|))
  {
    UnitsOfBytes(u, tail);
    assert |b| == 4 + |b[4..]|;
  }

  /** What is written is read back, up to what the encodings can carry, whatever follows it. */
  lemma StrComesBack(s: Option<seq<Byte>>, rest: seq<Byte>)
    requires s.Some? ==> |Units(s.value)| <= MAX_REPLY / 4
    ensures DecStr(EncStr(s) + rest) ==
              Read(if s.None? then None else Some(Text(Units(s.value))), |EncStr(s)|)
  {
    match s
    case None => assert (Le32(-1) + rest)[..4] == Le32(-1);
    case Some(utf8) =>
      var u := Units(utf8);
      var pad := Zeros(Padded(|u|) - 2 * |u|);
      Layout(Le32(|u|), UnitBytes(u), pad, rest);
      DecodesUnits(EncStr(s) + rest, u, pad + rest);
  }
}
