/** The parcel that a call is written to and its reply is read from. */
module Parcels {
  import opened Bytes
  import opened String16
  import opened ParcelLayout
  import opened Sequences

  datatype Error = NoError | Invalid | NoMemory | Protocol

  /** The code point that starts at `at`, and where the next one starts; every byte string can be read. */
  method Utf8Next(s: seq<Byte>, at: nat) returns (cp: int, next: nat)
    requires at < |s|
    ensures at < next <= |s| && 0 <= cp < 0x20_0000
    ensures Step(cp, next - at) == First(s[at..])
  {
    ghost var t := s[at..];
    FirstAdvances(t);
    assert forall i: nat :: i < |t| ==> At(t, i) == s[at + i];
    var extra;
    match Extra(s[at]) {
      case None => return REPLACEMENT, at + 1;
      case Some(n) => extra := n;
    }
    cp := LeadBits(s[at]);
    var i := 1;
    while i <= extra
      invariant 1 <= i <= extra + 1 && i <= |t|
      invariant Continue(t, i, extra, cp) == First(t)
    {
      assert At(t, i) == At(s, at + i);
      if !(0x80 <= At(s, at + i) < 0xC0) {
        return REPLACEMENT, at + i;
      }
      cp := cp * 64 + (At(s, at + i) - 0x80);
      i := i + 1;
    }
    next := at + extra + 1;
  }

  /** One code point as units. */
  method NextUnits(s: seq<Byte>, at: nat) returns (u: seq<U16>, next: nat)
    requires at < |s|
    ensures at < next <= |s| && Units(s[at..]) == u + Units(s[next..])
  {
    var cp;
    cp, next := Utf8Next(s, at);
    assert s[at..][next - at..] == s[next..];
    u := Utf16(cp);
  }

  /** The counting pass. */
  method CountUnits(s: seq<Byte>) returns (units: nat)
    ensures units == |Units(s)|
  {
    units := 0;
    var at := 0;
    while at < |s|
      invariant 0 <= at <= |s|
      invariant units + |Units(s[at..])| == |Units(s)|
    {
      var cp, next := Utf8Next(s, at);
      assert s[at..][next - at..] == s[next..];
      units := units + if cp >= 0x1_0000 then 2 else 1;
      at := next;
    }
  }

  class Parcel {
    var data: array<Byte>
    var len: nat
    var pos: nat
    var error: Error

    ghost predicate Valid()
      reads this
    {
      pos <= len <= data.Length && len <= MAX_REPLY && data.Length <= 2 * MAX_REPLY
    }

    function Contents(): seq<Byte>
      requires Valid()
      reads this, data
    {
      data[..len]
    }

    constructor ()
      ensures Valid() && Contents() == [] && pos == 0 && error == NoError && fresh(data)
    {
      data := new Byte[0];
      len, pos, error := 0, 0, NoError;
    }

    /** The capacity after doubling from the present one. */
    method Doubled(need: nat) returns (cap: nat)
      requires Valid() && data.Length < need <= MAX_REPLY
      ensures need <= cap <= 2 * MAX_REPLY
    {
      cap := if data.Length == 0 then 256 else data.Length;
      while cap < need
        invariant 0 < cap && (cap <= 256 || cap <= 2 * need)
        decreases need - cap
      {
        cap := cap * 2;
      }
    }

    /** Room for n more bytes, zeroed; the allocation may fail. */
    method Grow(n: nat) returns (ok: bool)
      requires Valid()
      modifies this`data, this`len, this`error, data
      ensures Valid() && (data == old(data) || fresh(data)) && pos == old(pos)
      ensures ok ==> old(error) == NoError && error == NoError && Contents() == old(Contents()) + Zeros(n)
      ensures !ok ==> error != NoError && len == old(len) && Contents() == old(Contents())
      ensures old(error) != NoError ==> error == old(error)
      ensures old(error) == NoError ==> (error == Invalid <==> old(len) + n > MAX_REPLY) && error != Protocol
    {
      if error != NoError {
        return false;
      }
      if n > MAX_REPLY || len + n > MAX_REPLY {
        error := Invalid;
        return false;
      }
      if len + n > data.Length {
        var cap := Doubled(len + n);
        if * {
          error := NoMemory;
          return false;
        }
        var d := new Byte[cap];
        forall i | 0 <= i < len {
          d[i] := data[i];
        }
        data := d;
      }
      forall i | len <= i < len + n {
        data[i] := 0;
      }
      len := len + n;
      ok := true;
    }

    /** Overwrites bytes inside the contents. */
    method Store(at: nat, b: seq<Byte>)
      requires Valid() && at + |b| <= len
      modifies data
      ensures Contents() == old(Contents()[..at]) + b + old(Contents()[at + |b|..])
    {
      forall i | at <= i < at + |b| {
        data[i] := b[i - at];
      }
    }

    method PutI32(v: S32)
      requires Valid()
      modifies this`data, this`len, this`error, data
      ensures Valid() && (data == old(data) || fresh(data)) && pos == old(pos)
      ensures error == NoError ==> old(error) == NoError && Contents() == old(Contents()) + Le32(v)
      ensures error != NoError ==> Contents() == old(Contents())
      ensures old(error) != NoError ==> error == old(error)
      ensures old(error) == NoError ==> (error == Invalid <==> old(len) + 4 > MAX_REPLY) && error != Protocol
    {
      var at := len;
      var ok := Grow(4);
      if ok {
        Store(at, Le32(v));
      }
    }

    /** More units, where the zeros start. */
    method StoreMore(to: nat, u: seq<U16>, ghost r: HalfFull) returns (ghost r2: HalfFull)
      requires Valid() && to == |r.base| + 2 * |r.done| && 2 * |u| <= r.left && Contents() == r.bytes
      modifies data
      ensures Contents() == r2.bytes && r2.base == r.base && r2.done == r.done + u && r2.left == r.left - 2 * |u|
    {
      Store(to, UnitBytes(u));
      SpliceUnits(r.base, r.done, u, r.left, r.bytes);
      r2 := Filling(r.base, r.done + u, r.left - 2 * |u|,
                    r.base + (UnitBytes(r.done + u) + Zeros(r.left - 2 * |u|)));
    }

    /** One turn of the writing pass. */
    method StoreNext(s: seq<Byte>, at: nat, to: nat, ghost r: HalfFull, ghost c: UnitCursor)
      returns (next: nat, u: seq<U16>, ghost r2: HalfFull, ghost c2: UnitCursor)
      requires Valid() && at < |s| && to == |r.base| + 2 * |r.done| && 2 * |c.left| <= r.left && Contents() == r.bytes
      requires c.s == s && c.at == at
      modifies data
      ensures at < next <= |s| && 2 * |u| <= r.left && c2.s == s && c2.at == next
      ensures r.done + c.left == r2.done + c2.left
      ensures Contents() == r2.bytes && r2.base == r.base && r2.done == r.done + u && r2.left == r.left - 2 * |u|
    {
      u, next := NextUnits(s, at);
      c2 := Reading(s, next, Units(s[next..]));
      Assoc(r.done, u, c2.left);
      r2 := StoreMore(to, u, r);
    }

    /** The writing pass, into room that Grow made; `c0` holds all the string's units. */
    method StoreUnits(at0: nat, s: seq<Byte>, ghost base: seq<Byte>, ghost room: nat, ghost c0: UnitCursor)
      requires Valid() && |base| == at0 && 2 * |c0.left| <= room && c0.s == s && c0.at == 0
      requires Contents() == base + Zeros(room)
      modifies data
      ensures Contents() == base + (UnitBytes(c0.left) + Zeros(room - 2 * |c0.left|))
    {
      ghost var r: HalfFull, c: UnitCursor := Empty(base, room), c0;
      assert r.done + c.left == c0.left;
      var at, to := 0, at0;
      while at < |s|
        invariant 0 <= at <= |s| && c.s == s && c.at == at && r.done + c.left == c0.left
        invariant r.base == base && to == at0 + 2 * |r.done| && r.left == room - 2 * |r.done| && Contents() == r.bytes
      {
        var next, u;
        next, u, r, c := StoreNext(s, at, to, r, c);
        to := to + 2 * |u|;
        at := next;
      }
      NoMoreUnits(c);
      assert r.done + c.left == r.done;
    }

    method PutUtf8(utf8: seq<Byte>, units: nat)
      requires Valid() && units == |Units(utf8)| <= MAX_REPLY / 4
      modifies this`data, this`len, this`error, data
      ensures Valid() && (data == old(data) || fresh(data)) && pos == old(pos)
      ensures error == NoError ==> old(error) == NoError && Contents() == old(Contents()) + EncStr(Some(utf8))
      ensures old(error) != NoError ==> error == old(error)
      ensures error != NoError ==> old(Contents()) <= Contents()
      ensures old(error) == NoError ==>
                (error == Invalid ==> old(len) + SizeOf(Some(utf8)) > MAX_REPLY) && error != Protocol
    {
      ghost var before := Contents();
      PutI32(units);
      var at := len;
      var ok := Grow(Padded(units));
      if ok {
        ghost var body := UnitBytes(Units(utf8)) + Zeros(Padded(units) - 2 * units);
        StoreUnits(at, utf8, before + Le32(units), Padded(units), FromStart(utf8));
        assert Contents() == (before + Le32(units)) + body;
        Assoc(before, Le32(units), body);
        assert EncStr(Some(utf8)) == Le32(units) + body;
      }
    }

    method PutStr16(s: Option<seq<Byte>>)
      requires Valid() && (s.Some? ==> 0 !in s.value)
      modifies this`data, this`len, this`error, data
      ensures Valid() && (data == old(data) || fresh(data)) && pos == old(pos)
      ensures error == NoError ==> old(error) == NoError && (s.Some? ==> |Units(s.value)| <= MAX_REPLY / 4)
                                   && Contents() == old(Contents()) + EncStr(s)
      ensures old(error) != NoError ==> error == old(error) || (error == Invalid && s.Some? && |Units(s.value)| > MAX_REPLY / 4)
      ensures error != NoError ==> old(Contents()) <= Contents()
      ensures old(error) == NoError ==>
                (error == Invalid ==> (s.Some? && |Units(s.value)| > MAX_REPLY / 4) || old(len) + SizeOf(s) > MAX_REPLY)
                && error != Protocol
    {
      match s {
        case None => PutI32(-1);
        case Some(utf8) =>
          var units := CountUnits(utf8);
          if units > MAX_REPLY / 4 {
            error := Invalid;
          } else {
            PutUtf8(utf8, units);
          }
      }
    }

    method GetI32() returns (v: S32)
      requires Valid()
      modifies this`pos, this`error
      ensures Valid() && old(pos) <= pos
      ensures old(error) != NoError ==> error == old(error) && v == 0 && pos == old(pos)
      ensures old(error) == NoError && old(pos) + 4 <= len ==>
                error == NoError && pos == old(pos) + 4 && v == FromLe32(Contents()[old(pos)..pos])
      ensures old(error) == NoError && old(pos) + 4 > len ==> error == Protocol && v == 0 && pos == old(pos)
    {
      if error != NoError {
        return 0;
      }
      if pos + 4 > len {
        error := Protocol;
        return 0;
      }
      v := FromLe32(data[pos..pos + 4]);
      assert data[pos..pos + 4] == Contents()[pos..pos + 4];
      pos := pos + 4;
    }

    /** Succeeds exactly on what DecStr reads, unless memory runs out. */
    method GetStr16() returns (s: Option<seq<Byte>>)
      requires Valid()
      modifies this`pos, this`error
      ensures Valid() && old(pos) <= pos
      ensures old(error) != NoError ==> error == old(error) && s == None && pos == old(pos)
      ensures error == NoError ==> DecStr(Contents()[old(pos)..]) == Read(s, pos - old(pos))
      ensures old(error) == NoError && DecStr(Contents()[old(pos)..]).Short? ==> error == Protocol
      ensures old(error) == NoError && DecStr(Contents()[old(pos)..]).Read? ==> error == NoError || error == NoMemory
      ensures error != NoError ==> s == None
    {
      ghost var b := Contents()[pos..];
      var units := GetI32();
      if error != NoError || units < 0 {
        return None;
      }
      assert b[..4] == Contents()[old(pos)..pos];
      var bytes := Padded(units);
      if units > MAX_REPLY || pos + bytes > len {
        error := Protocol;
        return None;
      }
      if * {
        error := NoMemory;
        return None;
      }
      assert b[4..] == Contents()[pos..];
      var text := Decode(pos, units);
      pos := pos + bytes;
      s := Some(text);
    }

    /** The decoding loop, into a buffer of three bytes a unit and one for the NUL. */
    method Decode(at: nat, units: nat) returns (text: seq<Byte>)
      requires Valid() && at + 2 * units <= len
      ensures text == Text(UnitsAt(Contents()[at..], units))
    {
      var out := new Byte[units * 3 + 1];
      ghost var u := UnitsAt(Contents()[at..], units);
      ghost var c: TextCursor, done: seq<Byte> := Whole(u), [];
      var i, o := 0, 0;
      ghost var all := Text(u);
      assert done + c.left == all;
      while i < units
        invariant 0 <= i <= units && 0 <= o <= 3 * i && Here(at, units, u)
        invariant out[..o] == done && c.u == u && c.i == i && done + c.left == all
      {
        i, o, c, done := DecodeNext(at, i, units, c, out, o, done, all);
      }
      out[o] := 0;
      text := out[..o];
      assert c.u[c.i..] == [];
    }

    /** The units at a place in the contents. */
    ghost predicate Here(at: nat, units: nat, u: seq<U16>)
      requires Valid()
      reads this, data
    {
      at + 2 * units <= len && u == UnitsAt(Contents()[at..], units)
    }

    /** One turn of the decoding loop. */
    method DecodeNext(at: nat, i: nat, units: nat, ghost c: TextCursor, out: array<Byte>, o: nat,
                      ghost done: seq<Byte>, ghost all: seq<Byte>)
      returns (i2: nat, o2: nat, ghost c2: TextCursor, ghost done2: seq<Byte>)
      requires Valid() && i < units && Here(at, units, c.u) && c.i == i
      requires o <= 3 * i && out.Length == 3 * units + 1 && out != data
      requires out[..o] == done && done + c.left == all
      modifies out
      ensures i < i2 <= units && o2 <= 3 * i2
      ensures out[..o2] == done2 && c2.u == c.u && c2.i == i2 && done2 + c2.left == all
    {
      var cp, used := NextCp(at, i, units, c.u);
      var b := EncodeUtf8(cp);
      c2 := Advance(c, used, cp, b, done, all);
      i2, done2 := i + used, done + b;
      o2 := Append(out, o, b);
    }

    /** One code point, and how many units it took. */
    method NextCp(at: nat, i: nat, units: nat, ghost u: seq<U16>) returns (cp: CodePoint, used: nat)
      requires Valid() && i < units && Here(at, units, u)
      ensures 1 <= used <= 2 && i + used <= units == |u| && Takes(u, i, used, cp)
    {
      cp := GetUnit(at, i, units, u);
      used := 1;
      if IsHigh(cp) && i + 1 < units {
        var lo := GetUnit(at, i + 1, units, u);
        if IsLow(lo) {
          cp := PairCp(cp, lo);
          used := 2;
        }
      }
    }

    method GetUnit(at: nat, i: nat, units: nat, ghost u: seq<U16>) returns (v: U16)
      requires Valid() && i < units && Here(at, units, u)
      ensures v == u[i]
    {
      v := Unit(data[at + 2 * i], data[at + 2 * i + 1]);
      UnitsAtIndex(Contents()[at..], units, i);
    }
  }

  /** Room behind `base` that units fill from the front; the rest of it is zeros. */
  datatype Filling = Filling(base: seq<Byte>, done: seq<U16>, left: nat, bytes: seq<Byte>)

  type HalfFull = r: Filling | r.bytes == r.base + (UnitBytes(r.done) + Zeros(r.left)) witness Filling([], [], 0, [])

  ghost function Empty(base: seq<Byte>, room: nat): (r: HalfFull)
    ensures r == Filling(base, [], room, base + Zeros(room))
  {
    assert UnitBytes([]) + Zeros(room) == Zeros(room);
    Filling(base, [], room, base + Zeros(room))
  }

  /** A place in some UTF-8, with the units that it still gives from there. */
  datatype Reading = Reading(s: seq<Byte>, at: nat, left: seq<U16>)

  type UnitCursor = c: Reading | c.at <= |c.s| && c.left == Units(c.s[c.at..]) witness Reading([], 0, [])

  ghost function FromStart(s: seq<Byte>): (c: UnitCursor)
    ensures c.s == s && c.at == 0 && c.left == Units(s)
  {
    assert s[0..] == s;
    Reading(s, 0, Units(s))
  }

  lemma NoMoreUnits(c: UnitCursor)
    requires c.at == |c.s|
    ensures c.left == []
  {
  }

  /** A place in some units, with the text that they still give from there. */
  datatype Cursor = Cursor(u: seq<U16>, i: nat, left: seq<Byte>)

  type TextCursor = c: Cursor | c.i <= |c.u| && c.left == Text(c.u[c.i..]) witness Cursor([], 0, [])

  ghost function Whole(u: seq<U16>): (c: TextCursor)
    ensures c.u == u && c.i == 0 && c.left == Text(u)
  {
    assert u[0..] == u;
    Cursor(u, 0, Text(u))
  }

  /** The code point at place i of some units: a surrogate pair, or one unit. */
  predicate Takes(u: seq<U16>, i: nat, used: nat, cp: CodePoint)
    requires i < |u|
  {
    if StartsWithPair(u[i..]) then used == 2 && cp == PairCp(u[i], u[i + 1]) else used == 1 && cp == u[i]
  }

  /** One code point's worth of the text. */
  lemma NextText(u: seq<U16>, i: nat, used: nat, cp: CodePoint)
    requires i < |u| && 1 <= used <= 2 && i + used <= |u| && Takes(u, i, used, cp)
    ensures Text(u[i..]) == Utf8(cp) + Text(u[i + used..])
    ensures |Utf8(cp)| <= 3 * used
  {
    assert u[i..][used..] == u[i + used..];
  }

  lemma Advance(c: TextCursor, used: nat, cp: CodePoint, b: seq<Byte>, done: seq<Byte>, all: seq<Byte>)
    returns (next: TextCursor)
    requires c.i < |c.u| && 1 <= used <= 2 && c.i + used <= |c.u| && Takes(c.u, c.i, used, cp)
    requires b == Utf8(cp) && done + c.left == all
    ensures next.u == c.u && next.i == c.i + used && (done + b) + next.left == all && |b| <= 3 * used
  {
    NextText(c.u, c.i, used, cp);
    var rest := Text(c.u[c.i + used..]);
    assert c.left == b + rest;
    next := Cursor(c.u, c.i + used, rest);
    Extends(done, c.left, b, rest, all);
  }

  method EncodeUtf8(cp: CodePoint) returns (b: seq<Byte>)
    ensures b == Utf8(cp)
  {
    if cp < 0x80 {
      b := [cp];
    } else if cp < 0x800 {
      b := [0xC0 + cp / 64, 0x80 + cp % 64];
    } else if cp < 0x1_0000 {
      b := [0xE0 + cp / 64 / 64, 0x80 + cp / 64 % 64, 0x80 + cp % 64];
    } else {
      b := [0xF0 + cp / 64 / 64 / 64, 0x80 + cp / 64 / 64 % 64, 0x80 + cp / 64 % 64, 0x80 + cp % 64];
    }
  }

  method Append(out: array<Byte>, o: nat, b: seq<Byte>) returns (next: nat)
    requires o + |b| <= out.Length
    modifies out
    ensures next == o + |b| && out[..next] == old(out[..o]) + b
  {
    forall k | 0 <= k < |b| {
      out[o + k] := b[k];
    }
    next := o + |b|;
  }

  lemma {:induction false} UnitBytesAppend(a: seq<U16>, b: seq<U16>)
    ensures UnitBytes(a + b) == UnitBytes(a) + UnitBytes(b)
  {
    if a == [] {
      assert a + b == b;
    } else {
      assert (a + b)[1..] == a[1..] + b;
      UnitBytesAppend(a[1..], b);
    }
  }

  lemma SpliceUnits(base: seq<Byte>, done: seq<U16>, u: seq<U16>, room: nat, was: seq<Byte>)
    requires 2 * |u| <= room && was == base + (UnitBytes(done) + Zeros(room))
    ensures var at := |base| + 2 * |done|;
            was[..at] + UnitBytes(u) + was[at + 2 * |u|..] == base + (UnitBytes(done + u) + Zeros(room - 2 * |u|))
  {
    Splice(base, UnitBytes(done), UnitBytes(u), room);
    UnitBytesAppend(done, u);
  }

  lemma Extends(done: seq<Byte>, more: seq<Byte>, next: seq<Byte>, rest: seq<Byte>, all: seq<Byte>)
    requires done + more == all && more == next + rest
    ensures (done + next) + rest == all
  {
    Assoc(done, next, rest);
  }

  /** Bytes written where the zeros start. */
  lemma Splice(base: seq<Byte>, done: seq<Byte>, more: seq<Byte>, room: nat)
    requires |more| <= room
    ensures var all := base + (done + Zeros(room));
            var at := |base| + |done|;
            all[..at] + more + all[at + |more|..] == base + ((done + more) + Zeros(room - |more|))
  {
    var all := base + (done + Zeros(room));
    var at := |base| + |done|;
    assert all[..at] == base + done;
    assert all[at + |more|..] == Zeros(room - |more|);
    Assoc(base, done, more);
    Assoc(base, done + more, Zeros(room - |more|));
  }
}
