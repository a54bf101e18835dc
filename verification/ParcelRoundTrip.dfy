/** Any list of integers and strings written to a parcel is read back from it, to its end. */
module ParcelRoundTrip {
  import opened Bytes
  import opened String16
  import opened ParcelLayout
  import opened Parcels
  import opened Sequences

  datatype Item = I32(v: S32) | Str(s: Option<seq<Byte>>)

  /** A C string. */
  predicate IsC(item: Item) {
    item.Str? && item.s.Some? ==> 0 !in item.s.value
  }

  predicate Fits(item: Item) {
    item.Str? && item.s.Some? ==> |Units(item.s.value)| <= MAX_REPLY / 4
  }

  function Enc(item: Item): seq<Byte>
    requires Fits(item)
  {
    match item
    case I32(v) => Le32(v)
    case Str(s) => EncStr(s)
  }

  predicate AllFit(items: seq<Item>) {
    forall i :: 0 <= i < |items| ==> Fits(items[i])
  }

  function EncAll(items: seq<Item>): seq<Byte>
    requires AllFit(items)
  {
    if items == [] then [] else Enc(items[0]) + EncAll(items[1..])
  }

  /** What an item is read as: malformed text as its repaired form, everything else as itself. */
  function Meaning(item: Item): Item {
    if item.Str? && item.s.Some? then Str(Some(Text(Units(item.s.value)))) else item
  }

  function Meanings(items: seq<Item>): seq<Item> {
    if items == [] then [] else [Meaning(items[0])] + Meanings(items[1..])
  }

  /** Well-formed UTF-8 means itself. */
  lemma WellFormedMeansItself(cps: seq<CodePoint>)
    requires forall i :: 0 <= i < |cps| ==> IsScalar(cps[i])
    ensures Meaning(Str(Some(Utf8Of(cps)))) == Str(Some(Utf8Of(cps)))
  {
    TextOfUnits(cps);
  }

  /** The bytes that an item takes, whether it fits or not. */
  function Size(item: Item): nat {
    match item
    case I32(_) => 4
    case Str(s) => SizeOf(s)
  }

  function TotalSize(items: seq<Item>): nat {
    if items == [] then 0 else Size(items[0]) + TotalSize(items[1..])
  }

  lemma {:induction false} SizeIsLength(items: seq<Item>)
    requires AllFit(items)
    ensures |EncAll(items)| == TotalSize(items)
  {
    if items != [] {
      SizeIsLength(items[1..]);
    }
  }

  method WriteOne(p: Parcel, item: Item)
    requires p.Valid() && IsC(item)
    modifies p, p.data
    ensures p.Valid() && (p.data == old(p.data) || fresh(p.data)) && p.pos == old(p.pos)
    ensures p.error == NoError ==> old(p.error) == NoError && Fits(item) && p.Contents() == old(p.Contents()) + Enc(item)
    ensures old(p.error) != NoError ==> p.error == old(p.error) || (p.error == Invalid && !Fits(item))
    ensures old(p.error) == NoError && p.error == Invalid ==> !Fits(item) || old(p.len) + Size(item) > MAX_REPLY
    ensures p.error == Protocol ==> old(p.error) == Protocol
  {
    match item {
      case I32(v) => p.PutI32(v);
      case Str(s) => p.PutStr16(s);
    }
  }

  method WriteAll(p: Parcel, items: seq<Item>)
    requires p.Valid() && forall i :: 0 <= i < |items| ==> IsC(items[i])
    modifies p, p.data
    ensures p.Valid() && p.pos == old(p.pos)
    ensures p.error == NoError ==>
              old(p.error) == NoError && AllFit(items) && p.Contents() == old(p.Contents()) + EncAll(items)
    ensures p.error == Invalid && old(p.error) != Invalid ==>
              !AllFit(items) || (old(p.error) == NoError && old(p.len) + TotalSize(items) > MAX_REPLY)
    ensures p.error == Protocol ==> old(p.error) == Protocol
    decreases |items|
  {
    if items != [] {
      WriteOne(p, items[0]);
      assert p.error == NoError ==> p.len == old(p.len) + Size(items[0]);
      WriteAll(p, items[1..]);
      assert AllFit(items) ==> Fits(items[0]) && AllFit(items[1..]);
      if p.error == NoError {
        Assoc(old(p.Contents()), Enc(items[0]), EncAll(items[1..]));
      }
    } else {
      assert p.Contents() == old(p.Contents()) + [];
    }
  }

  method ReadOne(p: Parcel, item: Item, ghost rest: seq<Byte>) returns (back: Item)
    requires p.Valid() && p.error == NoError && Fits(item)
    requires p.Contents()[p.pos..] == Enc(item) + rest
    modifies p`pos, p`error
    ensures p.Valid() && (p.error == NoError || p.error == NoMemory)
    ensures p.error == NoError ==> back == Meaning(item) && p.Contents()[p.pos..] == rest
  {
    ghost var b := p.Contents()[p.pos..];
    match item {
      case I32(v) =>
        var w := p.GetI32();
        assert b[..4] == Le32(v) && p.Contents()[old(p.pos)..p.pos] == b[..4];
        back := I32(w);
      case Str(s) =>
        StrComesBack(s, rest);
        var t := p.GetStr16();
        back := Str(t);
    }
    if p.error == NoError {
      assert p.Contents()[p.pos..] == b[p.pos - old(p.pos)..];
    }
  }

  /** Reading the same kinds of items from where they were written; only memory can run out. */
  method ReadAll(p: Parcel, items: seq<Item>) returns (back: seq<Item>)
    requires p.Valid() && p.error == NoError && AllFit(items)
    requires p.Contents()[p.pos..] == EncAll(items)
    modifies p`pos, p`error
    ensures p.Valid() && (p.error == NoError || p.error == NoMemory)
    ensures p.error == NoError ==> back == Meanings(items) && p.pos == p.len
    decreases |items|
  {
    back := [];
    if items != [] {
      var first := ReadOne(p, items[0], EncAll(items[1..]));
      if p.error == NoError {
        back := ReadAll(p, items[1..]);
        back := [first] + back;
      }
    } else {
      assert p.Contents()[p.pos..] == [];
    }
  }

  /**
   Every list of integers and C strings, malformed ones too, comes back as what it means, and the reader ends
   at the end.  It fails only for lack of memory, or because a string or the whole is too large.
   */
  method WriteThenRead(items: seq<Item>) returns (error: Error, back: seq<Item>, left: nat)
    requires forall i :: 0 <= i < |items| ==> IsC(items[i])
    ensures error == NoError ==> back == Meanings(items) && left == 0
    ensures error == NoError ==> AllFit(items) && TotalSize(items) <= MAX_REPLY
    ensures error == Invalid ==> !AllFit(items) || TotalSize(items) > MAX_REPLY
    ensures error != Protocol
  {
    var p := new Parcel();
    back := [];
    WriteAll(p, items);
    if p.error == NoError {
      assert p.Contents()[p.pos..] == EncAll(items);
      SizeIsLength(items);
      back := ReadAll(p, items);
    }
    error, left := p.error, p.len - p.pos;
  }
}
