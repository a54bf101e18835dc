/** The repair of the EXIF orientation tag in a JPEG, in place, over arbitrary bytes. */
module Exif {
  import opened Bytes

  const APP1_MIN := 12
  const TAG_ORIENTATION := 0x0112
  const ENTRY_BYTES := 12

  // ---- where the orientation is ----

  function Big16(d: seq<Byte>, at: nat): int
    requires at + 2 <= |d|
  {
    var hi: int, lo: int := d[at], d[at + 1];
    256 * hi + lo
  }

  function Read16(d: seq<Byte>, at: nat, little: bool): (v: int)
    requires at + 2 <= |d|
    ensures 0 <= v < 0x1_0000
  {
    var a: int, b: int := d[at], d[at + 1];
    if little then a + 256 * b else 256 * a + b
  }

  function Read32(d: seq<Byte>, at: nat, little: bool): (v: int)
    requires at + 4 <= |d|
    ensures v >= 0
  {
    if little then Read16(d, at, true) + 0x1_0000 * Read16(d, at + 2, true)
    else 0x1_0000 * Read16(d, at, false) + Read16(d, at + 2, false)
  }

  predicate IsExif(d: seq<Byte>, at: nat)
    requires at + 6 <= |d|
  {
    d[at..at + 6] == [0x45, 0x78, 0x69, 0x66, 0, 0]
  }

  /** The APP1/Exif segment, by the marker chain from `pos` on. */
  function FindApp1(d: seq<Byte>, pos: nat): (r: Option<nat>)
    ensures r.Some? ==> pos <= r.value && r.value + 10 <= |d|
    decreases |d| - pos
  {
    if pos + 4 > |d| || d[pos] != 0xff then None
    else
      var segLen := Big16(d, pos + 2);
      if segLen < 2 || pos + 2 + segLen > |d| then None
      else if d[pos + 1] == 0xe1 && segLen >= 8 && IsExif(d, pos + 4) then Some(pos)
      else if d[pos + 1] == 0xda then None
      else FindApp1(d, pos + 2 + segLen)
  }

  /** The first orientation entry among entries i to n - 1 of the directory at `ifd`. */
  function FindEntry(d: seq<Byte>, ifd: nat, little: bool, i: nat, n: nat): (r: Option<nat>)
    ensures r.Some? ==> ifd + 2 <= r.value && r.value + ENTRY_BYTES <= |d|
    decreases n - i
  {
    var entry := ifd + 2 + i * ENTRY_BYTES;
    if i >= n || entry + ENTRY_BYTES > |d| then None
    else if Read16(d, entry, little) == TAG_ORIENTATION then Some(entry)
    else FindEntry(d, ifd, little, i + 1, n)
  }

  datatype Place = Place(at: nat, little: bool)

  predicate IsTiff(d: seq<Byte>, tiff: nat, little: bool)
    requires tiff + 2 <= |d|
  {
    if little then d[tiff] == 0x49 && d[tiff + 1] == 0x49 else d[tiff] == 0x4d && d[tiff + 1] == 0x4d
  }

  /** The orientation's value in the directory that the TIFF header at `tiff` points to. */
  function FindInTiff(d: seq<Byte>, tiff: nat): (r: Option<Place>)
    ensures r.Some? ==> tiff + 10 <= r.value.at && r.value.at + 2 <= |d|
  {
    if tiff + 8 > |d| || !(IsTiff(d, tiff, true) || IsTiff(d, tiff, false)) then None
    else
      var little := IsTiff(d, tiff, true);
      var ifd := tiff + Read32(d, tiff + 4, little);
      if ifd + 2 > |d| then None
      else match FindEntry(d, ifd, little, 0, Read16(d, ifd, little))
        case None => None
        case Some(entry) => Some(Place(entry + 8, little))
  }

  /** The value of the first orientation entry in the first directory of the first Exif segment. */
  function Locate(d: seq<Byte>): (r: Option<Place>)
    ensures r.Some? ==> r.value.at + 2 <= |d|
  {
    if |d| < APP1_MIN || d[0] != 0xff || d[1] != 0xd8 then None
    else match FindApp1(d, 2)
      case None => None
      case Some(pos) => FindInTiff(d, pos + 10)
  }

  /** It is the first: the entries before it are other tags. */
  lemma {:induction false} EntryIsTheFirst(d: seq<Byte>, ifd: nat, little: bool, i: nat, n: nat) returns (k: nat)
    requires FindEntry(d, ifd, little, i, n).Some?
    ensures i <= k < n && FindEntry(d, ifd, little, i, n) == Some(ifd + 2 + k * ENTRY_BYTES)
    ensures forall j :: i <= j <= k ==> ifd + 2 + j * ENTRY_BYTES + ENTRY_BYTES <= |d|
    ensures forall j :: i <= j <= k ==> (Read16(d, ifd + 2 + j * ENTRY_BYTES, little) == TAG_ORIENTATION <==> j == k)
    decreases n - i
  {
    if Read16(d, ifd + 2 + i * ENTRY_BYTES, little) == TAG_ORIENTATION {
      k := i;
    } else {
      k := EntryIsTheFirst(d, ifd, little, i + 1, n);
    }
  }

  // ---- the repair ----

  predicate Legal(v: int) {
    1 <= v <= 8
  }

  function Write16(d: seq<Byte>, p: Place, v: int): (r: seq<Byte>)
    requires p.at + 2 <= |d| && 0 <= v < 0x1_0000
    ensures |r| == |d| && Read16(r, p.at, p.little) == v
    ensures forall i :: 0 <= i < |d| && i != p.at && i != p.at + 1 ==> r[i] == d[i]
  {
    if p.little then d[p.at := v % 256][p.at + 1 := v / 256] else d[p.at := v / 256][p.at + 1 := v % 256]
  }

  function RepairedAt(d: seq<Byte>, place: Option<Place>): seq<Byte>
    requires place.Some? ==> place.value.at + 2 <= |d|
  {
    match place
    case None => d
    case Some(p) => if Legal(Read16(d, p.at, p.little)) then d else Write16(d, p, 1)
  }

  function Repaired(d: seq<Byte>): seq<Byte> {
    RepairedAt(d, Locate(d))
  }

  // ---- what is read to find the place lies before it ----

  predicate SameBefore(d: seq<Byte>, e: seq<Byte>, n: nat) {
    |d| == |e| && forall i :: 0 <= i < n && i < |d| ==> d[i] == e[i]
  }

  lemma SameMarker(d: seq<Byte>, e: seq<Byte>, pos: nat, n: nat)
    requires SameBefore(d, e, n) && pos + 10 <= n <= |d|
    ensures Big16(e, pos + 2) == Big16(d, pos + 2) && (IsExif(e, pos + 4) <==> IsExif(d, pos + 4))
    ensures e[pos] == d[pos] && e[pos + 1] == d[pos + 1]
  {
    assert e[pos + 4..pos + 10] == d[pos + 4..pos + 10];
  }

  /** One marker on, if this one is not the segment. */
  lemma NextMarker(d: seq<Byte>, pos: nat)
    requires FindApp1(d, pos).Some? && FindApp1(d, pos) != Some(pos)
    ensures pos + 2 + Big16(d, pos + 2) <= |d| && 2 <= Big16(d, pos + 2)
    ensures FindApp1(d, pos) == FindApp1(d, pos + 2 + Big16(d, pos + 2))
    ensures d[pos] == 0xff && d[pos + 1] != 0xda
    ensures !(d[pos + 1] == 0xe1 && Big16(d, pos + 2) >= 8 && IsExif(d, pos + 4))
  {
  }

  lemma {:induction false} App1StaysPut(d: seq<Byte>, e: seq<Byte>, pos: nat)
    requires FindApp1(d, pos).Some? && SameBefore(d, e, FindApp1(d, pos).value + 10)
    ensures FindApp1(e, pos) == FindApp1(d, pos)
    decreases |d| - pos
  {
    SameMarker(d, e, pos, FindApp1(d, pos).value + 10);
    if FindApp1(d, pos) != Some(pos) {
      NextMarker(d, pos);
      App1StaysPut(d, e, pos + 2 + Big16(d, pos + 2));
      assert FindApp1(e, pos) == FindApp1(e, pos + 2 + Big16(d, pos + 2));
    }
  }

  lemma {:induction false} EntryStaysPut(d: seq<Byte>, e: seq<Byte>, ifd: nat, little: bool, i: nat, n: nat)
    requires FindEntry(d, ifd, little, i, n).Some? && SameBefore(d, e, FindEntry(d, ifd, little, i, n).value + 8)
    ensures FindEntry(e, ifd, little, i, n) == FindEntry(d, ifd, little, i, n)
    decreases n - i
  {
    var entry := ifd + 2 + i * ENTRY_BYTES;
    if Read16(d, entry, little) != TAG_ORIENTATION {
      EntryIsLater(d, ifd, little, i + 1, n);
      EntryStaysPut(d, e, ifd, little, i + 1, n);
    }
  }

  lemma EntryIsLater(d: seq<Byte>, ifd: nat, little: bool, i: nat, n: nat)
    requires FindEntry(d, ifd, little, i, n).Some?
    ensures ifd + 2 + i * ENTRY_BYTES <= FindEntry(d, ifd, little, i, n).value
  {
    var k := EntryIsTheFirst(d, ifd, little, i, n);
  }

  lemma TiffStaysPut(d: seq<Byte>, e: seq<Byte>, tiff: nat)
    requires FindInTiff(d, tiff).Some? && SameBefore(d, e, FindInTiff(d, tiff).value.at)
    ensures FindInTiff(e, tiff) == FindInTiff(d, tiff)
  {
    var little := IsTiff(d, tiff, true);
    var ifd := tiff + Read32(d, tiff + 4, little);
    var n := Read16(d, ifd, little);
    assert Read32(e, tiff + 4, little) == Read32(d, tiff + 4, little);
    assert Read16(e, ifd, little) == n;
    EntryStaysPut(d, e, ifd, little, 0, n);
  }

  /** Whatever is written at the place, it stays the place. */
  lemma PlaceStaysPut(d: seq<Byte>, e: seq<Byte>)
    requires Locate(d).Some? && SameBefore(d, e, Locate(d).value.at)
    ensures Locate(e) == Locate(d)
  {
    var pos := FindApp1(d, 2).value;
    App1StaysPut(d, e, 2);
    TiffStaysPut(d, e, pos + 10);
  }

  // ---- what the repair promises ----

  /** Nothing but the two value bytes changes, and those only if the value was not legal; then it is 1. */
  lemma RepairIsLocal(d: seq<Byte>)
    ensures |Repaired(d)| == |d|
    ensures Locate(d).None? ==> Repaired(d) == d
    ensures Locate(d).Some? ==>
              var p := Locate(d).value;
              && (forall i :: 0 <= i < |d| && i != p.at && i != p.at + 1 ==> Repaired(d)[i] == d[i])
              && Read16(Repaired(d), p.at, p.little) ==
                   (if Legal(Read16(d, p.at, p.little)) then Read16(d, p.at, p.little) else 1)
              && (Legal(Read16(d, p.at, p.little)) <==> Repaired(d) == d)
  {
  }

  /** A located orientation is legal afterwards, at the same place. */
  lemma RepairedIsLegal(d: seq<Byte>)
    ensures Locate(Repaired(d)) == Locate(d)
    ensures Locate(d).Some? ==> Legal(Read16(Repaired(d), Locate(d).value.at, Locate(d).value.little))
  {
    if Locate(d).Some? {
      PlaceStaysPut(d, Repaired(d));
    }
  }

  lemma RepairTwiceIsOnce(d: seq<Byte>)
    ensures Repaired(Repaired(d)) == Repaired(d)
  {
    RepairedIsLegal(d);
  }

  // ---- the code ----

  /** The marker walk; `found` stands for leaving the loop at the Exif segment. */
  method WalkMarkers(data: array<Byte>) returns (found: bool, pos: nat)
    requires data.Length >= APP1_MIN
    ensures FindApp1(data[..], 2) == if found then Some(pos) else None
  {
    var d := data[..];
    pos := 2;
    while pos + 4 <= data.Length && data[pos] == 0xff
      invariant 2 <= pos && FindApp1(d, pos) == FindApp1(d, 2)
      decreases data.Length - pos
    {
      var marker: int, hi: int, lo: int := data[pos + 1], data[pos + 2], data[pos + 3];
      var segLen := 256 * hi + lo;
      if segLen < 2 || pos + 2 + segLen > data.Length {
        return false, pos;
      }
      if marker == 0xe1 && segLen >= 8 && data[pos + 4..pos + 10] == [0x45, 0x78, 0x69, 0x66, 0, 0] {
        assert data[pos + 4..pos + 10] == d[pos + 4..pos + 10];
        return true, pos;
      }
      assert segLen >= 8 ==> data[pos + 4..pos + 10] == d[pos + 4..pos + 10];
      if marker == 0xda {
        return false, pos;
      }
      pos := pos + 2 + segLen;
    }
    found := false;
  }

  /** The directory walk; patches the first orientation entry's value if it is not legal. */
  method WalkEntries(data: array<Byte>, ifd: nat, little: bool, entries: nat)
    modifies data
    ensures var d := old(data[..]);
            data[..] == match FindEntry(d, ifd, little, 0, entries)
                        case None => d
                        case Some(entry) =>
                          if Legal(Read16(d, entry + 8, little)) then d else Write16(d, Place(entry + 8, little), 1)
  {
    ghost var d := data[..];
    for i := 0 to entries
      invariant data[..] == d && FindEntry(d, ifd, little, i, entries) == FindEntry(d, ifd, little, 0, entries)
    {
      var entry := ifd + 2 + i * ENTRY_BYTES;
      if entry + ENTRY_BYTES > data.Length {
        return;
      }
      if Read16(data[..], entry, little) != TAG_ORIENTATION {
        continue;
      }
      var value := Read16(data[..], entry + 8, little);
      if value == 0 || value > 8 {
        data[entry + 8] := if little then 1 else 0;
        data[entry + 9] := if little then 0 else 1;
        assert data[..] == Write16(d, Place(entry + 8, little), 1);
      }
      return;
    }
  }

  method FixupTiff(data: array<Byte>, tiff: nat)
    modifies data
    ensures data[..] == RepairedAt(old(data[..]), FindInTiff(old(data[..]), tiff))
  {
    if tiff + 8 > data.Length {
      return;
    }
    var little := data[tiff] == 0x49 && data[tiff + 1] == 0x49;
    var big := data[tiff] == 0x4d && data[tiff + 1] == 0x4d;
    if !little && !big {
      return;
    }
    var ifd := tiff + Read32(data[..], tiff + 4, little);
    if ifd + 2 > data.Length {
      return;
    }
    WalkEntries(data, ifd, little, Read16(data[..], ifd, little));
  }

  method FixupExifOrientation(data: array<Byte>)
    modifies data
    ensures data[..] == Repaired(old(data[..]))
  {
    if data.Length < APP1_MIN || data[0] != 0xff || data[1] != 0xd8 {
      return;
    }
    var found, pos := WalkMarkers(data);
    if found {
      assert Locate(data[..]) == FindInTiff(data[..], pos + 10);
      FixupTiff(data, pos + 10);
    } else {
      assert Locate(data[..]) == None;
    }
  }
}
