/** JPEG files with an orientation entry, built up from their parts, and what the repair makes of them. */
module ExifFile {
  import opened Bytes
  import opened Exif

  // ---- the parts ----

  function Put16(v: int, little: bool): (b: seq<Byte>)
    requires 0 <= v < 0x1_0000
    ensures |b| == 2
  {
    if little then [v % 256, v / 256] else [v / 256, v % 256]
  }

  function Put32(v: int, little: bool): (b: seq<Byte>)
    requires 0 <= v < 0x1_0000_0000
    ensures |b| == 4
  {
    var b0, b1, b2, b3 := v / 0x100_0000, v / 0x1_0000 % 256, v / 0x100 % 256, v % 256;
    if little then [b3, b2, b1, b0] else [b0, b1, b2, b3]
  }

  const EXIF: seq<Byte> := [0x45, 0x78, 0x69, 0x66, 0, 0]

  /** A segment that comes before the Exif segment: neither the scan nor itself one. */
  datatype Segment = Segment(marker: Byte, payload: seq<Byte>)

  predicate SegmentOk(s: Segment) {
    && |s.payload| + 2 < 0x1_0000 && s.marker != 0xda
    && (s.marker == 0xe1 ==> |s.payload| < 6 || s.payload[..6] != EXIF)
  }

  function EncSegment(s: Segment): seq<Byte>
    requires SegmentOk(s)
  {
    [0xff, s.marker] + Put16(|s.payload| + 2, false) + s.payload
  }

  predicate SegmentsOk(segments: seq<Segment>) {
    forall s :: s in segments ==> SegmentOk(s)
  }

  function EncSegments(segments: seq<Segment>): seq<Byte>
    requires SegmentsOk(segments)
  {
    if segments == [] then [] else EncSegment(segments[0]) + EncSegments(segments[1..])
  }

  /** An entry of the directory: a tag, and ten bytes that only its reader understands. */
  datatype Entry = Entry(tag: U16, body: seq<Byte>)

  predicate EntryOk(e: Entry) {
    |e.body| == 10 && e.tag != TAG_ORIENTATION
  }

  predicate EntriesOk(entries: seq<Entry>) {
    forall e :: e in entries ==> EntryOk(e)
  }

  function EncEntry(e: Entry, little: bool): (b: seq<Byte>)
    requires EntryOk(e)
    ensures |b| == ENTRY_BYTES
  {
    Put16(e.tag, little) + e.body
  }

  function EncEntries(entries: seq<Entry>, little: bool): (b: seq<Byte>)
    requires EntriesOk(entries)
    ensures |b| == ENTRY_BYTES * |entries|
  {
    if entries == [] then [] else EncEntry(entries[0], little) + EncEntries(entries[1..], little)
  }

  /**
   A file: segments, then the Exif segment with a TIFF header of either byte order, a directory anywhere behind
   it, in it other entries, the orientation, and whatever follows; then the rest of the file.
   */
  datatype Jpeg = Jpeg(
    segments: seq<Segment>,
    len: nat,                  // what the Exif segment says its length is; it covers its name and ends in the file
    little: bool,
    gap: seq<Byte>,            // between header and directory
    before: seq<Entry>,
    kind: seq<Byte>,           // type and count of the orientation entry
    after: nat,                // how many entries the directory says follow
    rest: seq<Byte>)           // from behind the orientation's value to the end of the file

  predicate JpegOk(j: Jpeg) {
    && SegmentsOk(j.segments) && EntriesOk(j.before) && |j.kind| == 6
    && |j.before| + 1 + j.after < 0x1_0000 && |j.gap| < 0x1_0000 && |j.rest| >= 2
    && 8 <= j.len < 0x1_0000 && j.len <= 28 + |j.gap| + ENTRY_BYTES * |j.before| + |j.rest|
  }

  function Header(j: Jpeg): (b: seq<Byte>)
    requires JpegOk(j)
    ensures |b| == 8
  {
    (if j.little then [0x49, 0x49] else [0x4d, 0x4d]) + Put16(42, j.little) + Put32(8 + |j.gap|, j.little)
  }

  function Directory(j: Jpeg): seq<Byte>
    requires JpegOk(j)
  {
    Put16(|j.before| + 1 + j.after, j.little) + EncEntries(j.before, j.little)
  }

  /** From the TIFF header to the orientation's value. */
  function Tiff(j: Jpeg): (b: seq<Byte>)
    requires JpegOk(j)
    ensures |b| == 18 + |j.gap| + ENTRY_BYTES * |j.before|
  {
    Header(j) + j.gap + Directory(j) + (Put16(TAG_ORIENTATION, j.little) + j.kind)
  }

  function App1(j: Jpeg): (b: seq<Byte>)
    requires JpegOk(j)
    ensures |b| == 10
  {
    [0xff, 0xe1] + Put16(j.len, false) + EXIF
  }

  /** Everything before the value. */
  function Left(j: Jpeg): seq<Byte>
    requires JpegOk(j)
  {
    [0xff, 0xd8] + EncSegments(j.segments) + App1(j) + Tiff(j)
  }

  /** The file with the value v in its orientation entry. */
  function File(j: Jpeg, v: U16): seq<Byte>
    requires JpegOk(j)
  {
    Left(j) + Put16(v, j.little) + j.rest
  }

  // ---- reading what was put ----

  predicate Has(d: seq<Byte>, at: nat, s: seq<Byte>) {
    at + |s| <= |d| && d[at..at + |s|] == s
  }

  lemma HasBoth(d: seq<Byte>, at: nat, a: seq<Byte>, b: seq<Byte>)
    ensures Has(d, at, a + b) <==> Has(d, at, a) && Has(d, at + |a|, b)
  {
    var n := at + |a| + |b|;
    if n <= |d| {
      var s := d[at..n];
      assert s[..|a|] == d[at..at + |a|] && s[|a|..] == d[at + |a|..n];
      assert s == s[..|a|] + s[|a|..];
      assert (a + b)[..|a|] == a && (a + b)[|a|..] == b;
    }
  }

  lemma Reads16(d: seq<Byte>, at: nat, v: int, little: bool)
    requires 0 <= v < 0x1_0000 && Has(d, at, Put16(v, little))
    ensures Read16(d, at, little) == v && (!little ==> Big16(d, at) == v)
  {
    var s := d[at..at + 2];
    assert s[0] == d[at] && s[1] == d[at + 1];
  }

  lemma Reads32(d: seq<Byte>, at: nat, v: int, little: bool)
    requires 0 <= v < 0x1_0000_0000 && Has(d, at, Put32(v, little))
    ensures Read32(d, at, little) == v
  {
    var s := d[at..at + 4];
    assert s[0] == d[at] && s[1] == d[at + 1] && s[2] == d[at + 2] && s[3] == d[at + 3];
    FourDigits(v);
  }

  lemma FourDigits(v: int)
    requires 0 <= v < 0x1_0000_0000
    ensures v == ((v / 0x100_0000 * 256 + v / 0x1_0000 % 256) * 256 + v / 0x100 % 256) * 256 + v % 256
  {
  }

  // ---- the walks ----

  /** A stand-in for FindApp1. */
  ghost predicate IsFind(find: nat -> Option<nat>, d: seq<Byte>) {
    forall pos: nat {:trigger FindApp1(d, pos)} :: find(pos) == FindApp1(d, pos)
  }

  lemma {:induction false} SkipsSegments(d: seq<Byte>, pos: nat, segments: seq<Segment>, find: nat -> Option<nat>)
    requires SegmentsOk(segments) && Has(d, pos, EncSegments(segments)) && IsFind(find, d)
    ensures find(pos) == find(pos + |EncSegments(segments)|)
    decreases |segments|
  {
    if segments != [] {
      var size := FirstSegment(d, pos, segments);
      SkipsOne(d, pos, segments[0], find);
      SkipsSegments(d, pos + size, segments[1..], find);
    }
  }

  lemma FirstSegment(d: seq<Byte>, pos: nat, segments: seq<Segment>) returns (size: nat)
    requires SegmentsOk(segments) && segments != [] && Has(d, pos, EncSegments(segments))
    ensures size == |EncSegment(segments[0])| && |EncSegments(segments)| == size + |EncSegments(segments[1..])|
    ensures Has(d, pos, EncSegment(segments[0])) && Has(d, pos + size, EncSegments(segments[1..]))
  {
    size := |EncSegment(segments[0])|;
    HasBoth(d, pos, EncSegment(segments[0]), EncSegments(segments[1..]));
  }

  lemma NotExif(d: seq<Byte>, pos: nat, s: Segment)
    requires SegmentOk(s) && Has(d, pos + 4, s.payload)
    ensures s.marker == 0xe1 && |s.payload| >= 6 ==> !IsExif(d, pos + 4)
  {
    if |s.payload| >= 6 {
      assert d[pos + 4..pos + 10] == d[pos + 4..pos + 4 + |s.payload|][..6];
    }
  }

  lemma SkipsOne(d: seq<Byte>, pos: nat, s: Segment, find: nat -> Option<nat>)
    requires SegmentOk(s) && Has(d, pos, EncSegment(s)) && IsFind(find, d)
    ensures find(pos) == find(pos + |EncSegment(s)|)
  {
    var head, size := [0xff, s.marker], Put16(|s.payload| + 2, false);
    HasBoth(d, pos, head + size, s.payload);
    HasBoth(d, pos, head, size);
    Reads16(d, pos + 2, |s.payload| + 2, false);
    assert d[pos..pos + 2][0] == d[pos] && d[pos..pos + 2][1] == d[pos + 1];
    NotExif(d, pos, s);
    assert FindApp1(d, pos) == FindApp1(d, pos + |EncSegment(s)|);
  }

  lemma FindsExif(d: seq<Byte>, pos: nat, len: int)
    requires 8 <= len < 0x1_0000 && Has(d, pos, [0xff, 0xe1] + Put16(len, false) + EXIF) && pos + 2 + len <= |d|
    ensures FindApp1(d, pos) == Some(pos)
  {
    var head: seq<Byte> := [0xff, 0xe1];
    HasBoth(d, pos, head + Put16(len, false), EXIF);
    HasBoth(d, pos, head, Put16(len, false));
    Reads16(d, pos + 2, len, false);
    assert d[pos..pos + 2][0] == d[pos] && d[pos..pos + 2][1] == d[pos + 1];
  }

  /** A stand-in for FindEntry. */
  ghost predicate IsEntryFind(find: nat -> Option<nat>, d: seq<Byte>, ifd: nat, little: bool, n: nat) {
    forall i: nat {:trigger FindEntry(d, ifd, little, i, n)} :: find(i) == FindEntry(d, ifd, little, i, n)
  }

  lemma OneEntryOn(d: seq<Byte>, ifd: nat, little: bool, i: nat, n: nat, find: nat -> Option<nat>)
    requires IsEntryFind(find, d, ifd, little, n) && i < n && ifd + 2 + i * ENTRY_BYTES + ENTRY_BYTES <= |d|
    ensures find(i) == if Read16(d, ifd + 2 + i * ENTRY_BYTES, little) == TAG_ORIENTATION
                       then Some(ifd + 2 + i * ENTRY_BYTES) else find(i + 1)
  {
    assert FindEntry(d, ifd, little, i, n) == find(i) && FindEntry(d, ifd, little, i + 1, n) == find(i + 1);
  }

  /** Past the other entries, to the orientation. */
  lemma {:induction false} FindsOrientation(d: seq<Byte>, ifd: nat, little: bool, i: nat, n: nat, before: seq<Entry>,
                                            find: nat -> Option<nat>)
    requires EntriesOk(before) && i + |before| < n && IsEntryFind(find, d, ifd, little, n)
    requires Has(d, ifd + 2 + i * ENTRY_BYTES, EncEntries(before, little))
    requires Has(d, ifd + 2 + (i + |before|) * ENTRY_BYTES, Put16(TAG_ORIENTATION, little))
    requires ifd + 2 + (i + |before|) * ENTRY_BYTES + ENTRY_BYTES <= |d|
    ensures find(i) == Some(ifd + 2 + (i + |before|) * ENTRY_BYTES)
    decreases |before|
  {
    OneEntryOn(d, ifd, little, i, n, find);
    if before == [] {
      Reads16(d, ifd + 2 + i * ENTRY_BYTES, TAG_ORIENTATION, little);
    } else {
      ReadsFirstEntry(d, ifd + 2 + i * ENTRY_BYTES, little, before);
      FindsOrientation(d, ifd, little, i + 1, n, before[1..], find);
    }
  }

  lemma ReadsFirstEntry(d: seq<Byte>, entry: nat, little: bool, before: seq<Entry>)
    requires EntriesOk(before) && before != [] && Has(d, entry, EncEntries(before, little))
    ensures entry + ENTRY_BYTES <= |d| && Read16(d, entry, little) != TAG_ORIENTATION
    ensures Has(d, entry + ENTRY_BYTES, EncEntries(before[1..], little))
  {
    var e := before[0];
    HasBoth(d, entry, EncEntry(e, little), EncEntries(before[1..], little));
    HasBoth(d, entry, Put16(e.tag, little), e.body);
    Reads16(d, entry, e.tag, little);
  }

  lemma ReadsCount(j: Jpeg, d: seq<Byte>, ifd: nat)
    requires JpegOk(j) && Has(d, ifd, Directory(j))
    ensures Read16(d, ifd, j.little) == |j.before| + 1 + j.after
    ensures Has(d, ifd + 2, EncEntries(j.before, j.little))
  {
    var n := |j.before| + 1 + j.after;
    HasBoth(d, ifd, Put16(n, j.little), EncEntries(j.before, j.little));
    Reads16(d, ifd, n, j.little);
  }

  lemma EntryFinder(d: seq<Byte>, ifd: nat, little: bool, n: nat) returns (find: nat -> Option<nat>)
    ensures IsEntryFind(find, d, ifd, little, n) && FindEntry(d, ifd, little, 0, n) == find(0)
  {
    find := (i: nat) => FindEntry(d, ifd, little, i, n);
  }

  /** The directory at `ifd`, and in it the orientation. */
  lemma FindsInDirectory(j: Jpeg, d: seq<Byte>, ifd: nat, n: nat, find: nat -> Option<nat>)
    requires JpegOk(j) && n == |j.before| + 1 + j.after && IsEntryFind(find, d, ifd, j.little, n)
    requires Has(d, ifd + 2, EncEntries(j.before, j.little))
    requires Has(d, ifd + 2 + |j.before| * ENTRY_BYTES, Put16(TAG_ORIENTATION, j.little))
    requires ifd + 2 + |j.before| * ENTRY_BYTES + ENTRY_BYTES <= |d|
    ensures find(0) == Some(ifd + 2 + |j.before| * ENTRY_BYTES)
  {
    FindsOrientation(d, ifd, j.little, 0, n, j.before, find);
  }

  lemma TiffParts(j: Jpeg, d: seq<Byte>, tiff: nat)
    requires JpegOk(j) && Has(d, tiff, Tiff(j))
    ensures Has(d, tiff, Header(j)) && Has(d, tiff + 8 + |j.gap|, Directory(j))
    ensures Has(d, tiff + 10 + |j.gap| + |j.before| * ENTRY_BYTES, Put16(TAG_ORIENTATION, j.little))
  {
    var tag := Put16(TAG_ORIENTATION, j.little);
    HasBoth(d, tiff, Header(j) + j.gap + Directory(j), tag + j.kind);
    HasBoth(d, tiff, Header(j) + j.gap, Directory(j));
    HasBoth(d, tiff, Header(j), j.gap);
    HasBoth(d, tiff + 10 + |j.gap| + |j.before| * ENTRY_BYTES, tag, j.kind);
  }

  /** A stand-in for FindInTiff. */
  ghost predicate IsLook(look: nat -> Option<Place>, d: seq<Byte>) {
    forall tiff: nat {:trigger FindInTiff(d, tiff)} :: look(tiff) == FindInTiff(d, tiff)
  }

  lemma FindsInTiff(j: Jpeg, d: seq<Byte>, tiff: nat, look: nat -> Option<Place>)
    requires IsLook(look, d) && JpegOk(j) && Has(d, tiff, Tiff(j)) && tiff + |Tiff(j)| + 4 <= |d|
    ensures look(tiff) == Some(Place(tiff + |Tiff(j)|, j.little))
  {
    TiffParts(j, d, tiff);
    ReadsHeader(j, d, tiff);
    FindsBehindHeader(j, d, tiff, tiff + 8 + |j.gap|, look);
  }

  lemma FindsBehindHeader(j: Jpeg, d: seq<Byte>, tiff: nat, ifd: nat, look: nat -> Option<Place>)
    requires IsLook(look, d) && JpegOk(j) && tiff + 8 <= ifd && Has(d, ifd, Directory(j))
    requires Has(d, ifd + 2 + |j.before| * ENTRY_BYTES, Put16(TAG_ORIENTATION, j.little))
    requires ifd + 2 + |j.before| * ENTRY_BYTES + ENTRY_BYTES <= |d|
    requires IsTiff(d, tiff, true) == j.little && (IsTiff(d, tiff, true) || IsTiff(d, tiff, false))
    requires ifd == tiff + Read32(d, tiff + 4, j.little)
    ensures look(tiff) == Some(Place(ifd + 10 + |j.before| * ENTRY_BYTES, j.little))
  {
    ReadsCount(j, d, ifd);
    var find := EntryFinder(d, ifd, j.little, |j.before| + 1 + j.after);
    FindsInDirectory(j, d, ifd, |j.before| + 1 + j.after, find);
    TiffBy(d, tiff, j.little, ifd, ifd + 2 + |j.before| * ENTRY_BYTES);
  }

  lemma TiffBy(d: seq<Byte>, tiff: nat, little: bool, ifd: nat, entry: nat)
    requires tiff + 8 <= |d| && ifd + 2 <= |d| && IsTiff(d, tiff, true) == little
    requires IsTiff(d, tiff, true) || IsTiff(d, tiff, false)
    requires ifd == tiff + Read32(d, tiff + 4, little)
    requires FindEntry(d, ifd, little, 0, Read16(d, ifd, little)) == Some(entry)
    ensures FindInTiff(d, tiff) == Some(Place(entry + 8, little))
  {
  }

  lemma ReadsHeader(j: Jpeg, d: seq<Byte>, tiff: nat)
    requires JpegOk(j) && Has(d, tiff, Header(j))
    ensures IsTiff(d, tiff, true) == j.little && (IsTiff(d, tiff, true) || IsTiff(d, tiff, false))
    ensures Read32(d, tiff + 4, j.little) == 8 + |j.gap|
  {
    var mark: seq<Byte> := if j.little then [0x49, 0x49] else [0x4d, 0x4d];
    HasBoth(d, tiff, mark + Put16(42, j.little), Put32(8 + |j.gap|, j.little));
    HasBoth(d, tiff, mark, Put16(42, j.little));
    Reads32(d, tiff + 4, 8 + |j.gap|, j.little);
    assert d[tiff..tiff + 2][0] == d[tiff] && d[tiff..tiff + 2][1] == d[tiff + 1];
  }

  // ---- the file ----

  lemma FileParts(j: Jpeg, d: seq<Byte>)
    requires JpegOk(j) && Has(d, 0, Left(j))
    ensures var n := |EncSegments(j.segments)|;
            && Has(d, 0, [0xff, 0xd8]) && Has(d, 2, EncSegments(j.segments))
            && Has(d, 2 + n, App1(j)) && Has(d, 12 + n, Tiff(j)) && |Left(j)| == 12 + n + |Tiff(j)|
  {
    var start: seq<Byte> := [0xff, 0xd8];
    var segments := EncSegments(j.segments);
    HasBoth(d, 0, start + segments + App1(j), Tiff(j));
    HasBoth(d, 0, start + segments, App1(j));
    HasBoth(d, 0, start, segments);
  }

  lemma FindsSegment(j: Jpeg, d: seq<Byte>, n: nat, find: nat -> Option<nat>)
    requires IsFind(find, d) && JpegOk(j) && n == |EncSegments(j.segments)| && Has(d, 2, EncSegments(j.segments))
    requires Has(d, 2 + n, App1(j)) && 4 + n + j.len <= |d|
    ensures find(2) == Some(2 + n)
  {
    SkipsSegments(d, 2, j.segments, find);
    FindsExif(d, 2 + n, j.len);
  }

  /** A stand-in for Locate. */
  ghost predicate IsLocate(locate: seq<Byte> -> Option<Place>) {
    forall d: seq<Byte> {:trigger Locate(d)} :: locate(d) == Locate(d)
  }

  lemma LocateBy(d: seq<Byte>, pos: nat, p: Place, find: nat -> Option<nat>, look: nat -> Option<Place>,
                 locate: seq<Byte> -> Option<Place>)
    requires IsLocate(locate) && |d| >= APP1_MIN && Has(d, 0, [0xff, 0xd8]) && IsFind(find, d) && IsLook(look, d)
    requires find(2) == Some(pos) && look(pos + 10) == Some(p)
    ensures locate(d) == Some(p)
  {
    StartsRight(d);
    assert FindApp1(d, 2) == find(2);
    assert Locate(d) == Some(p);
  }

  lemma StartsRight(d: seq<Byte>)
    requires Has(d, 0, [0xff, 0xd8])
    ensures d[0] == 0xff && d[1] == 0xd8
  {
    assert d[0..2][0] == d[0] && d[0..2][1] == d[1];
  }

  lemma FileHas(j: Jpeg, v: U16)
    requires JpegOk(j)
    ensures Has(File(j, v), 0, Left(j)) && Has(File(j, v), |Left(j)|, Put16(v, j.little))
    ensures |File(j, v)| == |Left(j)| + 2 + |j.rest|
  {
    var d := File(j, v);
    Whole(d);
    HasBoth(d, 0, Left(j) + Put16(v, j.little), j.rest);
    HasBoth(d, 0, Left(j), Put16(v, j.little));
  }

  lemma FindsAfterLeft(j: Jpeg, d: seq<Byte>, locate: seq<Byte> -> Option<Place>)
    requires IsLocate(locate) && JpegOk(j) && Has(d, 0, Left(j)) && |d| == |Left(j)| + 2 + |j.rest|
    ensures locate(d) == Some(Place(|Left(j)|, j.little))
  {
    FileParts(j, d);
    var find, look := Finders(d);
    FindsBehind(j, d, |EncSegments(j.segments)|, find, look, locate);
  }

  lemma Finders(d: seq<Byte>) returns (find: nat -> Option<nat>, look: nat -> Option<Place>)
    ensures IsFind(find, d) && IsLook(look, d)
  {
    find := (pos: nat) => FindApp1(d, pos);
    look := (tiff: nat) => FindInTiff(d, tiff);
  }

  /** The entry's value is found, whatever it is. */
  lemma FindsTheValue(j: Jpeg, v: U16)
    requires JpegOk(j)
    ensures Locate(File(j, v)) == Some(Place(|Left(j)|, j.little))
    ensures Read16(File(j, v), |Left(j)|, j.little) == v
  {
    FileHas(j, v);
    var locate := (d: seq<Byte>) => Locate(d);
    FindsAfterLeft(j, File(j, v), locate);
    Reads16(File(j, v), |Left(j)|, v, j.little);
  }

  lemma FindsBehind(j: Jpeg, d: seq<Byte>, n: nat, find: nat -> Option<nat>, look: nat -> Option<Place>,
                    locate: seq<Byte> -> Option<Place>)
    requires IsFind(find, d) && IsLook(look, d) && IsLocate(locate) && JpegOk(j) && n == |EncSegments(j.segments)|
    requires Has(d, 0, [0xff, 0xd8]) && Has(d, 2, EncSegments(j.segments))
    requires Has(d, 2 + n, App1(j)) && Has(d, 12 + n, Tiff(j)) && |d| == 14 + n + |Tiff(j)| + |j.rest|
    ensures locate(d) == Some(Place(12 + n + |Tiff(j)|, j.little))
  {
    FindsSegment(j, d, n, find);
    FindsInTiff(j, d, 12 + n, look);
    LocateBy(d, 2 + n, Place(12 + n + |Tiff(j)|, j.little), find, look, locate);
  }

  lemma Whole(d: seq<Byte>)
    ensures Has(d, 0, d)
  {
    assert d[0..|d|] == d;
  }

  /** The repair gives the same file, with the value 1 in place of one that is not legal. */
  lemma RepairsTheFile(j: Jpeg, v: U16)
    requires JpegOk(j)
    ensures Repaired(File(j, v)) == File(j, if 1 <= v <= 8 then v else 1)
  {
    FindsTheValue(j, v);
    WritesBetween(Left(j), v, j.rest, j.little);
  }

  lemma WritesBetween(left: seq<Byte>, v: U16, rest: seq<Byte>, little: bool)
    ensures Write16(left + Put16(v, little) + rest, Place(|left|, little), 1) == left + Put16(1, little) + rest
  {
  }
}
