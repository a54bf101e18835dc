/** Writing any list of fields with TagWriter and reading it back with TagReader. */
module TagRoundTrip {
  import opened Bytes
  import opened PaWire
  import opened Sequences
  import opened TagWriting
  import opened TagReading

  /** One field as the caller of TagWriter gives it, and as the caller of TagReader gets it. */
  datatype Field =
    | FU8(u8: Byte)
    | FU32(u32: U32)
    | FU64(u64: U64)
    | FS64(s64: S64)
    | FUsec(usec: U64)
    | FBool(b: bool)
    | FString(s: Option<seq<Byte>>)
    | FSampleSpec(ss: SampleSpec)
    | FChannelMap(positions: seq<Byte>)
    | FCVolume(channels: Byte, volume: U32)
    | FTimeval(sec: U32, frac: U32)
    | FProplist(entries: seq<(seq<Byte>, seq<Byte>)>)   // given: a std::map in its order
    | FProps(props: Props)                               // got

  /** What TagWriter's signatures and their callers guarantee. */
  predicate FieldOk(f: Field) {
    match f
    case FString(s) => s.Some? ==> NulFree(s.value)
    case FChannelMap(positions) => |positions| <= MAX_CHANNELS
    case FProplist(entries) => PropsOk(entries)
    case FProps(_) => false
    case _ => true
  }

  function Enc(f: Field): seq<Byte>
    requires FieldOk(f)
  {
    match f
    case FU8(v) => EncU8(v)
    case FU32(v) => EncU32(v)
    case FU64(v) => EncU64(v)
    case FS64(v) => EncS64(v)
    case FUsec(v) => EncUsec(v)
    case FBool(v) => EncBool(v)
    case FString(s) => EncString(s)
    case FSampleSpec(ss) => EncSampleSpec(ss)
    case FChannelMap(positions) => EncChannelMap(positions)
    case FCVolume(channels, volume) => EncCVolume(Repeat(channels, volume))
    case FTimeval(sec, frac) => EncTimeval(sec, frac)
    case FProplist(entries) => EncProplist(Wire(entries))
  }

  function EncAll(fs: seq<Field>): seq<Byte>
    requires AllOk(fs)
  {
    if fs == [] then [] else Enc(fs[0]) + EncAll(fs[1..])
  }

  function AsMap(entries: seq<(seq<Byte>, seq<Byte>)>): Props {
    if entries == [] then map[]
    else
      var last := |entries| - 1;
      AsMap(entries[..last])[entries[last].0 := entries[last].1]
  }

  /**
   What the reader returns for a field.  A proplist comes back as a map; a volume without channels
   carries no value on the wire and reads as VOLUME_NORM; every other field comes back as it was.
   */
  function Meaning(f: Field): Field {
    match f
    case FProplist(entries) => FProps(AsMap(entries))
    case FCVolume(channels, volume) => FCVolume(channels, if channels == 0 then VOLUME_NORM else volume)
    case _ => f
  }

  /** A volume that the wire does not carry. */
  predicate Lost(f: Field) {
    f.FCVolume? && f.channels == 0 && f.volume != VOLUME_NORM
  }

  lemma SamePrefix(a: seq<Byte>, b: seq<Byte>, bytes: seq<Byte>)
    requires a <= bytes && b <= bytes && |a| == |b|
    ensures a == b
  {
  }

  lemma TimevalsDelimit(s: U32, u: U32, s': U32, u': U32, bytes: seq<Byte>)
    requires EncTimeval(s, u) <= bytes && EncTimeval(s', u') <= bytes
    ensures s == s' && u == u'
  {
    SamePrefix(EncTimeval(s, u), EncTimeval(s', u'), bytes);
    assert EncTimeval(s, u)[1..5] == Be32(s) && EncTimeval(s, u)[5..] == Be32(u);
    assert EncTimeval(s', u')[1..5] == Be32(s') && EncTimeval(s', u')[5..] == Be32(u');
  }

  lemma SpecsDelimit(a: SampleSpec, b: SampleSpec, bytes: seq<Byte>)
    requires EncSampleSpec(a) <= bytes && EncSampleSpec(b) <= bytes
    ensures a == b
  {
    SamePrefix(EncSampleSpec(a), EncSampleSpec(b), bytes);
    assert EncSampleSpec(a)[1] == a.format && EncSampleSpec(a)[2] == a.channels;
    assert EncSampleSpec(b)[1] == b.format && EncSampleSpec(b)[2] == b.channels;
    assert EncSampleSpec(a)[3..] == Be32(a.rate) && EncSampleSpec(b)[3..] == Be32(b.rate);
  }

  lemma LongsDelimit(tag: Byte, v: U64, w: U64, bytes: seq<Byte>)
    requires [tag] + Be64(v) <= bytes && [tag] + Be64(w) <= bytes
    ensures v == w
  {
    SamePrefix([tag] + Be64(v), [tag] + Be64(w), bytes);
    assert ([tag] + Be64(v))[1..] == Be64(v) && ([tag] + Be64(w))[1..] == Be64(w);
  }

  lemma StringFieldsDelimit(a: Option<seq<Byte>>, b: Option<seq<Byte>>, bytes: seq<Byte>)
    requires (a.Some? ==> NulFree(a.value)) && (b.Some? ==> NulFree(b.value))
    requires EncString(a) <= bytes && EncString(b) <= bytes
    ensures a == b
  {
    FirstByte(EncString(a), bytes);
    FirstByte(EncString(b), bytes);
    if a.Some? && b.Some? {
      KeysDelimit(a.value, b.value, bytes);
    }
  }

  lemma MapsDelimit(a: seq<Byte>, b: seq<Byte>, bytes: seq<Byte>)
    requires |a| <= MAX_CHANNELS && |b| <= MAX_CHANNELS
    requires EncChannelMap(a) <= bytes && EncChannelMap(b) <= bytes
    ensures a == b
  {
    CountedShape(EncChannelMap(a), bytes);
    CountedShape(EncChannelMap(b), bytes);
    SamePrefix(EncChannelMap(a), EncChannelMap(b), bytes);
    assert EncChannelMap(a)[2..] == a && EncChannelMap(b)[2..] == b;
  }

  lemma VolumesDelimit(a: seq<U32>, b: seq<U32>, bytes: seq<Byte>)
    requires |a| < 256 && |b| < 256 && EncCVolume(a) <= bytes && EncCVolume(b) <= bytes
    ensures |a| == |b| && (a != [] ==> a[0] == b[0])
  {
    CountedShape(EncCVolume(a), bytes);
    CountedShape(EncCVolume(b), bytes);
    if a != [] {
      SamePrefix(EncCVolume(a), EncCVolume(b), bytes);
      assert EncCVolume(a)[2..6] == Be32(a[0]) && EncCVolume(b)[2..6] == Be32(b[0]);
    }
  }

  lemma {:induction false} EntryListsDelimit(a: seq<WireEntry>, b: seq<WireEntry>, bytes: seq<Byte>)
    requires StartsWithEntries(a, bytes) && StartsWithEntries(b, bytes)
    ensures a == b
  {
    FirstByte(EncEntries(a) + [TAG_STRING_NULL], bytes);
    FirstByte(EncEntries(b) + [TAG_STRING_NULL], bytes);
    if a != [] && b != [] {
      Assoc(EncEntry(a[0]), EncEntries(a[1..]), [TAG_STRING_NULL]);
      Assoc(EncEntry(b[0]), EncEntries(b[1..]), [TAG_STRING_NULL]);
      PrefixOfSum(EncEntry(a[0]), EncEntries(a[1..]) + [TAG_STRING_NULL], bytes);
      PrefixOfSum(EncEntry(b[0]), EncEntries(b[1..]) + [TAG_STRING_NULL], bytes);
      EntriesDelimit(a[0], b[0], bytes);
      EntryListsDelimit(a[1..], b[1..], bytes[|EncEntry(a[0])|..]);
      assert a == [a[0]] + a[1..] && b == [b[0]] + b[1..];
    }
  }

  lemma ProplistShape(es: seq<WireEntry>, bytes: seq<Byte>)
    requires EntriesOk(es)
    ensures EncProplist(es) <= bytes ==> [TAG_PROPLIST] <= bytes && StartsWithEntries(es, bytes[1..])
  {
    if EncProplist(es) <= bytes {
      Assoc([TAG_PROPLIST], EncEntries(es), [TAG_STRING_NULL]);
      PrefixOfSum([TAG_PROPLIST], EncEntries(es) + [TAG_STRING_NULL], bytes);
    }
  }

  lemma WireLast(entries: seq<(seq<Byte>, seq<Byte>)>)
    requires PropsOk(entries) && entries != []
    ensures var last := |entries| - 1;
            Wire(entries) == Wire(entries[..last])
                             + [WireEntry(entries[last].0, |entries[last].1| + 1, entries[last].1 + [0])]
  {
  }

  lemma ValueComesBack(v: seq<Byte>)
    ensures ValueOf(v + [0]) == v
  {
    assert (v + [0])[..|v|] == v;
  }

  lemma {:induction false} WireMeansMap(entries: seq<(seq<Byte>, seq<Byte>)>)
    requires PropsOk(entries)
    ensures PropsAfter(map[], Wire(entries)) == AsMap(entries)
  {
    if entries != [] {
      var last := |entries| - 1;
      var e := WireEntry(entries[last].0, |entries[last].1| + 1, entries[last].1 + [0]);
      WireLast(entries);
      WireMeansMap(entries[..last]);
      PropsAppend(map[], Wire(entries[..last]), e);
      ValueComesBack(entries[last].1);
    }
  }

  /** A std::map has distinct keys; then the map that comes back holds exactly its entries. */
  lemma {:induction false} DistinctKeysAllComeBack(entries: seq<(seq<Byte>, seq<Byte>)>)
    requires forall i, j :: 0 <= i < j < |entries| ==> entries[i].0 != entries[j].0
    ensures forall i :: 0 <= i < |entries| ==>
              entries[i].0 in AsMap(entries) && AsMap(entries)[entries[i].0] == entries[i].1
    ensures forall k :: k in AsMap(entries) ==> exists i :: 0 <= i < |entries| && entries[i].0 == k
  {
    if entries != [] {
      var last := |entries| - 1;
      var front := entries[..last];
      DistinctKeysAllComeBack(front);
      assert forall i :: 0 <= i < last ==> entries[i] == front[i];
      assert entries[last].0 !in AsMap(front);
      assert AsMap(entries).Keys == AsMap(front).Keys + {entries[last].0};
    }
  }

  /** One field, put by the matching writer call. */
  method Put(w: TagWriter, f: Field)
    requires FieldOk(f)
    modifies w
    ensures w.buf == old(w.buf) + Enc(f)
  {
    match f
    case FU8(v) => w.PutU8(v);
    case FU32(v) => w.PutU32(v);
    case FU64(v) => w.PutU64(v);
    case FS64(v) => w.PutS64(v);
    case FUsec(v) => w.PutUsec(v);
    case FBool(v) => w.PutBool(v);
    case FString(s) => w.PutString(s);
    case FSampleSpec(ss) => w.PutSampleSpec(ss);
    case FChannelMap(positions) => w.PutChannelMap(positions);
    case FCVolume(channels, volume) => w.PutCVolume(channels, volume);
    case FTimeval(sec, frac) => w.PutTimeval(sec, frac);
    case FProplist(entries) => w.PutProplist(entries);
  }

  datatype Kind = KU8 | KU32 | KU64 | KS64 | KUsec | KBool | KString | KSampleSpec | KChannelMap | KCVolume
    | KTimeval | KProplist

  function KindOf(f: Field): Kind
    requires FieldOk(f)
  {
    match f
    case FU8(_) => KU8
    case FU32(_) => KU32
    case FU64(_) => KU64
    case FS64(_) => KS64
    case FUsec(_) => KUsec
    case FBool(_) => KBool
    case FString(_) => KString
    case FSampleSpec(_) => KSampleSpec
    case FChannelMap(_) => KChannelMap
    case FCVolume(_, _) => KCVolume
    case FTimeval(_, _) => KTimeval
    case FProplist(_) => KProplist
  }

  lemma SplitAt(a: seq<Byte>, rest: seq<Byte>, rest': seq<Byte>)
    requires a + rest == a + rest'
    ensures rest == rest'
  {
    assert (a + rest)[|a|..] == rest && (a + rest')[|a|..] == rest';
  }

  // Each getter, when the unread bytes start with the layout of a value: that value comes back.

  method BackU8(r: TagReader, ghost v: Byte, ghost rest: seq<Byte>) returns (ok: bool, w: Byte)
    requires r.Valid() && !r.failed && r.Rest() == EncU8(v) + rest
    modifies r
    ensures ok && w == v && r.Valid() && !r.failed && r.Rest() == rest
  {
    ghost var all := r.Rest();
    assert EncU8(v) <= all;
    ok, w := r.GetU8();
    assert all[1] == EncU8(v)[1] == EncU8(w)[1];
    SplitAt(EncU8(v), r.Rest(), rest);
  }

  method BackU32(r: TagReader, ghost v: U32, ghost rest: seq<Byte>) returns (ok: bool, w: U32)
    requires r.Valid() && !r.failed && r.Rest() == EncU32(v) + rest
    modifies r
    ensures ok && w == v && r.Valid() && !r.failed && r.Rest() == rest
  {
    ghost var all := r.Rest();
    assert EncU32(v) <= all;
    ok, w := r.GetU32();
    WordsDelimit(v, w, all);
    SplitAt(EncU32(v), r.Rest(), rest);
  }

  method BackU64(r: TagReader, ghost v: U64, ghost rest: seq<Byte>) returns (ok: bool, w: U64)
    requires r.Valid() && !r.failed && r.Rest() == EncU64(v) + rest
    modifies r
    ensures ok && w == v && r.Valid() && !r.failed && r.Rest() == rest
  {
    ghost var all := r.Rest();
    assert EncU64(v) <= all;
    ok, w := r.GetU64();
    LongsDelimit(TAG_U64, v, w, all);
    SplitAt(EncU64(v), r.Rest(), rest);
  }

  method BackS64(r: TagReader, ghost v: S64, ghost rest: seq<Byte>) returns (ok: bool, w: S64)
    requires r.Valid() && !r.failed && r.Rest() == EncS64(v) + rest
    modifies r
    ensures ok && w == v && r.Valid() && !r.failed && r.Rest() == rest
  {
    ghost var all := r.Rest();
    assert EncS64(v) <= all;
    ok, w := r.GetS64();
    LongsDelimit(TAG_S64, Unsigned(v), Unsigned(w), all);
    SplitAt(EncS64(v), r.Rest(), rest);
  }

  method BackUsec(r: TagReader, ghost v: U64, ghost rest: seq<Byte>) returns (ok: bool, w: U64)
    requires r.Valid() && !r.failed && r.Rest() == EncUsec(v) + rest
    modifies r
    ensures ok && w == v && r.Valid() && !r.failed && r.Rest() == rest
  {
    ghost var all := r.Rest();
    assert EncUsec(v) <= all;
    ok, w := r.GetUsec();
    LongsDelimit(TAG_USEC, v, w, all);
    SplitAt(EncUsec(v), r.Rest(), rest);
  }

  method BackBool(r: TagReader, ghost v: bool, ghost rest: seq<Byte>) returns (ok: bool, w: bool)
    requires r.Valid() && !r.failed && r.Rest() == EncBool(v) + rest
    modifies r
    ensures ok && w == v && r.Valid() && !r.failed && r.Rest() == rest
  {
    ghost var all := r.Rest();
    assert EncBool(v) <= all;
    ok, w := r.GetBool();
    assert all[0] == EncBool(v)[0] == EncBool(w)[0];
    SplitAt(EncBool(v), r.Rest(), rest);
  }

  method BackString(r: TagReader, ghost v: Option<seq<Byte>>, ghost rest: seq<Byte>) returns (ok: bool, w: Option<seq<Byte>>)
    requires r.Valid() && !r.failed && (v.Some? ==> NulFree(v.value)) && r.Rest() == EncString(v) + rest
    modifies r
    ensures ok && w == v && r.Valid() && !r.failed && r.Rest() == rest
  {
    ghost var all := r.Rest();
    assert EncString(v) <= all;
    ok, w := r.GetString();
    StringFieldsDelimit(v, w, all);
    SplitAt(EncString(v), r.Rest(), rest);
  }

  method BackSpec(r: TagReader, ghost v: SampleSpec, ghost rest: seq<Byte>) returns (ok: bool, w: SampleSpec)
    requires r.Valid() && !r.failed && r.Rest() == EncSampleSpec(v) + rest
    modifies r
    ensures ok && w == v && r.Valid() && !r.failed && r.Rest() == rest
  {
    ghost var all := r.Rest();
    assert EncSampleSpec(v) <= all;
    ok, w := r.GetSampleSpec();
    SpecsDelimit(v, w, all);
    SplitAt(EncSampleSpec(v), r.Rest(), rest);
  }

  method BackMap(r: TagReader, ghost v: seq<Byte>, ghost rest: seq<Byte>) returns (ok: bool, w: seq<Byte>)
    requires r.Valid() && !r.failed && |v| <= MAX_CHANNELS && r.Rest() == EncChannelMap(v) + rest
    modifies r
    ensures ok && w == v && r.Valid() && !r.failed && r.Rest() == rest
  {
    ghost var all := r.Rest();
    assert EncChannelMap(v) <= all;
    ok, w := r.GetChannelMap();
    MapsDelimit(v, w, all);
    SplitAt(EncChannelMap(v), r.Rest(), rest);
  }

  method BackTimeval(r: TagReader, ghost s: U32, ghost u: U32, ghost rest: seq<Byte>)
    returns (ok: bool, sec: U32, usec: U32)
    requires r.Valid() && !r.failed && r.Rest() == EncTimeval(s, u) + rest
    modifies r
    ensures ok && sec == s && usec == u && r.Valid() && !r.failed && r.Rest() == rest
  {
    ghost var all := r.Rest();
    assert EncTimeval(s, u) <= all;
    ok, sec, usec := r.GetTimeval();
    TimevalsDelimit(s, u, sec, usec, all);
    SplitAt(EncTimeval(s, u), r.Rest(), rest);
  }

  method BackVolume(r: TagReader, ghost f: Field, ghost rest: seq<Byte>) returns (ok: bool, g: Field)
    requires f.FCVolume? && r.Valid() && !r.failed && r.Rest() == Enc(f) + rest
    modifies r
    ensures ok && g == Meaning(f) && r.Valid() && !r.failed && r.Rest() == rest
  {
    ghost var all, vs := r.Rest(), Repeat(f.channels, f.volume);
    assert EncCVolume(vs) <= all;
    var channels, first;
    ghost var volumes;
    ok, channels, first, volumes := r.GetCVolume();
    g := FCVolume(channels, first);
    assert EncCVolume(volumes) <= all;
    VolumesDelimit(volumes, vs, all);
    SamePrefix(EncCVolume(volumes), EncCVolume(vs), all);
    RepeatAt(f.channels, f.volume);
    SplitAt(Enc(f), r.Rest(), rest);
  }

  lemma {:induction false} RepeatAt(n: nat, v: U32)
    ensures forall i :: 0 <= i < n ==> Repeat(n, v)[i] == v
  {
    if n > 0 {
      RepeatAt(n - 1, v);
    }
  }

  method BackProps(r: TagReader, ghost f: Field, ghost rest: seq<Byte>) returns (ok: bool, g: Field)
    requires f.FProplist? && FieldOk(f) && r.Valid() && !r.failed && r.Rest() == Enc(f) + rest
    modifies r
    ensures ok && g == Meaning(f) && r.Valid() && !r.failed && r.Rest() == rest
  {
    ghost var all, wire := r.Rest(), Wire(f.entries);
    assert EncProplist(wire) <= all;
    ProplistShape(wire, all);
    var props;
    ghost var es;
    ok, props, es := r.GetProplist(map[]);
    g := FProps(props);
    assert EncProplist(es) <= all;
    ProplistShape(es, all);
    EntryListsDelimit(es, wire, all[1..]);
    WireMeansMap(f.entries);
    SplitAt(Enc(f), r.Rest(), rest);
  }

  method Get(r: TagReader, kind: Kind, ghost f: Field, ghost rest: seq<Byte>) returns (ok: bool, g: Field)
    requires FieldOk(f) && KindOf(f) == kind
    requires r.Valid() && !r.failed && r.Rest() == Enc(f) + rest
    modifies r
    ensures ok && g == Meaning(f) && r.Valid() && !r.failed && r.Rest() == rest
  {
    match kind
    case KU8 => var v; ok, v := BackU8(r, f.u8, rest); g := FU8(v);
    case KU32 => var v; ok, v := BackU32(r, f.u32, rest); g := FU32(v);
    case KU64 => var v; ok, v := BackU64(r, f.u64, rest); g := FU64(v);
    case KS64 => var v; ok, v := BackS64(r, f.s64, rest); g := FS64(v);
    case KUsec => var v; ok, v := BackUsec(r, f.usec, rest); g := FUsec(v);
    case KBool => var v; ok, v := BackBool(r, f.b, rest); g := FBool(v);
    case KString => var v; ok, v := BackString(r, f.s, rest); g := FString(v);
    case KSampleSpec => var v; ok, v := BackSpec(r, f.ss, rest); g := FSampleSpec(v);
    case KChannelMap => var v; ok, v := BackMap(r, f.positions, rest); g := FChannelMap(v);
    case KTimeval => var s, u; ok, s, u := BackTimeval(r, f.sec, f.frac, rest); g := FTimeval(s, u);
    case KCVolume => ok, g := BackVolume(r, f, rest);
    case KProplist => ok, g := BackProps(r, f, rest);
  }

  predicate AllOk(fs: seq<Field>) {
    forall f :: f in fs ==> FieldOk(f)
  }

  method WriteAll(fs: seq<Field>) returns (data: seq<Byte>)
    requires AllOk(fs)
    ensures data == EncAll(fs)
  {
    var w := new TagWriter();
    for i := 0 to |fs|
      invariant w.buf + EncAll(fs[i..]) == EncAll(fs)
    {
      Assoc(w.buf, Enc(fs[i]), EncAll(fs[i + 1..]));
      Put(w, fs[i]);
      assert fs[i..][1..] == fs[i + 1..];
    }
    data := w.buf;
  }

  lemma MeantFirst(g: Field, rest: seq<Field>, fs: seq<Field>)
    requires |fs| == |rest| + 1 && AllOk(fs) && g == Meaning(fs[0])
    requires forall i :: 0 <= i < |rest| ==> rest[i] == Meaning(fs[1..][i])
    ensures forall i :: 0 <= i < |fs| ==> ([g] + rest)[i] == Meaning(fs[i])
  {
    assert forall i :: 0 < i < |fs| ==> fs[i] == fs[1..][i - 1];
  }

  /** Reads back one field after the other. */
  method ReadAll(r: TagReader, fs: seq<Field>) returns (got: seq<Field>)
    requires r.Valid() && !r.failed && AllOk(fs) && r.Rest() == EncAll(fs)
    modifies r
    ensures r.Valid() && !r.failed && r.Rest() == [] && |got| == |fs|
    ensures forall i :: 0 <= i < |fs| ==> got[i] == Meaning(fs[i])
    decreases |fs|
  {
    got := [];
    if fs != [] {
      var ok, g := Get(r, KindOf(fs[0]), fs[0], EncAll(fs[1..]));
      var rest := ReadAll(r, fs[1..]);
      MeantFirst(g, rest, fs);
      got := [g] + rest;
    }
  }

  /**
   The tagstruct round trip: whatever was written comes back, field by field, and the reader ends
   exactly at the end of the data.
   */
  method WriteThenRead(fs: seq<Field>) returns (got: seq<Field>, eof: bool)
    requires AllOk(fs)
    ensures eof && |got| == |fs|
    ensures forall i :: 0 <= i < |fs| ==> got[i] == Meaning(fs[i])
    ensures forall i :: 0 <= i < |fs| && !fs[i].FProplist? ==> (got[i] == fs[i] <==> !Lost(fs[i]))
  {
    var data := WriteAll(fs);
    var r := new TagReader(data);
    got := ReadAll(r, fs);
    eof := r.Eof();
  }
}
