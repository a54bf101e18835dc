/**
 PulseAudio's tagstruct serialisation.

 The `Enc…` functions give the layout of one field.  TagWriter appends it; every getter of TagReader is
 proved to be the exact inverse: it succeeds precisely when the unread bytes start with the layout of
 some value of its type, returns that value and leaves what follows it.
 */
module PaWire {
  import opened Bytes
  import opened Sequences

  const INVALID_INDEX: U32 := 0xFFFF_FFFF
  const VOLUME_NORM: U32 := 0x1_0000
  const MAX_CHANNELS: int := 32

  const TAG_STRING: Byte := 116        // 't'
  const TAG_STRING_NULL: Byte := 78    // 'N'
  const TAG_U32: Byte := 76            // 'L'
  const TAG_U8: Byte := 66             // 'B'
  const TAG_U64: Byte := 82            // 'R'
  const TAG_S64: Byte := 114           // 'r'
  const TAG_SAMPLE_SPEC: Byte := 97    // 'a'
  const TAG_ARBITRARY: Byte := 120     // 'x'
  const TAG_BOOLEAN_TRUE: Byte := 49   // '1'
  const TAG_BOOLEAN_FALSE: Byte := 48  // '0'
  const TAG_TIMEVAL: Byte := 84        // 'T'
  const TAG_USEC: Byte := 85           // 'U'
  const TAG_CHANNEL_MAP: Byte := 109   // 'm'
  const TAG_CVOLUME: Byte := 118       // 'v'
  const TAG_PROPLIST: Byte := 80       // 'P'

  // ---- sample specification ----

  const SAMPLE_S24_32BE: Byte := 12

  datatype SampleSpec = SampleSpec(format: Byte, channels: Byte, rate: U32) {

    function FrameSize(): (n: nat)
      ensures n <= 4 * channels
      ensures channels > 0 ==> n >= 1
    {
      var width := match format
        case 0 | 1 | 2 => 1
        case 3 | 4 => 2
        case 9 | 10 => 3
        case _ => 4;
      width * channels
    }

    predicate Valid() {
      0 < channels <= 32 && 0 < rate <= 384000 && format <= SAMPLE_S24_32BE
    }

    /** In 64 bits. */
    function BytesToUsec(bytes: nat): nat {
      if FrameSize() == 0 || rate == 0 then 0 else bytes / FrameSize() * 1000000 % TWO_64 / rate
    }

    function UsecToBytes(usec: nat): nat {
      (usec * rate / 1000000) * FrameSize()
    }
  }

  // ---- layouts ----

  predicate NulFree(s: seq<Byte>) {
    forall i :: 0 <= i < |s| ==> s[i] != 0
  }

  function Unsigned(v: S64): U64 {
    if v < 0 then v + TWO_64 else v
  }

  function EncU8(v: Byte): seq<Byte> { [TAG_U8, v] }
  function EncU32(v: U32): seq<Byte> { [TAG_U32] + Be32(v) }
  function EncU64(v: U64): seq<Byte> { [TAG_U64] + Be64(v) }
  function EncS64(v: S64): seq<Byte> { [TAG_S64] + Be64(Unsigned(v)) }
  function EncUsec(v: U64): seq<Byte> { [TAG_USEC] + Be64(v) }
  function EncBool(v: bool): seq<Byte> { [if v then TAG_BOOLEAN_TRUE else TAG_BOOLEAN_FALSE] }
  function EncTimeval(sec: U32, usec: U32): seq<Byte> { [TAG_TIMEVAL] + Be32(sec) + Be32(usec) }

  function EncString(s: Option<seq<Byte>>): seq<Byte> {
    match s
    case None => [TAG_STRING_NULL]
    case Some(bytes) => [TAG_STRING] + bytes + [0]
  }

  function EncSampleSpec(ss: SampleSpec): seq<Byte> {
    [TAG_SAMPLE_SPEC, ss.format, ss.channels] + Be32(ss.rate)
  }

  function EncChannelMap(map_: seq<Byte>): seq<Byte>
    requires |map_| <= MAX_CHANNELS
  {
    [TAG_CHANNEL_MAP, |map_|] + map_
  }

  function Words(vs: seq<U32>): (b: seq<Byte>)
    ensures |b| == 4 * |vs|
  {
    if vs == [] then [] else Be32(vs[0]) + Words(vs[1..])
  }

  function EncCVolume(vs: seq<U32>): seq<Byte>
    requires |vs| < 256
  {
    [TAG_CVOLUME, |vs|] + Words(vs)
  }

  function Repeat(n: nat, v: U32): (vs: seq<U32>)
    ensures |vs| == n
  {
    if n == 0 then [] else Repeat(n - 1, v) + [v]
  }

  function EncArbitrary(v: seq<Byte>): seq<Byte>
    requires |v| < TWO_32
  {
    [TAG_ARBITRARY] + Be32(|v|) + v
  }

  /** One entry of a proplist on the wire: the key, a redundant length, the value as a blob. */
  datatype WireEntry = WireEntry(key: seq<Byte>, declared: U32, blob: seq<Byte>)

  predicate EntryOk(e: WireEntry) {
    NulFree(e.key) && |e.blob| < TWO_32
  }

  predicate EntriesOk(es: seq<WireEntry>) {
    forall i :: 0 <= i < |es| ==> EntryOk(es[i])
  }

  function EncEntry(e: WireEntry): seq<Byte>
    requires EntryOk(e)
  {
    EncString(Some(e.key)) + EncU32(e.declared) + EncArbitrary(e.blob)
  }

  function EncEntries(es: seq<WireEntry>): seq<Byte>
    requires EntriesOk(es)
  {
    if es == [] then [] else EncEntry(es[0]) + EncEntries(es[1..])
  }

  function EncProplist(es: seq<WireEntry>): seq<Byte>
    requires EntriesOk(es)
  {
    [TAG_PROPLIST] + EncEntries(es) + [TAG_STRING_NULL]
  }

  /** The reader drops one trailing NUL of a value. */
  function ValueOf(blob: seq<Byte>): seq<Byte> {
    if blob != [] && blob[|blob| - 1] == 0 then blob[..|blob| - 1] else blob
  }

  type Props = map<seq<Byte>, seq<Byte>>

  /** What the reader's map holds after these entries, on top of what it held before. */
  function PropsAfter(props: Props, es: seq<WireEntry>): Props
    decreases |es|
  {
    if es == [] then props else PropsAfter(props[es[0].key := ValueOf(es[0].blob)], es[1..])
  }

  /** `bytes` starts with entries and the terminating NULL string. */
  ghost predicate ParsesAsEntries(bytes: seq<Byte>) {
    exists es: seq<WireEntry> :: StartsWithEntries(es, bytes)
  }

  predicate StartsWithEntries(es: seq<WireEntry>, bytes: seq<Byte>) {
    EntriesOk(es) && EncEntries(es) + [TAG_STRING_NULL] <= bytes
  }

  // ---- layouts are self-delimiting ----

  lemma PrefixOfSum(a: seq<Byte>, b: seq<Byte>, bytes: seq<Byte>)
    requires a + b <= bytes
    ensures a <= bytes && b <= bytes[|a|..]
  {
    assert (a + b)[..|a|] == a && (a + b)[|a|..] == b;
    assert bytes[..|a|] == a;
    assert bytes[|a|..][..|b|] == b;
  }

  lemma StringsDelimit(a: seq<Byte>, b: seq<Byte>, bytes: seq<Byte>)
    requires NulFree(a) && NulFree(b) && a + [0] <= bytes && b + [0] <= bytes
    ensures a == b
  {
    assert bytes[|a|] == (a + [0])[|a|] && bytes[|b|] == (b + [0])[|b|];
    assert forall i :: 0 <= i < |a| ==> bytes[i] == (a + [0])[i];
    assert forall i :: 0 <= i < |b| ==> bytes[i] == (b + [0])[i];
    assert bytes[..|a|] == a && bytes[..|b|] == b;
  }

  lemma OneMoreEntry(es: seq<WireEntry>, i: nat)
    requires EntriesOk(es) && i < |es|
    ensures EntriesOk(es[..i]) && EntriesOk(es[..i + 1])
    ensures EncEntries(es[..i + 1]) == EncEntries(es[..i]) + EncEntry(es[i])
  {
    assert es[..i + 1] == es[..i] + [es[i]];
    EntriesAppend(es[..i], es[i]);
  }

  lemma {:induction false} WordsAppend(vs: seq<U32>, v: U32)
    ensures Words(vs + [v]) == Words(vs) + Be32(v)
  {
    if vs == [] {
      assert vs + [v] == [v];
    } else {
      assert (vs + [v])[1..] == vs[1..] + [v];
      WordsAppend(vs[1..], v);
    }
  }

  lemma {:induction false} EntriesAppend(es: seq<WireEntry>, e: WireEntry)
    requires EntriesOk(es) && EntryOk(e)
    ensures EntriesOk(es + [e]) && EncEntries(es + [e]) == EncEntries(es) + EncEntry(e)
  {
    if es == [] {
      assert es + [e] == [e];
    } else {
      assert (es + [e])[1..] == es[1..] + [e];
      EntriesAppend(es[1..], e);
      Assoc(EncEntry(es[0]), EncEntries(es[1..]), EncEntry(e));
    }
  }

  lemma Enclose(a: seq<Byte>, b: seq<Byte>, c: seq<Byte>, d: seq<Byte>)
    ensures ((a + b) + c) + d == a + ((b + c) + d)
  {
  }

  lemma SplitFirst(data: seq<Byte>, off: nat)
    requires off < |data|
    ensures data[off..] == [data[off]] + data[off + 1..]
  {
  }

  lemma ProplistLayout(es: seq<WireEntry>, rest: seq<Byte>)
    requires EntriesOk(es)
    ensures [TAG_PROPLIST] + (EncEntries(es) + ([TAG_STRING_NULL] + rest)) == EncProplist(es) + rest
  {
    Assoc(EncEntries(es), [TAG_STRING_NULL], rest);
    Enclose([], [TAG_PROPLIST], EncEntries(es), [TAG_STRING_NULL]);
    Assoc([TAG_PROPLIST], EncEntries(es) + [TAG_STRING_NULL], rest);
  }

  lemma FirstByte(a: seq<Byte>, bytes: seq<Byte>)
    requires a != []
    ensures a <= bytes ==> bytes != [] && bytes[0] == a[0]
  {
    if a <= bytes {
      assert bytes[..|a|][0] == bytes[0];
    }
  }

  // ---- bytes that do not start with a layout ----

  ghost predicate NoString(bytes: seq<Byte>) {
    forall w: Option<seq<Byte>> :: (w.Some? ==> NulFree(w.value)) ==> !(EncString(w) <= bytes)
  }

  ghost predicate NoChannelMap(bytes: seq<Byte>) {
    forall w: seq<Byte> :: |w| <= MAX_CHANNELS ==> !(EncChannelMap(w) <= bytes)
  }

  ghost predicate NoCVolume(bytes: seq<Byte>) {
    forall w: seq<U32> :: |w| < 256 ==> !(EncCVolume(w) <= bytes)
  }

  ghost predicate NoArbitrary(bytes: seq<Byte>) {
    forall w: seq<Byte> :: |w| < TWO_32 ==> !(EncArbitrary(w) <= bytes)
  }

  lemma StringShape(w: Option<seq<Byte>>, bytes: seq<Byte>)
    requires w.Some? ==> NulFree(w.value)
    ensures EncString(w) <= bytes ==>
              && bytes != [] && bytes[0] == (if w.Some? then TAG_STRING else TAG_STRING_NULL)
              && (w.Some? ==> !NulFree(bytes[1..]))
  {
    if EncString(w) <= bytes {
      FirstByte(EncString(w), bytes);
      if w.Some? {
        var n := |w.value|;
        assert bytes[1..][n] == bytes[1 + n] == EncString(w)[1 + n] == 0;
      }
    }
  }

  lemma StringRefused(bytes: seq<Byte>)
    requires bytes == [] || (bytes[0] != TAG_STRING_NULL && (bytes[0] != TAG_STRING || NulFree(bytes[1..])))
    ensures NoString(bytes)
  {
    forall w: Option<seq<Byte>> | w.Some? ==> NulFree(w.value)
      ensures !(EncString(w) <= bytes)
    {
      StringShape(w, bytes);
    }
  }

  lemma CountedShape(a: seq<Byte>, bytes: seq<Byte>)
    requires |a| >= 2
    ensures a <= bytes ==> |a| <= |bytes| && bytes[0] == a[0] && bytes[1] == a[1]
  {
    if a <= bytes {
      assert bytes[..|a|][0] == bytes[0] && bytes[..|a|][1] == bytes[1];
    }
  }

  lemma ChannelMapRefused(bytes: seq<Byte>)
    requires |bytes| < 2 || bytes[0] != TAG_CHANNEL_MAP || bytes[1] > MAX_CHANNELS || |bytes| < 2 + bytes[1]
    ensures NoChannelMap(bytes)
  {
    forall w: seq<Byte> | |w| <= MAX_CHANNELS
      ensures !(EncChannelMap(w) <= bytes)
    {
      CountedShape(EncChannelMap(w), bytes);
    }
  }

  lemma CVolumeRefused(bytes: seq<Byte>)
    requires |bytes| < 2 || bytes[0] != TAG_CVOLUME || |bytes| < 2 + 4 * bytes[1] as int
    ensures NoCVolume(bytes)
  {
    forall w: seq<U32> | |w| < 256
      ensures !(EncCVolume(w) <= bytes)
    {
      CountedShape(EncCVolume(w), bytes);
    }
  }

  lemma ArbitraryShape(w: seq<Byte>, bytes: seq<Byte>)
    requires |w| < TWO_32
    ensures EncArbitrary(w) <= bytes ==>
              |bytes| >= 5 + |w| && bytes[0] == TAG_ARBITRARY && FromBe32(bytes[1..5]) == |w|
  {
    if EncArbitrary(w) <= bytes {
      FirstByte(EncArbitrary(w), bytes);
      assert EncArbitrary(w)[1..5] == Be32(|w|);
      assert bytes[1..5] == Be32(|w|);
    }
  }

  lemma ArbitraryRefused(bytes: seq<Byte>)
    requires |bytes| < 5 || bytes[0] != TAG_ARBITRARY
    ensures NoArbitrary(bytes)
  {
    forall w: seq<Byte> | |w| < TWO_32
      ensures !(EncArbitrary(w) <= bytes)
    {
      ArbitraryShape(w, bytes);
    }
  }

  lemma ArbitraryCut(len: U32, rest: seq<Byte>)
    requires |rest| < len
    ensures NoArbitrary([TAG_ARBITRARY] + (Be32(len) + rest))
  {
    var bytes := [TAG_ARBITRARY] + (Be32(len) + rest);
    assert bytes[1..5] == Be32(len);
    forall w: seq<Byte> | |w| < TWO_32
      ensures !(EncArbitrary(w) <= bytes)
    {
      ArbitraryShape(w, bytes);
    }
  }

  // ---- proplist entries are self-delimiting ----

  ghost predicate NoU32(bytes: seq<Byte>) {
    forall w: U32 :: !(EncU32(w) <= bytes)
  }

  ghost predicate NoEntry(bytes: seq<Byte>) {
    forall e: WireEntry :: EntryOk(e) ==> !(EncEntry(e) <= bytes)
  }

  /** An entry at the start of `bytes` puts its three parts one after the other. */
  lemma EntryShape(e: WireEntry, bytes: seq<Byte>)
    requires EntryOk(e)
    ensures EncEntry(e) <= bytes ==>
              && EncString(Some(e.key)) <= bytes
              && var after := bytes[|EncString(Some(e.key))|..];
              && EncU32(e.declared) <= after
              && EncArbitrary(e.blob) <= after[5..]
  {
    var a, b, c := EncString(Some(e.key)), EncU32(e.declared), EncArbitrary(e.blob);
    if EncEntry(e) <= bytes {
      Assoc(a, b, c);
      PrefixOfSum(a, b + c, bytes);
      PrefixOfSum(b, c, bytes[|a|..]);
    }
  }

  lemma KeysDelimit(a: seq<Byte>, b: seq<Byte>, bytes: seq<Byte>)
    requires NulFree(a) && NulFree(b)
    requires EncString(Some(a)) <= bytes && EncString(Some(b)) <= bytes
    ensures a == b
  {
    Assoc([TAG_STRING], a, [0]);
    Assoc([TAG_STRING], b, [0]);
    PrefixOfSum([TAG_STRING], a + [0], bytes);
    PrefixOfSum([TAG_STRING], b + [0], bytes);
    StringsDelimit(a, b, bytes[1..]);
  }

  lemma WordsDelimit(v: U32, w: U32, bytes: seq<Byte>)
    requires EncU32(v) <= bytes && EncU32(w) <= bytes
    ensures v == w
  {
    assert bytes[..5] == EncU32(v) == EncU32(w);
    assert EncU32(v)[1..] == Be32(v) && EncU32(w)[1..] == Be32(w);
  }

  lemma BlobsDelimit(v: seq<Byte>, w: seq<Byte>, bytes: seq<Byte>)
    requires |v| < TWO_32 && |w| < TWO_32 && EncArbitrary(v) <= bytes && EncArbitrary(w) <= bytes
    ensures v == w
  {
    ArbitraryShape(v, bytes);
    ArbitraryShape(w, bytes);
    assert bytes[..5 + |v|][5..] == EncArbitrary(v)[5..] == v;
    assert bytes[..5 + |w|][5..] == EncArbitrary(w)[5..] == w;
  }

  lemma EntriesDelimit(d: WireEntry, e: WireEntry, bytes: seq<Byte>)
    requires EntryOk(d) && EntryOk(e) && EncEntry(d) <= bytes && EncEntry(e) <= bytes
    ensures d == e
  {
    EntryShape(d, bytes);
    EntryShape(e, bytes);
    KeysDelimit(d.key, e.key, bytes);
    var after := bytes[|EncString(Some(d.key))|..];
    WordsDelimit(d.declared, e.declared, after);
    BlobsDelimit(d.blob, e.blob, after[5..]);
  }

  lemma NoEntryWithoutKey(bytes: seq<Byte>)
    requires NoString(bytes)
    ensures NoEntry(bytes)
  {
    forall e: WireEntry | EntryOk(e)
      ensures !(EncEntry(e) <= bytes)
    {
      EntryShape(e, bytes);
    }
  }

  lemma NoEntryAfterKey(key: seq<Byte>, after: seq<Byte>, bytes: seq<Byte>)
    requires NulFree(key) && bytes == EncString(Some(key)) + after
    requires NoU32(after) || (|after| >= 5 && NoArbitrary(after[5..]))
    ensures NoEntry(bytes)
  {
    assert EncString(Some(key)) <= bytes && bytes[|EncString(Some(key))|..] == after;
    forall e: WireEntry | EntryOk(e)
      ensures !(EncEntry(e) <= bytes)
    {
      EntryShape(e, bytes);
      if EncString(Some(e.key)) <= bytes {
        KeysDelimit(key, e.key, bytes);
      }
    }
  }

  lemma EntriesNeedOne(bytes: seq<Byte>)
    requires bytes == [] || (bytes[0] != TAG_STRING_NULL && NoEntry(bytes))
    ensures !ParsesAsEntries(bytes)
  {
    forall es: seq<WireEntry> | EntriesOk(es)
      ensures !StartsWithEntries(es, bytes)
    {
      FirstByte(EncEntries(es) + [TAG_STRING_NULL], bytes);
      if es != [] && EncEntries(es) + [TAG_STRING_NULL] <= bytes {
        Assoc(EncEntry(es[0]), EncEntries(es[1..]), [TAG_STRING_NULL]);
        PrefixOfSum(EncEntry(es[0]), EncEntries(es[1..]) + [TAG_STRING_NULL], bytes);
      }
    }
  }

  lemma EntriesAfterOne(e: WireEntry, after: seq<Byte>)
    requires EntryOk(e) && ParsesAsEntries(EncEntry(e) + after)
    ensures ParsesAsEntries(after)
  {
    var bytes := EncEntry(e) + after;
    var es: seq<WireEntry> :| StartsWithEntries(es, bytes);
    assert EncEntry(e) <= bytes && bytes[|EncEntry(e)|..] == after;
    FirstByte(EncEntries(es) + [TAG_STRING_NULL], bytes);
    assert es != [];
    Assoc(EncEntry(es[0]), EncEntries(es[1..]), [TAG_STRING_NULL]);
    PrefixOfSum(EncEntry(es[0]), EncEntries(es[1..]) + [TAG_STRING_NULL], bytes);
    EntriesDelimit(e, es[0], bytes);
    assert StartsWithEntries(es[1..], after);
  }

  /** Reading one more entry: it is appended to what was read, and the rest still parses if it did. */
  lemma ReadOneMore(start: seq<Byte>, es: seq<WireEntry>, e: WireEntry, after: seq<Byte>)
    requires EntriesOk(es) && EntryOk(e) && start == EncEntries(es) + (EncEntry(e) + after)
    ensures EntriesOk(es + [e]) && start == EncEntries(es + [e]) + after
    ensures ParsesAsEntries(EncEntry(e) + after) ==> ParsesAsEntries(after)
  {
    EntriesAppend(es, e);
    Assoc(EncEntries(es), EncEntry(e), after);
    if ParsesAsEntries(EncEntry(e) + after) {
      EntriesAfterOne(e, after);
    }
  }

  lemma {:induction false} PropsAppend(props: Props, es: seq<WireEntry>, e: WireEntry)
    ensures PropsAfter(props, es + [e]) == PropsAfter(props, es)[e.key := ValueOf(e.blob)]
    decreases |es|
  {
    if es == [] {
      assert es + [e] == [e];
      assert PropsAfter(props, [e]) == PropsAfter(props[e.key := ValueOf(e.blob)], [e][1..]);
    } else {
      assert (es + [e])[0] == es[0] && (es + [e])[1..] == es[1..] + [e];
      PropsAppend(props[es[0].key := ValueOf(es[0].blob)], es[1..], e);
    }
  }
}
