/** TagWriter: appends the layout of one field after another. */
module TagWriting {
  import opened Bytes
  import opened PaWire
  import opened Sequences

  class TagWriter {
    var buf: seq<Byte>

    constructor ()
      ensures buf == []
    {
      buf := [];
    }

    method Raw8(v: Byte)
      modifies this
      ensures buf == old(buf) + [v]
    {
      buf := buf + [v];
    }

    method Raw32(v: U32)
      modifies this
      ensures buf == old(buf) + Be32(v)
    {
      var v1 := v / 0x100;
      var v2 := v1 / 0x100;
      SplitWord(v);
      buf := buf + [v2 / 0x100];
      buf := buf + [v2 % 0x100];
      buf := buf + [v1 % 0x100];
      buf := buf + [v % 0x100];
    }

    method Raw64(v: U64)
      modifies this
      ensures buf == old(buf) + Be64(v)
    {
      Halves(v / TWO_32, v % TWO_32);
      Raw32(v / TWO_32);
      Raw32(v % TWO_32);
    }

    method PutU8(v: Byte)
      modifies this
      ensures buf == old(buf) + EncU8(v)
    {
      Raw8(TAG_U8);
      Raw8(v);
    }

    method PutU32(v: U32)
      modifies this
      ensures buf == old(buf) + EncU32(v)
    {
      Raw8(TAG_U32);
      Raw32(v);
    }

    method PutU64(v: U64)
      modifies this
      ensures buf == old(buf) + EncU64(v)
    {
      Raw8(TAG_U64);
      Raw64(v);
    }

    method PutS64(v: S64)
      modifies this
      ensures buf == old(buf) + EncS64(v)
    {
      Raw8(TAG_S64);
      Raw64(Unsigned(v));
    }

    method PutUsec(v: U64)
      modifies this
      ensures buf == old(buf) + EncUsec(v)
    {
      Raw8(TAG_USEC);
      Raw64(v);
    }

    method PutBool(v: bool)
      modifies this
      ensures buf == old(buf) + EncBool(v)
    {
      Raw8(if v then TAG_BOOLEAN_TRUE else TAG_BOOLEAN_FALSE);
    }

    /** A C string ends at its first NUL; None is the null pointer. */
    method PutString(s: Option<seq<Byte>>)
      requires s.Some? ==> NulFree(s.value)
      modifies this
      ensures buf == old(buf) + EncString(s)
    {
      if s.None? {
        Raw8(TAG_STRING_NULL);
        return;
      }
      Raw8(TAG_STRING);
      buf := buf + s.value + [0];
    }

    method PutSampleSpec(ss: SampleSpec)
      modifies this
      ensures buf == old(buf) + EncSampleSpec(ss)
    {
      Raw8(TAG_SAMPLE_SPEC);
      Raw8(ss.format);
      Raw8(ss.channels);
      Raw32(ss.rate);
    }

    method PutChannelMap(positions: seq<Byte>)
      requires |positions| <= MAX_CHANNELS
      modifies this
      ensures buf == old(buf) + EncChannelMap(positions)
    {
      Raw8(TAG_CHANNEL_MAP);
      Raw8(|positions|);
      ghost var start := buf;
      for i := 0 to |positions|
        invariant buf == start + positions[..i]
      {
        Raw8(positions[i]);
      }
    }

    method PutCVolume(channels: Byte, value: U32)
      modifies this
      ensures buf == old(buf) + EncCVolume(Repeat(channels, value))
    {
      Raw8(TAG_CVOLUME);
      Raw8(channels);
      ghost var start := buf;
      for i := 0 to channels
        invariant buf == start + Words(Repeat(i, value))
      {
        Raw32(value);
        WordsAppend(Repeat(i, value), value);
        Assoc(start, Words(Repeat(i, value)), Be32(value));
      }
    }

    method PutTimeval(sec: U32, usec: U32)
      modifies this
      ensures buf == old(buf) + EncTimeval(sec, usec)
    {
      Raw8(TAG_TIMEVAL);
      Raw32(sec);
      Raw32(usec);
    }

    /** One turn of PutProplist's loop. */
    method PutEntry(key: seq<Byte>, value: seq<Byte>, ghost e: WireEntry)
      requires NulFree(key) && |value| + 1 < TWO_32 && e == WireEntry(key, |value| + 1, value + [0])
      modifies this
      ensures buf == old(buf) + EncEntry(e)
    {
      PutString(Some(key));
      PutU32(|value| + 1);
      Raw8(TAG_ARBITRARY);
      Raw32(|value| + 1);
      buf := buf + value;
      buf := buf + [0];
    }

    method PutEntries(props: seq<(seq<Byte>, seq<Byte>)>)
      requires PropsOk(props)
      modifies this
      ensures buf == old(buf) + EncEntries(Wire(props))
    {
      ghost var wire, start := Wire(props), buf;
      for i := 0 to |props|
        invariant EntriesOk(wire[..i]) && buf == start + EncEntries(wire[..i])
      {
        OneMoreEntry(wire, i);
        ghost var before := EncEntries(wire[..i]);
        PutEntry(props[i].0, props[i].1, wire[i]);
        Assoc(start, before, EncEntry(wire[i]));
      }
      assert wire[..|props|] == wire;
    }

    /** `props` lists the entries of the std::map in its iteration order. */
    method PutProplist(props: seq<(seq<Byte>, seq<Byte>)>)
      requires PropsOk(props)
      modifies this
      ensures buf == old(buf) + EncProplist(Wire(props))
    {
      ghost var start, es := buf, EncEntries(Wire(props));
      Raw8(TAG_PROPLIST);
      PutEntries(props);
      Raw8(TAG_STRING_NULL);
      Enclose(start, [TAG_PROPLIST], es, [TAG_STRING_NULL]);
    }
  }

  predicate PropsOk(props: seq<(seq<Byte>, seq<Byte>)>) {
    forall i :: 0 <= i < |props| ==> NulFree(props[i].0) && |props[i].1| + 1 < TWO_32
  }

  /** What PutProplist puts on the wire for each entry: the value with a NUL, and its length twice. */
  function Wire(props: seq<(seq<Byte>, seq<Byte>)>): (es: seq<WireEntry>)
    requires PropsOk(props)
    ensures |es| == |props| && EntriesOk(es)
    ensures forall i :: 0 <= i < |props| ==>
              es[i] == WireEntry(props[i].0, |props[i].1| + 1, props[i].1 + [0])
  {
    if props == [] then []
    else [WireEntry(props[0].0, |props[0].1| + 1, props[0].1 + [0])] + Wire(props[1..])
  }
}
