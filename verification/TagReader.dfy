/** TagReader: the inverse of the layouts, on arbitrary bytes. */
module TagReading {
  import opened Bytes
  import opened PaWire
  import opened Sequences

  class TagReader {
    const data: seq<Byte>
    var off: nat
    var failed: bool

    constructor (data: seq<Byte>)
      ensures this.data == data && off == 0 && !failed && Valid() && Rest() == data
    {
      this.data := data;
      off, failed := 0, false;
    }

    predicate Valid()
      reads this
    {
      off <= |data|
    }

    /** The bytes not read yet. */
    function Rest(): (r: seq<Byte>)
      requires Valid()
      reads this
    {
      data[off..]
    }

    /**
     What every getter keeps: the offset stays in range and never goes back, a getter answers false
     exactly when the reader has failed, and a failed reader stays failed and does not move.
     */
    predicate Moved(off0: nat, failed0: bool, ok: bool)
      reads this
    {
      Valid() && off0 <= off && ok == !failed && (failed0 ==> failed && off == off0)
    }

    predicate Eof()
      reads this
    {
      !failed && off == |data|
    }

    method Fail() returns (ok: bool)
      modifies this`failed
      ensures failed && !ok
    {
      failed := true;
      ok := false;
    }

    method Take8() returns (ok: bool, v: Byte)
      requires Valid()
      modifies this
      ensures Moved(old(off), old(failed), ok)
      ensures ok ==> off == old(off) + 1 && old(Rest()) == [v] + Rest()
      ensures !ok && !old(failed) ==> old(Rest()) == []
    {
      v := 0;
      if failed || off + 1 > |data| {
        ok := Fail();
      } else {
        ok, v := true, data[off];
        off := off + 1;
      }
    }

    method Take32() returns (ok: bool, v: U32)
      requires Valid()
      modifies this
      ensures Moved(old(off), old(failed), ok)
      ensures ok ==> off == old(off) + 4 && old(Rest()) == Be32(v) + Rest()
      ensures !ok && !old(failed) ==> |old(Rest())| < 4
    {
      v := 0;
      if failed || off + 4 > |data| {
        ok := Fail();
      } else {
        ok := true;
        FourBytes(data[off], data[off + 1], data[off + 2], data[off + 3]);
        assert data[off..off + 4] == [data[off], data[off + 1], data[off + 2], data[off + 3]];
        Be32Onto(data[off..off + 4]);
        v := Join(Join(Join(data[off], data[off + 1]), data[off + 2]), data[off + 3]);
        off := off + 4;
      }
    }

    method Take64() returns (ok: bool, v: U64)
      requires Valid()
      modifies this
      ensures Moved(old(off), old(failed), ok)
      ensures ok ==> off == old(off) + 8 && old(Rest()) == Be64(v) + Rest()
      ensures !ok && !old(failed) ==> |old(Rest())| < 8
    {
      v := 0;
      var hi, lo;
      ok, hi := Take32();
      if ok {
        ok, lo := Take32();
        if ok {
          v := hi * TWO_32 + lo;
          Halves(hi, lo);
        }
      }
    }

    method Expect(want: Byte) returns (ok: bool)
      requires Valid()
      modifies this
      ensures Moved(old(off), old(failed), ok)
      ensures ok ==> off == old(off) + 1 && old(Rest()) == [want] + Rest()
      ensures !ok && !old(failed) ==> !([want] <= old(Rest()))
    {
      FirstByte([want], Rest());
      var tag;
      ok, tag := Take8();
      if ok && tag != want {
        ok := Fail();
      }
    }

    method GetU8() returns (ok: bool, v: Byte)
      requires Valid()
      modifies this
      ensures Moved(old(off), old(failed), ok)
      ensures ok ==> old(Rest()) == EncU8(v) + Rest()
      ensures !ok && !old(failed) ==> forall w: Byte :: !(EncU8(w) <= old(Rest()))
    {
      v := 0;
      ok := Expect(TAG_U8);
      if ok {
        ok, v := Take8();
      }
    }

    method GetU32() returns (ok: bool, v: U32)
      requires Valid()
      modifies this
      ensures Moved(old(off), old(failed), ok)
      ensures ok ==> old(Rest()) == EncU32(v) + Rest()
      ensures !ok && !old(failed) ==> NoU32(old(Rest()))
    {
      v := 0;
      ok := Expect(TAG_U32);
      if ok {
        ok, v := Take32();
      }
    }

    method GetU64() returns (ok: bool, v: U64)
      requires Valid()
      modifies this
      ensures Moved(old(off), old(failed), ok)
      ensures ok ==> old(Rest()) == EncU64(v) + Rest()
      ensures !ok && !old(failed) ==> forall w: U64 :: !(EncU64(w) <= old(Rest()))
    {
      v := 0;
      ok := Expect(TAG_U64);
      if ok {
        ok, v := Take64();
      }
    }

    method GetS64() returns (ok: bool, v: S64)
      requires Valid()
      modifies this
      ensures Moved(old(off), old(failed), ok)
      ensures ok ==> old(Rest()) == EncS64(v) + Rest()
      ensures !ok && !old(failed) ==> forall w: S64 :: !(EncS64(w) <= old(Rest()))
    {
      v := 0;
      ok := Expect(TAG_S64);
      if ok {
        var u;
        ok, u := Take64();
        if ok {
          v := if u < 0x8000_0000_0000_0000 then u else u - TWO_64;
        }
      }
    }

    method GetUsec() returns (ok: bool, v: U64)
      requires Valid()
      modifies this
      ensures Moved(old(off), old(failed), ok)
      ensures ok ==> old(Rest()) == EncUsec(v) + Rest()
      ensures !ok && !old(failed) ==> forall w: U64 :: !(EncUsec(w) <= old(Rest()))
    {
      v := 0;
      ok := Expect(TAG_USEC);
      if ok {
        ok, v := Take64();
      }
    }

    method GetBool() returns (ok: bool, v: bool)
      requires Valid()
      modifies this
      ensures Moved(old(off), old(failed), ok)
      ensures ok ==> old(Rest()) == EncBool(v) + Rest()
      ensures !ok && !old(failed) ==> forall w: bool :: !(EncBool(w) <= old(Rest()))
    {
      v := false;
      FirstByte(EncBool(true), Rest());
      FirstByte(EncBool(false), Rest());
      var tag;
      ok, tag := Take8();
      if ok {
        if tag == TAG_BOOLEAN_TRUE {
          v := true;
        } else if tag == TAG_BOOLEAN_FALSE {
          v := false;
        } else {
          ok := Fail();
        }
      }
    }

    method GetTimeval() returns (ok: bool, sec: U32, usec: U32)
      requires Valid()
      modifies this
      ensures Moved(old(off), old(failed), ok)
      ensures ok ==> old(Rest()) == EncTimeval(sec, usec) + Rest()
      ensures !ok && !old(failed) ==> forall s: U32, u: U32 :: !(EncTimeval(s, u) <= old(Rest()))
    {
      sec, usec := 0, 0;
      ok := Expect(TAG_TIMEVAL);
      if ok {
        ok, sec := Take32();
        if ok {
          ok, usec := Take32();
        }
      }
    }

    /** What follows the tag of a sample spec: six bytes. */
    method TakeSpec() returns (ok: bool, ss: SampleSpec)
      requires Valid()
      modifies this
      ensures Moved(old(off), old(failed), ok)
      ensures ok ==> off == old(off) + 6 && old(Rest()) == [ss.format, ss.channels] + Be32(ss.rate) + Rest()
      ensures !ok && !old(failed) ==> |old(Rest())| < 6
    {
      ss := SampleSpec(0, 0, 0);
      var format, channels, rate;
      ok, format := Take8();
      if ok {
        ok, channels := Take8();
        if ok {
          ok, rate := Take32();
          if ok {
            ss := SampleSpec(format, channels, rate);
          }
        }
      }
    }

    method GetSampleSpec() returns (ok: bool, ss: SampleSpec)
      requires Valid()
      modifies this
      ensures Moved(old(off), old(failed), ok)
      ensures ok ==> old(Rest()) == EncSampleSpec(ss) + Rest()
      ensures !ok && !old(failed) ==> forall w: SampleSpec :: !(EncSampleSpec(w) <= old(Rest()))
    {
      ss := SampleSpec(0, 0, 0);
      ok := Expect(TAG_SAMPLE_SPEC);
      if ok {
        ok, ss := TakeSpec();
      }
    }

    /** Advances over the bytes before the next NUL and over the NUL; false when there is none. */
    method SkipString() returns (ok: bool, s: seq<Byte>)
      requires Valid() && !failed
      modifies this
      ensures Moved(old(off), false, ok)
      ensures ok ==> NulFree(s) && old(Rest()) == s + [0] + Rest()
      ensures !ok ==> NulFree(old(Rest()))
    {
      var start := off;
      while off < |data| && data[off] != 0
        invariant start <= off <= |data| && !failed
        invariant NulFree(data[start..off])
      {
        assert data[start..off + 1] == data[start..off] + [data[off]];
        off := off + 1;
      }
      s := data[start..off];
      if off >= |data| {
        ok := Fail();
      } else {
        ok, off := true, off + 1;
      }
    }

    method GetString() returns (ok: bool, s: Option<seq<Byte>>)
      requires Valid()
      modifies this
      ensures Moved(old(off), old(failed), ok)
      ensures ok ==> (s.Some? ==> NulFree(s.value)) && old(Rest()) == EncString(s) + Rest()
      ensures !ok && !old(failed) ==> NoString(old(Rest()))
    {
      s := None;
      ghost var all := Rest();
      var tag;
      ok, tag := Take8();
      if ok && tag == TAG_STRING {
        var bytes;
        ok, bytes := SkipString();
        s := Some(bytes);
      } else if ok && tag != TAG_STRING_NULL {
        ok := Fail();
      }
      if !ok && !old(failed) {
        StringRefused(all);
      }
    }

    method GetChannelMap() returns (ok: bool, positions: seq<Byte>)
      requires Valid()
      modifies this
      ensures Moved(old(off), old(failed), ok)
      ensures ok ==> |positions| <= MAX_CHANNELS && old(Rest()) == EncChannelMap(positions) + Rest()
      ensures !ok && !old(failed) ==> NoChannelMap(old(Rest()))
    {
      positions := [];
      ghost var all := Rest();
      var channels := 0;
      ok := Expect(TAG_CHANNEL_MAP);
      if ok {
        ok, channels := Take8();
      }
      if ok && channels > MAX_CHANNELS {
        ok := Fail();
      }
      while ok && |positions| < channels
        invariant Moved(old(off), old(failed), ok) && |positions| <= channels
        invariant ok ==> channels <= MAX_CHANNELS && all == [TAG_CHANNEL_MAP, channels] + positions + Rest()
        invariant !ok && !old(failed) ==>
                    |all| < 2 || all[0] != TAG_CHANNEL_MAP || all[1] > MAX_CHANNELS || |all| < 2 + all[1]
        decreases ok, channels - |positions|
      {
        var v;
        ok, v := Take8();
        if ok {
          positions := positions + [v];
        }
      }
      if !ok && !old(failed) {
        ChannelMapRefused(all);
      }
    }

    /** Reads every channel's volume and keeps the first; no channel reads as VOLUME_NORM. */
    method GetCVolume() returns (ok: bool, channels: Byte, first: U32, ghost volumes: seq<U32>)
      requires Valid()
      modifies this
      ensures Moved(old(off), old(failed), ok)
      ensures ok ==> |volumes| == channels && old(Rest()) == EncCVolume(volumes) + Rest()
      ensures ok ==> first == (if volumes == [] then VOLUME_NORM else volumes[0])
      ensures !ok && !old(failed) ==> NoCVolume(old(Rest()))
    {
      channels, first, volumes := 0, VOLUME_NORM, [];
      ghost var all := Rest();
      ok := Expect(TAG_CVOLUME);
      if ok {
        ok, channels := Take8();
      }
      var i := 0;
      while ok && i < channels
        invariant Moved(old(off), old(failed), ok) && 0 <= i == |volumes| <= channels
        invariant first == if volumes == [] then VOLUME_NORM else volumes[0]
        invariant ok ==> all == [TAG_CVOLUME, channels] + (Words(volumes) + Rest())
        invariant !ok && !old(failed) ==>
                    |all| < 2 || all[0] != TAG_CVOLUME || |all| < 2 + 4 * all[1] as int
        decreases ok, channels - i
      {
        var v;
        ok, v := Take32();
        if ok {
          if i == 0 {
            first := v;
          }
          WordsAppend(volumes, v);
          Assoc(Words(volumes), Be32(v), Rest());
          volumes, i := volumes + [v], i + 1;
        }
      }
      if !ok && !old(failed) {
        CVolumeRefused(all);
      }
    }

    method GetArbitrary() returns (ok: bool, v: seq<Byte>)
      requires Valid()
      modifies this
      ensures Moved(old(off), old(failed), ok)
      ensures ok ==> |v| < TWO_32 && old(Rest()) == EncArbitrary(v) + Rest()
      ensures !ok && !old(failed) ==> NoArbitrary(old(Rest()))
    {
      v := [];
      ghost var all := Rest();
      ok := Expect(TAG_ARBITRARY);
      if !ok {
        if !old(failed) {
          ArbitraryRefused(all);
        }
        return;
      }
      var len;
      ok, len := Take32();
      if !ok {
        ArbitraryRefused(all);
      } else if len > |data| - off {
        ArbitraryCut(len, Rest());
        ok := Fail();
      } else {
        v := data[off..off + len];
        off := off + len;
      }
    }

    /** The body of GetProplist's loop: key, declared length, value. */
    method GetEntry() returns (ok: bool, e: WireEntry)
      requires Valid() && !failed && Rest() != [] && Rest()[0] != TAG_STRING_NULL
      modifies this
      ensures Moved(old(off), old(failed), ok)
      ensures ok ==> off > old(off) && EntryOk(e) && old(Rest()) == EncEntry(e) + Rest()
      ensures !ok ==> NoEntry(old(Rest()))
    {
      e := WireEntry([], 0, []);
      ghost var all := Rest();
      var key;
      ok, key := GetString();
      if !ok {
        NoEntryWithoutKey(all);
        return;
      }
      FirstByte(EncString(key), all);
      ghost var after := Rest();
      var declared, blob;
      ok, declared := GetU32();
      if ok {
        assert after[5..] == Rest();
        ok, blob := GetArbitrary();
      }
      if ok {
        e := WireEntry(key.value, declared, blob);
      } else {
        NoEntryAfterKey(key.value, after, all);
      }
    }

    /** One turn of the loop of GetProplist. */
    method NextEntry(ghost given: Props, props0: Props, ghost es0: seq<WireEntry>, ghost start: seq<Byte>)
      returns (ok: bool, props: Props, ghost es: seq<WireEntry>)
      requires Valid() && !failed && off < |data| && data[off] != TAG_STRING_NULL
      requires EntriesOk(es0) && start == EncEntries(es0) + Rest() && props0 == PropsAfter(given, es0)
      modifies this
      ensures Moved(old(off), false, ok)
      ensures ok ==> && old(off) < off && EntriesOk(es) && start == EncEntries(es) + Rest()
                     && props == PropsAfter(given, es)
                     && (ParsesAsEntries(old(Rest())) ==> ParsesAsEntries(Rest()))
      ensures !ok ==> !ParsesAsEntries(old(Rest()))
    {
      ghost var before := Rest();
      props, es := props0, es0;
      var e;
      ok, e := GetEntry();
      if ok {
        ReadOneMore(start, es, e, Rest());
        PropsAppend(given, es, e);
        props, es := props[e.key := ValueOf(e.blob)], es + [e];
      } else {
        EntriesNeedOne(before);
      }
    }

    /** The loop of GetProplist, after the tag. */
    method GetEntries(given: Props) returns (ok: bool, props: Props, ghost es: seq<WireEntry>)
      requires Valid() && !failed
      modifies this
      ensures Moved(old(off), false, ok)
      ensures ok ==> && EntriesOk(es) && old(Rest()) == EncEntries(es) + ([TAG_STRING_NULL] + Rest())
                     && props == PropsAfter(given, es)
      ensures !ok ==> !ParsesAsEntries(old(Rest()))
    {
      props, es := given, [];
      ghost var start := Rest();
      while off < |data| && data[off] != TAG_STRING_NULL
        invariant Moved(old(off), false, true) && EntriesOk(es)
        invariant start == EncEntries(es) + Rest() && props == PropsAfter(given, es)
        invariant ParsesAsEntries(start) ==> ParsesAsEntries(Rest())
        decreases |data| - off
      {
        ok, props, es := NextEntry(given, props, es, start);
        if !ok {
          return;
        }
      }
      if off >= |data| {
        EntriesNeedOne(Rest());
        ok := Fail();
      } else {
        SplitFirst(data, off);
        ok, off := true, off + 1;
      }
    }

    /** Adds to `given` what the wire holds; the entries come back as a ghost result. */
    method GetProplist(given: Props) returns (ok: bool, props: Props, ghost es: seq<WireEntry>)
      requires Valid()
      modifies this
      ensures Moved(old(off), old(failed), ok)
      ensures ok ==> EntriesOk(es) && old(Rest()) == EncProplist(es) + Rest() && props == PropsAfter(given, es)
      ensures !ok && !old(failed) ==>
                !([TAG_PROPLIST] <= old(Rest())) || !ParsesAsEntries(old(Rest())[1..])
    {
      props, es := given, [];
      ok := Expect(TAG_PROPLIST);
      if ok {
        ok, props, es := GetEntries(given);
        if ok {
          ProplistLayout(es, Rest());
        }
      }
    }
  }
}
