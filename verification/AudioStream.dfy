/** One playback stream of the server: the attributes it settles on, and the handlers that spend and grant credit. */
module AudioStream {
  import opened Arithmetic
  import opened Bytes
  import opened PaWire
  import opened TagWriting
  import opened Framing
  import opened Sequences
  import opened SinkSpec
  import opened OhosSinks
  import Credit = CreditProtocol

  const DEFAULT_MAXLENGTH_USEC: nat := 2000000
  const DEFAULT_TLENGTH_USEC: nat := 200000
  const COMMAND_REPLY: U32 := 2
  const COMMAND_REQUEST: U32 := 61
  const COMMAND_OVERFLOW: U32 := 62
  const COMMAND_UNDERFLOW: U32 := 63
  const COMMAND_STARTED: U32 := 86
  const CHANNEL_COMMAND: U32 := 0xFFFF_FFFF

  type Attr = Credit.Attr

  function Clamp(v: int, low: int, high: int): int {
    Min(Max(v, low), high)
  }

  predicate Unset(v: U32) {
    v == INVALID_INDEX || v == 0
  }

  /** The numbers HandleCreatePlayback answers with, from the ones the client asked for. */
  function Normalise(ss: SampleSpec, asked: Attr): Attr {
    Settle(ss.FrameSize(), ss.UsecToBytes(DEFAULT_MAXLENGTH_USEC), ss.UsecToBytes(DEFAULT_TLENGTH_USEC), asked)
  }

  /** The same with the frame size and the defaults given. */
  function Settle(frame: nat, defaultMax: nat, defaultTarget: nat, asked: Attr): Attr {
    var max0 := if Unset(asked.maxlength) then defaultMax % TWO_32 else asked.maxlength;
    var maxlength := Clamp(max0, frame, ABSOLUTE_MAX_BUFFER) % TWO_32;
    var t0 := if Unset(asked.tlength) then defaultTarget % TWO_32 else asked.tlength;
    var tlength := Clamp(t0, frame, maxlength) % TWO_32;
    var min0 := if Unset(asked.minreq) then tlength / 4 else asked.minreq;
    var minreq := Clamp(min0, frame, tlength) % TWO_32;
    var pre0 := if asked.prebuf == INVALID_INDEX then tlength else asked.prebuf;
    Credit.Attr(maxlength, tlength, Min(pre0, tlength), minreq)
  }

  /** Casting back to 32 bits does nothing to a clamped number. */
  lemma ClampFits(v: int, low: nat, high: nat)
    requires low <= high <= ABSOLUTE_MAX_BUFFER
    ensures low <= Clamp(v, low, high) % TWO_32 == Clamp(v, low, high) <= high
  {
  }

  lemma SettleIsSane(frame: nat, defaultMax: nat, defaultTarget: nat, asked: Attr)
    requires 1 <= frame <= ABSOLUTE_MAX_BUFFER
    ensures var a := Settle(frame, defaultMax, defaultTarget, asked);
            Credit.Sane(a) && frame <= a.minreq
  {
    var max0 := if Unset(asked.maxlength) then defaultMax % TWO_32 else asked.maxlength;
    var t0 := if Unset(asked.tlength) then defaultTarget % TWO_32 else asked.tlength;
    ClampFits(max0, frame, ABSOLUTE_MAX_BUFFER);
    var maxlength := Clamp(max0, frame, ABSOLUTE_MAX_BUFFER);
    ClampFits(t0, frame, maxlength);
    var tlength := Clamp(t0, frame, maxlength);
    ClampFits(if Unset(asked.minreq) then tlength / 4 else asked.minreq, frame, tlength);
  }

  /**
   For every request and every valid sample specification the result is what the flow control needs:
   a whole frame at least, minreq <= tlength <= maxlength <= 16 MiB.
   */
  lemma NormaliseIsSane(ss: SampleSpec, asked: Attr)
    requires ss.Valid()
    ensures Credit.Sane(Normalise(ss, asked)) && ss.FrameSize() <= Normalise(ss, asked).minreq
  {
    SettleIsSane(ss.FrameSize(), ss.UsecToBytes(DEFAULT_MAXLENGTH_USEC), ss.UsecToBytes(DEFAULT_TLENGTH_USEC), asked);
  }

  /** Numbers that already fit together are kept. */
  lemma NormaliseKeepsGoodRequests(ss: SampleSpec, asked: Attr)
    requires ss.Valid() && Credit.Sane(asked) && ss.FrameSize() <= asked.minreq
    ensures Normalise(ss, asked) == asked
  {
    ClampFits(asked.maxlength, ss.FrameSize(), ABSOLUTE_MAX_BUFFER);
    ClampFits(asked.tlength, ss.FrameSize(), asked.maxlength);
    ClampFits(asked.minreq, ss.FrameSize(), asked.tlength);
  }

  /** The defaults, in whole frames: 200 milliseconds for the target, two seconds for the ring, and a quarter of the
      target for a request; each is cut to what the others allow. */
  lemma UnsetMeans(ss: SampleSpec, asked: Attr)
    requires ss.Valid()
    ensures var a, frame, rate := Normalise(ss, asked), ss.FrameSize(), ss.rate;
            && (Unset(asked.maxlength) ==> a.maxlength == Min(2 * rate * frame, ABSOLUTE_MAX_BUFFER))
            && (Unset(asked.tlength) ==> a.tlength == Clamp(rate / 5 * frame, frame, a.maxlength))
            && (Unset(asked.minreq) ==> a.minreq == Clamp(a.tlength / 4, frame, a.tlength))
            && (asked.prebuf == INVALID_INDEX ==> a.prebuf == a.tlength)
  {
    var frame, rate := ss.FrameSize(), ss.rate;
    NormaliseIsSane(ss, asked);
    assert DEFAULT_TLENGTH_USEC * rate / 1000000 == rate / 5;
    assert DEFAULT_MAXLENGTH_USEC * rate / 1000000 == 2 * rate;
    Product(rate / 5, 76800, frame);
    Product(2 * rate, 768000, frame);
    Mono(1, 2 * rate, frame);
    SettledTo(frame, 2 * rate * frame, rate / 5 * frame, asked);
  }

  lemma Product(n: nat, most: nat, frame: nat)
    requires n <= most <= 768000 && frame <= 128
    ensures 0 <= n * frame <= most * 128 < TWO_32
  {
    Mono(n, most, frame);
    Mono(frame, 128, most);
  }

  lemma SettledTo(frame: nat, defaultMax: nat, defaultTarget: nat, asked: Attr)
    requires 1 <= frame <= 128 && frame <= defaultMax < TWO_32 && defaultTarget < TWO_32
    ensures var a := Settle(frame, defaultMax, defaultTarget, asked);
            && (Unset(asked.maxlength) ==> a.maxlength == Min(defaultMax, ABSOLUTE_MAX_BUFFER))
            && (Unset(asked.tlength) ==> a.tlength == Clamp(defaultTarget, frame, a.maxlength))
            && (Unset(asked.minreq) ==> a.minreq == Clamp(a.tlength / 4, frame, a.tlength))
            && (asked.prebuf == INVALID_INDEX ==> a.prebuf == a.tlength)
  {
    SettleIsSane(frame, defaultMax, defaultTarget, asked);
  }

  /** A stream's account after a look at the ring: what is outstanding, and what a REQUEST grants if one goes out. */
  datatype Account = Account(outstanding: int, granted: Option<U32>)

  function Regrant(a: Attr, buffered: nat, outstanding: int): Account {
    if Credit.Asks(a, buffered, outstanding) then
      var owed := Credit.Owed(a, buffered, outstanding);
      Account(outstanding + owed, Some(Credit.RequestField(owed)))
    else
      Account(outstanding, None)
  }

  /** The handlers below, without interference, are the steps of CreditProtocol. */
  lemma RegrantIsObserveAndDecide(s: Credit.State)
    requires s.loop.Observing?
    ensures var t := Credit.Apply(Credit.Apply(s, Credit.Observe), Credit.Decide);
            var r := Regrant(s.attr, s.fill, s.outstanding);
            && t.outstanding == r.outstanding && t.fill == s.fill && t.loop.Idle?
            && t.down == (if r.granted.Some? then s.down + [r.granted.value] else s.down)
  {
  }

  lemma DataIsDebitAndPush(s: Credit.State, sink: Sink, data: seq<Byte>)
    requires s.loop.Idle? && s.up != [] && s.up[0] == Credit.Data(|data|)
    requires s.attr.maxlength == sink.size > 0 && !sink.quit && |sink.queue| == s.fill <= sink.size
    ensures var t := Credit.Apply(Credit.Apply(s, Credit.Receive), Credit.Push);
            && t.outstanding == s.outstanding - |data| && t.loop.Observing?
            && t.fill == |SinkSpec.Push(sink, data).queue|
            && t.dropped == s.dropped + |data| - Accepted(sink, data)
  {
  }

  /** Server-to-client notifications are a run of u32 fields: command, tag -1, stream, arguments. */
  function Numbers(vs: seq<U32>): (b: seq<Byte>)
    ensures |b| == 5 * |vs|
  {
    if vs == [] then [] else Numbers(vs[..|vs| - 1]) + EncU32(vs[|vs| - 1])
  }

  function RequestCommand(channel: U32, n: U32): Packet {
    Command(Numbers([COMMAND_REQUEST, INVALID_INDEX, channel, n]))
  }

  function Command(payload: seq<Byte>): Packet {
    Packet(CHANNEL_COMMAND, 0, 0, payload)
  }

  /** A notification about a stream, with an index if there is one to tell. */
  function Event(command: U32, channel: U32, at: Option<S64>): Packet {
    Command(Numbers([command, INVALID_INDEX, channel]) + if at.Some? then EncS64(at.value) else [])
  }

  function Ack(tag: U32): Packet {
    Command(Numbers([COMMAND_REPLY, tag]))
  }

  /** An unsigned index as the signed field carries it. */
  function AsSigned(n: nat): S64 {
    (n + 0x8000_0000_0000_0000) % TWO_64 - 0x8000_0000_0000_0000
  }

  /** The REQUEST that tells the client about a grant, if there is one. */
  function Requests(channel: U32, granted: Option<U32>): seq<Packet> {
    if granted.Some? then [RequestCommand(channel, granted.value)] else []
  }

  /** What PumpSinks tells the client about the events of a stream. */
  function Notices(ev: Events, channel: U32, version: nat, readIndex: nat, drain: Option<U32>): seq<Packet> {
    (if ev.started then [Event(COMMAND_STARTED, channel, None)] else [])
    + (if ev.underflow then
         [Event(COMMAND_UNDERFLOW, channel, if version >= 23 then Some(AsSigned(readIndex)) else None)]
       else [])
    + (if ev.drained && drain.Some? then [Ack(drain.value)] else [])
  }

  method NumbersBytes(vs: seq<U32>) returns (payload: seq<Byte>)
    ensures payload == Numbers(vs)
  {
    var t := new TagWriter();
    for i := 0 to |vs|
      invariant t.buf == Numbers(vs[..i])
    {
      t.PutU32(vs[i]);
      assert vs[..i + 1][..i] == vs[..i];
    }
    assert vs[..|vs|] == vs;
    payload := t.buf;
  }

  method SendNumbers(c: Connection, vs: seq<U32>)
    requires c.Valid() && |vs| <= 4
    modifies c`output, c`sent
    ensures c.Valid() && c.sent == old(c.sent) + [Command(Numbers(vs))]
  {
    var payload := NumbersBytes(vs);
    c.Send(CHANNEL_COMMAND, payload, 0);
  }

  method SendEvent(c: Connection, command: U32, channel: U32, at: Option<S64>)
    requires c.Valid()
    modifies c`output, c`sent
    ensures c.Valid() && c.sent == old(c.sent) + [Event(command, channel, at)]
  {
    var t := new TagWriter();
    var head := NumbersBytes([command, INVALID_INDEX, channel]);
    t.buf := head;
    if at.Some? {
      t.PutS64(at.value);
    }
    assert t.buf == Numbers([command, INVALID_INDEX, channel]) + if at.Some? then EncS64(at.value) else [];
    c.Send(CHANNEL_COMMAND, t.buf, 0);
  }

  method EventIf(c: Connection, due: bool, command: U32, channel: U32, at: Option<S64>)
    requires c.Valid()
    modifies c`output, c`sent
    ensures c.Valid() && c.sent == old(c.sent) + if due then [Event(command, channel, at)] else []
  {
    if due {
      SendEvent(c, command, channel, at);
    }
  }

  method SendSimpleAck(c: Connection, tag: U32)
    requires c.Valid()
    modifies c`output, c`sent
    ensures c.Valid() && c.sent == old(c.sent) + [Ack(tag)]
  {
    SendNumbers(c, [COMMAND_REPLY, tag]);
  }

  class Stream {
    const channel: U32
    const ss: SampleSpec
    const attr: Attr
    const sink: OhosSink
    var outstanding: int
    var writeIndex: nat
    var playingFor: nat     // in microseconds
    var underrunFor: nat
    var drainPending: bool
    var drainTag: U32

    ghost predicate Valid()
      reads this, sink
    {
      sink.Valid() && Credit.Sane(attr) && sink.ring.Length == attr.maxlength && !sink.quit
    }

    /** After HandleCreatePlayback: an open sink, corked as the client asked, and a grant of tlength. */
    constructor (channel: U32, ss: SampleSpec, asked: Attr, corked: bool)
      requires ss.Valid()
      ensures Valid() && fresh(sink) && fresh(sink.ring)
      ensures this.channel == channel && this.ss == ss && attr == Normalise(ss, asked)
      ensures sink.View() == SinkSpec.SetCorked(Opened(attr.maxlength), corked)
      ensures outstanding == attr.tlength && writeIndex == 0 && !drainPending && playingFor == 0 && underrunFor == 0
    {
      NormaliseIsSane(ss, asked);
      this.channel, this.ss := channel, ss;
      var a := Normalise(ss, asked);
      attr := a;
      var s := new OhosSink(a.maxlength);
      s.SetCorked(corked);
      sink := s;
      outstanding, writeIndex, drainPending, drainTag := a.tlength, 0, false, 0;
      playingFor, underrunFor := 0, 0;
    }

    method MaybeRequest(c: Connection)
      requires Valid() && c.Valid()
      modifies this`outstanding, c`output, c`sent
      ensures Valid() && c.Valid()
      ensures var r := Regrant(attr, |sink.View().queue|, old(outstanding));
              outstanding == r.outstanding && c.sent == old(c.sent) + Requests(channel, r.granted)
    {
      var buffered := sink.Buffered();
      var owed := attr.tlength - buffered - outstanding;
      if owed < attr.minreq {
        return;
      }
      outstanding := outstanding + owed;
      SendNumbers(c, [COMMAND_REQUEST, INVALID_INDEX, channel, owed % TWO_32]);
    }

    /** Straight subtraction: the account may go negative. */
    method Debit(data: seq<Byte>) returns (accepted: nat)
      requires Valid()
      modifies this`outstanding, this`writeIndex, sink`fill, sink.ring
      ensures Valid() && writeIndex == old(writeIndex) + |data| && outstanding == old(outstanding) - |data|
      ensures sink.View() == SinkSpec.Push(old(sink.View()), data) && accepted == Accepted(old(sink.View()), data)
    {
      writeIndex := writeIndex + |data|;
      outstanding := outstanding - |data|;
      accepted := sink.Push(data);
    }

    /** A data packet for this stream. */
    method HandleStreamData(c: Connection, data: seq<Byte>)
      requires Valid() && c.Valid()
      modifies this`outstanding, this`writeIndex, sink`fill, sink.ring, c`output, c`sent
      ensures Valid() && c.Valid() && writeIndex == old(writeIndex) + |data|
      ensures sink.View() == SinkSpec.Push(old(sink.View()), data)
      ensures var r := Regrant(attr, |sink.View().queue|, old(outstanding) - |data|);
              var full := Accepted(old(sink.View()), data) < |data|;
              && outstanding == r.outstanding
              && c.sent == old(c.sent) + (if full then [Event(COMMAND_OVERFLOW, channel, None)] else [])
                           + Requests(channel, r.granted)
    {
      var accepted := Debit(data);
      EventIf(c, accepted < |data|, COMMAND_OVERFLOW, channel, None);
      MaybeRequest(c);
    }

    /** FLUSH_PLAYBACK_STREAM: what was buffered is dropped, what was granted is not taken back. */
    method HandleFlush(c: Connection, tag: U32)
      requires Valid() && c.Valid()
      modifies this`outstanding, sink, c`output, c`sent
      ensures Valid() && c.Valid() && sink.View() == SinkSpec.Flush(old(sink.View()))
      ensures var r := Regrant(attr, 0, old(outstanding));
              outstanding == r.outstanding && c.sent == old(c.sent) + [Ack(tag)] + Requests(channel, r.granted)
    {
      sink.Flush();
      SendSimpleAck(c, tag);
      MaybeRequest(c);
    }

    /** CORK_PLAYBACK_STREAM: neither the ring nor the credit changes. */
    method HandleCork(c: Connection, on: bool, tag: U32)
      requires Valid() && c.Valid()
      modifies this`outstanding, sink`corked, c`output, c`sent
      ensures Valid() && c.Valid() && sink.View() == SinkSpec.SetCorked(old(sink.View()), on)
      ensures var r := Regrant(attr, |old(sink.View()).queue|, old(outstanding));
              outstanding == r.outstanding && c.sent == old(c.sent) + [Ack(tag)] + Requests(channel, r.granted)
    {
      sink.SetCorked(on);
      SendSimpleAck(c, tag);
      MaybeRequest(c);
    }

    /** DRAIN_PLAYBACK_STREAM: nothing is answered until the sink has drained. */
    method HandleDrain(tag: U32)
      requires Valid()
      modifies this`drainPending, this`drainTag, sink`drainRequested
      ensures Valid() && Draining() == Some(tag) && sink.View() == SinkSpec.RequestDrain(old(sink.View()))
    {
      drainPending, drainTag := true, tag;
      sink.RequestDrain();
    }

    /** The drain request that has not been answered. */
    function Draining(): Option<U32>
      reads this
    {
      if drainPending then Some(drainTag) else None
    }

    method AckDrain(c: Connection, drained: bool)
      requires c.Valid()
      modifies this`drainPending, c`output, c`sent
      ensures c.Valid() && Draining() == (if drained then None else old(Draining()))
      ensures c.sent == old(c.sent) + if drained && old(Draining()).Some? then [Ack(old(Draining()).value)] else []
    {
      if drained && drainPending {
        drainPending := false;
        SendSimpleAck(c, drainTag);
      }
    }

    /** The notifications of one pump; a drain is acknowledged once. */
    method Notify(c: Connection, ev: Events, version: nat)
      requires c.Valid()
      modifies this`drainPending, c`output, c`sent
      ensures c.Valid() && Draining() == (if ev.drained then None else old(Draining()))
      ensures c.sent == old(c.sent) + Notices(ev, channel, version, sink.readIndex, old(Draining()))
    {
      ghost var before, drain := c.sent, Draining();
      var at := if version >= 23 then Some(AsSigned(sink.readIndex)) else None;
      EventIf(c, ev.started, COMMAND_STARTED, channel, None);
      EventIf(c, ev.underflow, COMMAND_UNDERFLOW, channel, at);
      AckDrain(c, ev.drained);
      ghost var a := if ev.started then [Event(COMMAND_STARTED, channel, None)] else [];
      ghost var b := if ev.underflow then [Event(COMMAND_UNDERFLOW, channel, at)] else [];
      ghost var d := if ev.drained && drain.Some? then [Ack(drain.value)] else [];
      assert c.sent == before + a + b + d;
      Assoc(before, a, b);
      Assoc(before, a + b, d);
    }

    /** What the latency replies report: how long the stream has played, and how often it ran dry. */
    method Tally(ev: Events)
      modifies this`playingFor, this`underrunFor
      ensures playingFor == (old(playingFor) + ss.BytesToUsec(ev.credit)) % TWO_64
      ensures underrunFor == (old(underrunFor) + if ev.underflow then 1 else 0) % TWO_64
    {
      playingFor := (playingFor + ss.BytesToUsec(ev.credit)) % TWO_64;
      underrunFor := (underrunFor + if ev.underflow then 1 else 0) % TWO_64;
    }

    /** The events since the last pump, counted and passed on. */
    method PassOn(c: Connection, version: nat) returns (ev: Events)
      requires Valid() && c.Valid()
      modifies this`drainPending, this`playingFor, this`underrunFor, sink`pending, c`output, c`sent
      ensures Valid() && c.Valid() && ev == old(sink.pending)
      ensures sink.View() == SinkSpec.TakeEvents(old(sink.View()))
      ensures Draining() == if ev.drained then None else old(Draining())
      ensures playingFor == (old(playingFor) + ss.BytesToUsec(ev.credit)) % TWO_64
      ensures underrunFor == (old(underrunFor) + if ev.underflow then 1 else 0) % TWO_64
      ensures c.sent == old(c.sent) + Notices(ev, channel, version, sink.readIndex, old(Draining()))
    {
      ev := sink.TakeEvents();
      Tally(ev);
      Notify(c, ev, version);
    }

    /** What PumpSinks does for this stream: pass the events on, then look at the ring. */
    method Pump(c: Connection, version: nat) returns (ev: Events)
      requires Valid() && c.Valid()
      modifies this`outstanding, this`drainPending, this`playingFor, this`underrunFor, sink`pending, c`output, c`sent
      ensures Valid() && c.Valid() && ev == old(sink.pending)
      ensures sink.View() == SinkSpec.TakeEvents(old(sink.View()))
      ensures Draining() == if ev.drained then None else old(Draining())
      ensures playingFor == (old(playingFor) + ss.BytesToUsec(ev.credit)) % TWO_64
      ensures underrunFor == (old(underrunFor) + if ev.underflow then 1 else 0) % TWO_64
      ensures var r := Regrant(attr, |sink.View().queue|, old(outstanding));
              && outstanding == r.outstanding
              && c.sent == old(c.sent) + Notices(ev, channel, version, sink.readIndex, old(Draining()))
                           + Requests(channel, r.granted)
    {
      ev := PassOn(c, version);
      MaybeRequest(c);
    }
  }
}
