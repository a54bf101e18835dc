/**
 The packet layer of the audio socket.  `ParseAll` is the one-shot reference parse of a byte stream;
 Connection.ReadFrom and FlushOut are the loops of the server.
 */
module Framing {
  import opened Bytes
  import opened Sequences

  const DESCRIPTOR_SIZE: int := 20
  const READ_BUFFER: int := 16384

  datatype Packet = Packet(channel: U32, offset: U64, flags: U32, payload: seq<Byte>)

  predicate PacketOk(p: Packet) {
    |p.payload| <= ABSOLUTE_MAX_BUFFER
  }

  function Descriptor(p: Packet): (d: seq<Byte>)
    requires PacketOk(p)
    ensures |d| == DESCRIPTOR_SIZE
  {
    Be32(|p.payload|) + Be32(p.channel) + Be64(p.offset) + Be32(p.flags)
  }

  function Frame(p: Packet): seq<Byte>
    requires PacketOk(p)
  {
    Descriptor(p) + p.payload
  }

  /** What is at the start of the unread bytes. */
  datatype Head = Short | Absurd | Whole(packet: Packet)

  function HeadOf(bytes: seq<Byte>): (h: Head)
    ensures h.Whole? ==> PacketOk(h.packet) && DESCRIPTOR_SIZE + |h.packet.payload| <= |bytes|
  {
    if |bytes| < DESCRIPTOR_SIZE then Short
    else
      var length := FromBe32(bytes[0..4]);
      if length > ABSOLUTE_MAX_BUFFER then Absurd
      else if |bytes| < DESCRIPTOR_SIZE + length then Short
      else Whole(Packet(FromBe32(bytes[4..8]), FromBe64(bytes[8..16]), FromBe32(bytes[16..20]),
                        bytes[DESCRIPTOR_SIZE..DESCRIPTOR_SIZE + length]))
  }

  /** HandlePacket's verdict may depend on everything handled so far. */
  type Handler = (seq<Packet>, Packet) -> bool

  /** The packets handed to the handler, the bytes that wait for more, and whether the connection lives. */
  datatype Parse = Parse(handled: seq<Packet>, rest: seq<Byte>, alive: bool)

  function ParseAll(handled: seq<Packet>, bytes: seq<Byte>, accept: Handler): (r: Parse)
    ensures handled <= r.handled
    decreases |bytes|
  {
    match HeadOf(bytes)
    case Short => Parse(handled, bytes, true)
    case Absurd => Parse(handled, bytes, false)
    case Whole(p) =>
      if accept(handled, p) then ParseAll(handled + [p], bytes[DESCRIPTOR_SIZE + |p.payload|..], accept)
      else Parse(handled + [p], bytes, false)
  }

  // ---- chunking ----

  /** More bytes behind a decided head change nothing about it. */
  lemma HeadIsStable(a: seq<Byte>, b: seq<Byte>)
    ensures !HeadOf(a).Short? ==> HeadOf(a + b) == HeadOf(a)
  {
    if !HeadOf(a).Short? {
      var ab := a + b;
      assert ab[0..4] == a[0..4] && ab[4..8] == a[4..8] && ab[8..16] == a[8..16] && ab[16..20] == a[16..20];
      if HeadOf(a).Whole? {
        var n := DESCRIPTOR_SIZE + |HeadOf(a).packet.payload|;
        assert ab[DESCRIPTOR_SIZE..n] == a[DESCRIPTOR_SIZE..n];
      }
    }
  }

  /** Parsing in two goes, the second one behind what the first one kept, equals parsing once. */
  lemma {:induction false} TwoGoes(handled: seq<Packet>, a: seq<Byte>, b: seq<Byte>, accept: Handler)
    ensures var first := ParseAll(handled, a, accept);
            var both := ParseAll(handled, a + b, accept);
            if first.alive then ParseAll(first.handled, first.rest + b, accept) == both
            else both.handled == first.handled && !both.alive
    decreases |a|
  {
    HeadIsStable(a, b);
    if HeadOf(a).Whole? {
      var p := HeadOf(a).packet;
      var n := DESCRIPTOR_SIZE + |p.payload|;
      if accept(handled, p) {
        assert (a + b)[n..] == a[n..] + b;
        TwoGoes(handled + [p], a[n..], b, accept);
      }
    }
  }

  /** The server's view of a connection over a sequence of reads: each read is parsed behind the rest. */
  function Feed(s: Parse, chunks: seq<seq<Byte>>, accept: Handler): Parse
    decreases |chunks|
  {
    if chunks == [] || !s.alive then s
    else Feed(ParseAll(s.handled, s.rest + chunks[0], accept), chunks[1..], accept)
  }

  /**
   Reassembly is chunking-independent: however the stream is cut into reads, the same packets reach the
   handler as in a one-shot parse of the whole, and a live connection keeps exactly the incomplete suffix.
   */
  lemma {:induction false} ChunkingDoesNotMatter(chunks: seq<seq<Byte>>, accept: Handler)
    ensures var fed := Feed(Parse([], [], true), chunks, accept);
            var once := ParseAll([], Concat(chunks), accept);
            fed.handled == once.handled && fed.alive == once.alive && (once.alive ==> fed.rest == once.rest)
  {
    assert HeadOf([]).Short?;
    FeedFrom([], [], chunks, accept);
    assert [] + Concat(chunks) == Concat(chunks);
  }

  lemma {:induction false} FeedFrom(handled: seq<Packet>, rest: seq<Byte>, chunks: seq<seq<Byte>>, accept: Handler)
    requires HeadOf(rest).Short?
    ensures var fed := Feed(Parse(handled, rest, true), chunks, accept);
            var once := ParseAll(handled, rest + Concat(chunks), accept);
            fed.handled == once.handled && fed.alive == once.alive && (once.alive ==> fed.rest == once.rest)
    decreases |chunks|
  {
    if chunks == [] {
      assert rest + Concat(chunks) == rest;
    } else {
      var bytes, more := rest + chunks[0], Concat(chunks[1..]);
      var first := ParseAll(handled, bytes, accept);
      assert rest + Concat(chunks) == bytes + more;
      TwoGoes(handled, bytes, more, accept);
      if first.alive {
        RestIsShort(handled, bytes, accept);
        FeedFrom(first.handled, first.rest, chunks[1..], accept);
      }
    }
  }

  lemma {:induction false} RestIsShort(handled: seq<Packet>, bytes: seq<Byte>, accept: Handler)
    ensures ParseAll(handled, bytes, accept).alive ==> HeadOf(ParseAll(handled, bytes, accept).rest).Short?
    decreases |bytes|
  {
    if HeadOf(bytes).Whole? {
      var p := HeadOf(bytes).packet;
      RestIsShort(handled + [p], bytes[DESCRIPTOR_SIZE + |p.payload|..], accept);
    }
  }

  // ---- sending ----

  function Frames(ps: seq<Packet>): seq<Byte>
    requires forall p :: p in ps ==> PacketOk(p)
  {
    if ps == [] then [] else Frame(ps[0]) + Frames(ps[1..])
  }

  lemma {:induction false} FramesAppend(ps: seq<Packet>, p: Packet)
    requires (forall q :: q in ps ==> PacketOk(q)) && PacketOk(p)
    ensures Frames(ps + [p]) == Frames(ps) + Frame(p)
  {
    if ps == [] {
      assert ps + [p] == [p];
    } else {
      assert (ps + [p])[1..] == ps[1..] + [p];
      FramesAppend(ps[1..], p);
    }
  }

  lemma HeadOfFrame(p: Packet, rest: seq<Byte>)
    requires PacketOk(p)
    ensures HeadOf(Frame(p) + rest) == Whole(p)
  {
    var bytes := Frame(p) + rest;
    assert bytes[0..4] == Be32(|p.payload|) && bytes[4..8] == Be32(p.channel);
    assert bytes[8..16] == Be64(p.offset) && bytes[16..20] == Be32(p.flags);
    assert bytes[DESCRIPTOR_SIZE..DESCRIPTOR_SIZE + |p.payload|] == p.payload;
  }

  lemma FrameThen(p: Packet, rest: seq<Byte>)
    requires PacketOk(p)
    ensures (Frame(p) + rest)[DESCRIPTOR_SIZE + |p.payload|..] == rest
  {
  }

  /** Send writes the offset as two zero words. */
  lemma SentDescriptor(p: Packet)
    requires PacketOk(p) && p.offset == 0
    ensures Be32(|p.payload|) + Be32(p.channel) + Be32(0) + Be32(0) + Be32(p.flags) == Descriptor(p)
  {
    Halves(0, 0);
  }

  lemma OneMoreFrame(wire: seq<Byte>, output: seq<Byte>, sent: seq<Packet>, p: Packet, desc: seq<Byte>)
    requires (forall q :: q in sent ==> PacketOk(q)) && wire + output == Frames(sent)
    requires PacketOk(p) && desc == Descriptor(p)
    ensures wire + (output + desc + p.payload) == Frames(sent + [p])
  {
    FramesAppend(sent, p);
    Assoc(output, desc, p.payload);
    Assoc(wire, output, Frame(p));
  }

  function AcceptAll(): Handler {
    (handled, p) => true
  }

  lemma ParseOneFrame(handled: seq<Packet>, p: Packet, rest: seq<Byte>)
    requires PacketOk(p)
    ensures ParseAll(handled, Frame(p) + rest, AcceptAll()) == ParseAll(handled + [p], rest, AcceptAll())
  {
    HeadOfFrame(p, rest);
    FrameThen(p, rest);
  }

  lemma FirstThenRest(handled: seq<Packet>, ps: seq<Packet>)
    requires ps != []
    ensures handled + [ps[0]] + ps[1..] == handled + ps
  {
  }

  lemma {:induction false} FramesParse(handled: seq<Packet>, ps: seq<Packet>)
    requires forall p :: p in ps ==> PacketOk(p)
    ensures ParseAll(handled, Frames(ps), AcceptAll()) == Parse(handled + ps, [], true)
    decreases |ps|
  {
    if ps == [] {
      assert handled + ps == handled;
    } else {
      ParseOneFrame(handled, ps[0], Frames(ps[1..]));
      FramesParse(handled + [ps[0]], ps[1..]);
      FirstThenRest(handled, ps);
    }
  }

  /**
   Whatever part of the frames has reached the peer, in whatever pieces: it has the first packets that
   were sent, in order, none twice; and all of them once nothing is left to write.
   */
  lemma PeerSeesAPrefix(ps: seq<Packet>, wire: seq<Byte>, out: seq<Byte>, chunks: seq<seq<Byte>>)
    requires forall p :: p in ps ==> PacketOk(p)
    requires wire + out == Frames(ps) && Concat(chunks) == wire
    ensures var peer := Feed(Parse([], [], true), chunks, AcceptAll());
            peer.alive && peer.handled <= ps && (out == [] ==> peer.handled == ps && peer.rest == [])
  {
    FramesParse([], ps);
    assert [] + ps == ps;
    TwoGoes([], wire, out, AcceptAll());
    ChunkingDoesNotMatter(chunks, AcceptAll());
    if out == [] {
      assert wire + out == wire;
    }
  }

  // ---- the connection ----

  method PutDescriptor(len: U32, channel: U32, flags: U32, ghost p: Packet) returns (desc: seq<Byte>)
    requires PacketOk(p) && |p.payload| == len && p.channel == channel && p.offset == 0 && p.flags == flags
    ensures desc == Descriptor(p)
  {
    SentDescriptor(p);
    desc := Be32(len) + Be32(channel) + Be32(0) + Be32(0) + Be32(flags);
  }

  /** What read(2) can answer; a list of answers that ends early is followed by EAGAIN. */
  datatype ReadResult = Got(bytes: seq<Byte>) | WouldBlock | Interrupted | Closed | ReadError

  datatype WriteResult = Wrote(n: nat) | WriteBlocks | WriteInterrupted | WriteError

  /** The bytes one call of ReadFrom collects, and whether it goes on to parse them. */
  function Gather(script: seq<ReadResult>): (seq<Byte>, bool) {
    if script == [] then ([], true)
    else match script[0]
      case Got(bytes) =>
        if |bytes| < READ_BUFFER then (bytes, true)
        else var (more, open) := Gather(script[1..]); (bytes + more, open)
      case WouldBlock => ([], true)
      case Interrupted => Gather(script[1..])
      case Closed => ([], false)
      case ReadError => ([], false)
  }

  /** How many of `n` bytes a FlushOut call writes, and whether the connection survives it. */
  function Written(writes: seq<WriteResult>, n: nat): (r: (nat, bool))
    ensures r.0 <= n
    decreases |writes|
  {
    if n == 0 || writes == [] then (0, true)
    else match writes[0]
      case WriteInterrupted => Written(writes[1..], n)
      case WriteBlocks => (0, true)
      case WriteError => (0, false)
      case Wrote(k) =>
        var first := Min(k, n);
        var (more, open) := Written(writes[1..], n - first);
        (first + more, open)
  }

  /** A place in the input, with what the parse makes of the rest. */
  datatype Cursor = Cursor(handled: seq<Packet>, input: seq<Byte>, off: nat, accept: Handler, all: Parse)

  ghost predicate IsParse(c: Cursor) {
    c.off <= |c.input| && c.all == ParseAll(c.handled, c.input[c.off..], c.accept)
  }

  type ParseCursor = c: Cursor | IsParse(c) ghost witness Cursor([], [], 0, AcceptAll(), ParseAll([], [], AcceptAll()))

  lemma AtStart(handled: seq<Packet>, input: seq<Byte>, accept: Handler) returns (c: ParseCursor)
    ensures c == Cursor(handled, input, 0, accept, ParseAll(handled, input, accept))
  {
    assert input[0..] == input;
    c := Cursor(handled, input, 0, accept, ParseAll(handled, input, accept));
  }

  /** One packet on. */
  lemma Advance(c: ParseCursor, h: Head) returns (next: ParseCursor)
    requires h == HeadOf(c.input[c.off..]) && h.Whole? && c.accept(c.handled, h.packet)
    ensures next == c.(handled := c.handled + [h.packet], off := c.off + DESCRIPTOR_SIZE + |h.packet.payload|)
  {
    var n := DESCRIPTOR_SIZE + |h.packet.payload|;
    assert c.input[c.off..][n..] == c.input[c.off + n..];
    next := c.(handled := c.handled + [h.packet], off := c.off + n);
  }

  /** Or the end of the parse. */
  lemma Stops(c: ParseCursor, h: Head)
    requires h == HeadOf(c.input[c.off..])
    ensures h.Short? ==> c.all == Parse(c.handled, c.input[c.off..], true)
    ensures h.Absurd? ==> c.all.handled == c.handled && !c.all.alive
    ensures h.Whole? && !c.accept(c.handled, h.packet) ==> c.all.handled == c.handled + [h.packet] && !c.all.alive
  {
  }

  class Connection {
    var input: seq<Byte>
    var output: seq<Byte>
    var handled: seq<Packet>      // the calls of HandlePacket so far
    ghost var sent: seq<Packet>   // the calls of Send so far
    ghost var wire: seq<Byte>     // what write(2) took so far

    ghost predicate Valid()
      reads this
    {
      (forall p :: p in sent ==> PacketOk(p)) && wire + output == Frames(sent)
    }

    constructor ()
      ensures Valid() && input == [] && output == [] && handled == [] && sent == [] && wire == []
    {
      input, output, handled, sent, wire := [], [], [], [], [];
    }

    method Send(channel: U32, payload: seq<Byte>, flags: U32)
      requires Valid() && |payload| <= ABSOLUTE_MAX_BUFFER
      modifies this`output, this`sent
      ensures Valid() && sent == old(sent) + [Packet(channel, 0, flags, payload)]
    {
      ghost var p := Packet(channel, 0, flags, payload);
      var desc := PutDescriptor(|payload|, channel, flags, p);
      OneMoreFrame(wire, output, sent, p, desc);
      output, sent := output + desc + payload, sent + [p];
    }

    /**
     Writes until the socket takes no more.  On a live connection exactly what was written leaves
     `output`; after an error the connection is dropped.
     */
    method FlushOut(writes: seq<WriteResult>) returns (ok: bool)
      requires Valid()
      modifies this`output, this`wire
      ensures var (n, open) := Written(writes, |old(output)|);
              ok == open && wire == old(wire) + old(output)[..n] && (ok ==> output == old(output)[n..])
      ensures ok ==> Valid()
    {
      var data, done, i := output, 0, 0;
      ghost var all := Written(writes, |data|);
      while done < |data| && i < |writes| && !writes[i].WriteBlocks?
        invariant 0 <= i <= |writes| && 0 <= done <= |data|
        invariant var rest := Written(writes[i..], |data| - done); all == (done + rest.0, rest.1)
        decreases |writes| - i
      {
        assert writes[i..][1..] == writes[i + 1..];
        if writes[i].WriteError? {
          wire := wire + data[..done];
          return false;
        }
        if writes[i].Wrote? {
          done := done + Min(writes[i].n, |data| - done);
        }
        i := i + 1;
      }
      Assoc(wire, data[..done], data[done..]);
      assert data[..done] + data[done..] == data;
      wire := wire + data[..done];
      output := data[done..];
      ok := true;
    }

    /** Reads what is there, then handles every whole packet. */
    method ReadFrom(script: seq<ReadResult>, accept: Handler) returns (ok: bool)
      requires Valid()
      modifies this`input, this`handled
      ensures Valid()
      ensures var (got, open) := Gather(script);
              if open then
                var r := ParseAll(old(handled), old(input) + got, accept);
                handled == r.handled && ok == r.alive && (ok ==> input == r.rest)
              else
                !ok && handled == old(handled) && input == old(input) + got
    {
      var open := Collect(script);
      ok := false;
      if open {
        ok := HandleInput(accept);
      }
    }

    /** The header at an offset, as the loop takes it apart. */
    method HeadAt(off: nat) returns (h: Head)
      requires off + DESCRIPTOR_SIZE <= |input|
      ensures h == HeadOf(input[off..])
    {
      var d := input[off..];
      var length := FromBe32(d[0..4]);
      if length > ABSOLUTE_MAX_BUFFER {
        return Absurd;
      }
      if |input| - off < DESCRIPTOR_SIZE + length {
        return Short;
      }
      h := Whole(Packet(FromBe32(d[4..8]), FromBe64(d[8..16]), FromBe32(d[16..20]),
                        d[DESCRIPTOR_SIZE..DESCRIPTOR_SIZE + length]));
    }

    /** The parse loop of ReadFrom. */
    method HandleInput(accept: Handler) returns (ok: bool)
      modifies this`input, this`handled
      ensures var r := ParseAll(old(handled), old(input), accept);
              handled == r.handled && ok == r.alive && (ok ==> input == r.rest)
    {
      var off := 0;
      ghost var r := ParseAll(handled, input, accept);
      ghost var c := AtStart(handled, input, accept);
      while |input| - off >= DESCRIPTOR_SIZE
        invariant 0 <= off <= |input| && input == old(input)
        invariant c == Cursor(handled, input, off, accept, r)
        decreases |input| - off
      {
        var h := HeadAt(off);
        Stops(c, h);
        if h.Absurd? {
          return false;
        }
        if h.Short? {
          break;
        }
        var verdict := accept(handled, h.packet);
        if verdict {
          c := Advance(c, h);
        }
        handled := handled + [h.packet];
        if !verdict {
          return false;
        }
        off := off + DESCRIPTOR_SIZE + |h.packet.payload|;
      }
      Stops(c, HeadOf(input[off..]));
      assert off == 0 ==> input[off..] == input;
      if off > 0 {
        input := input[off..];
      }
      ok := true;
    }

    /** The read loop at the top of ReadFrom. */
    method Collect(script: seq<ReadResult>) returns (open: bool)
      modifies this`input
      ensures input == old(input) + Gather(script).0 && open == Gather(script).1
    {
      var i := 0;
      while i < |script|
        invariant 0 <= i <= |script|
        invariant input + Gather(script[i..]).0 == old(input) + Gather(script).0
        invariant Gather(script[i..]).1 == Gather(script).1
      {
        assert script[i..][1..] == script[i + 1..];
        match script[i]
        case Closed => return false;
        case ReadError => return false;
        case WouldBlock => break;
        case Interrupted => i := i + 1;
        case Got(bytes) =>
          input := input + bytes;
          if |bytes| < READ_BUFFER {
            return true;
          }
          i := i + 1;
      }
      open := true;
    }
  }

  // ---- a connection's life ----

  /** The bytes that a series of calls of ReadFrom received. */
  function Received(scripts: seq<seq<ReadResult>>): seq<Byte> {
    if scripts == [] then [] else Received(scripts[..|scripts| - 1]) + Gather(scripts[|scripts| - 1]).0
  }

  /** How the last call ended: it parsed what it read, the parse refused it, or it met the end or an error. */
  datatype End = Alive | Refused | Hung

  lemma NothingWholeNothingHandled(handled: seq<Packet>, bytes: seq<Byte>, accept: Handler)
    ensures ParseAll(handled, bytes, accept).handled == handled <==> !HeadOf(bytes).Whole?
  {
    if HeadOf(bytes).Whole? {
      assert handled + [HeadOf(bytes).packet] <= ParseAll(handled, bytes, accept).handled;
    }
  }

  /** Where a connection stands, if a one-shot parse of what it received is `once`. */
  predicate Standing(end: End, once: Parse, handled: seq<Packet>, input: seq<Byte>) {
    match end
    case Alive => once == Parse(handled, input, true)
    case Refused => once.handled == handled && !once.alive
    case Hung => handled <= once.handled && (once.handled == handled <==> !HeadOf(input).Whole?)
  }

  lemma OneMoreCall(received: seq<Byte>, handled: seq<Packet>, input: seq<Byte>, got: seq<Byte>, accept: Handler)
    requires ParseAll([], received, accept) == Parse(handled, input, true)
    ensures ParseAll([], received + got, accept) == ParseAll(handled, input + got, accept)
    ensures Standing(Hung, ParseAll([], received + got, accept), handled, input + got)
  {
    TwoGoes([], received, got, accept);
    NothingWholeNothingHandled(handled, input + got, accept);
  }

  lemma ReceivedMore(scripts: seq<seq<ReadResult>>, n: nat)
    requires n < |scripts|
    ensures Received(scripts[..n + 1]) == Received(scripts[..n]) + Gather(scripts[n]).0
  {
    assert scripts[..n + 1][..n] == scripts[..n];
  }

  /** The first calls of a connection, what they received, and the one-shot parse of that. */
  datatype Life = Life(scripts: seq<seq<ReadResult>>, accept: Handler, calls: nat, got: (seq<Byte>, bool), once: Parse)

  ghost predicate IsLife(l: Life) {
    && l.calls <= |l.scripts| && l.once == ParseAll([], Received(l.scripts[..l.calls]), l.accept)
    && (l.calls > 0 ==> l.got == Gather(l.scripts[l.calls - 1]))
  }

  type LifeSoFar = l: Life | IsLife(l) ghost witness Life([], AcceptAll(), 0, ([], true), ParseAll([], [], AcceptAll()))

  lemma Born(scripts: seq<seq<ReadResult>>, accept: Handler) returns (l: LifeSoFar)
    ensures l == Life(scripts, accept, 0, ([], true), Parse([], [], true))
  {
    assert HeadOf([]).Short? && scripts[..0] == [];
    l := Life(scripts, accept, 0, ([], true), Parse([], [], true));
  }

  /** One call of ReadFrom. */
  method Call(c: Connection, script: seq<ReadResult>, accept: Handler, ghost l: LifeSoFar)
    returns (end: End, ghost next: LifeSoFar)
    requires l.calls < |l.scripts| && script == l.scripts[l.calls] && accept == l.accept
    requires c.Valid() && Standing(Alive, l.once, c.handled, c.input)
    modifies c`input, c`handled
    ensures c.Valid() && next.scripts == l.scripts && next.accept == l.accept && next.calls == l.calls + 1
    ensures Standing(end, next.once, c.handled, c.input) && (end.Hung? <==> !next.got.1)
    ensures end.Hung? ==> c.input == l.once.rest + next.got.0
  {
    ghost var received, got := Received(l.scripts[..l.calls]), Gather(script);
    OneMoreCall(received, c.handled, c.input, got.0, accept);
    ReceivedMore(l.scripts, l.calls);
    next := Life(l.scripts, accept, l.calls + 1, got, ParseAll([], received + got.0, accept));
    var ok := c.ReadFrom(script, accept);
    end := if ok then Alive else if Gather(script).1 then Refused else Hung;
  }

  /**
   Every life of a connection: whatever each read call of it gets, the packets handled are a prefix of those
   of a one-shot parse of everything received.  They are all of them if and only if the last call did not
   meet the end or an error while the bytes it held started a whole packet.
   */
  method Serve(scripts: seq<seq<ReadResult>>, accept: Handler)
    returns (handled: seq<Packet>, kept: seq<Byte>, calls: nat, end: End)
    ensures calls <= |scripts| && (end.Alive? ==> calls == |scripts|) && (!end.Alive? ==> calls > 0)
    ensures end.Hung? <==> calls > 0 && !Gather(scripts[calls - 1]).1
    ensures end.Hung? ==>
              kept == ParseAll([], Received(scripts[..calls - 1]), accept).rest + Gather(scripts[calls - 1]).0
    ensures var once := ParseAll([], Received(scripts[..calls]), accept);
            && handled <= once.handled
            && (handled == once.handled <==> !(end.Hung? && HeadOf(kept).Whole?))
            && (end.Alive? ==> once.alive && kept == once.rest)
            && (end.Refused? ==> !once.alive)
  {
    var c := new Connection();
    ghost var now, before;
    calls, end, now, before := Live(c, scripts, accept);
    handled, kept := c.handled, c.input;
    Conclude(now, before, end, handled, kept);
  }

  /** The calls, until one of them ends the connection. */
  method Live(c: Connection, scripts: seq<seq<ReadResult>>, accept: Handler)
    returns (calls: nat, end: End, ghost now: LifeSoFar, ghost before: LifeSoFar)
    requires c.Valid() && c.handled == [] && c.input == []
    modifies c`input, c`handled
    ensures calls <= |scripts| && (end.Alive? ==> calls == |scripts|) && (!end.Alive? ==> calls > 0)
    ensures now.scripts == scripts && now.accept == accept && now.calls == calls
    ensures calls > 0 ==> before.scripts == scripts && before.accept == accept && before.calls == calls - 1
    ensures end.Hung? <==> calls > 0 && !now.got.1
    ensures end.Hung? ==> c.input == before.once.rest + now.got.0
    ensures Standing(end, now.once, c.handled, c.input)
  {
    calls, end := 0, Alive;
    now := Born(scripts, accept);
    before := now;
    while calls < |scripts| && end.Alive?
      invariant c.Valid() && calls <= |scripts| && (!end.Alive? ==> calls > 0)
      invariant now.scripts == scripts && now.accept == accept && now.calls == calls
      invariant calls > 0 ==> before.scripts == scripts && before.accept == accept && before.calls == calls - 1
      invariant end.Hung? <==> calls > 0 && !now.got.1
      invariant end.Hung? ==> c.input == before.once.rest + now.got.0
      invariant Standing(end, now.once, c.handled, c.input)
      decreases |scripts| - calls
    {
      before := now;
      end, now := Call(c, scripts[calls], accept, now);
      calls := calls + 1;
    }
  }

  lemma Conclude(now: LifeSoFar, before: LifeSoFar, end: End, handled: seq<Packet>, kept: seq<Byte>)
    requires now.calls > 0 ==>
               before.scripts == now.scripts && before.accept == now.accept && before.calls == now.calls - 1
    requires end.Hung? <==> now.calls > 0 && !now.got.1
    requires end.Hung? ==> kept == before.once.rest + now.got.0
    requires Standing(end, now.once, handled, kept)
    ensures end.Hung? <==> now.calls > 0 && !Gather(now.scripts[now.calls - 1]).1
    ensures end.Hung? ==>
              kept == ParseAll([], Received(now.scripts[..now.calls - 1]), now.accept).rest
                      + Gather(now.scripts[now.calls - 1]).0
    ensures var once := ParseAll([], Received(now.scripts[..now.calls]), now.accept);
            && handled <= once.handled
            && (handled == once.handled <==> !(end.Hung? && HeadOf(kept).Whole?))
            && (end.Alive? ==> once.alive && kept == once.rest)
            && (end.Refused? ==> !once.alive)
  {
  }

  /** Such bytes exist: the frame of one packet. */
  lemma AFrameOfThatSize(payload: seq<Byte>)
    requires |payload| == READ_BUFFER - DESCRIPTOR_SIZE
    ensures |Frame(Packet(0, 0, 0, payload))| == READ_BUFFER && HeadOf(Frame(Packet(0, 0, 0, payload))).Whole?
  {
    var p := Packet(0, 0, 0, payload);
    HeadOfFrame(p, []);
    assert Frame(p) + [] == Frame(p);
  }

  lemma OneScript(bytes: seq<Byte>, scripts: seq<seq<ReadResult>>)
    requires |bytes| == READ_BUFFER && scripts == [[Got(bytes), Closed]]
    ensures Gather(scripts[0]) == (bytes, false) && Received(scripts[..0]) == [] && Received(scripts[..1]) == bytes
  {
    assert [Got(bytes), Closed][1..] == [Closed];
    assert Gather([Closed]) == ([], false) && bytes + [] == bytes;
    ReceivedMore(scripts, 0);
    assert scripts[..0] == [];
  }

  /** It happens: a client that writes 16384 bytes that start a whole packet, and closes. */
  method APacketIsLostAtClose(bytes: seq<Byte>, accept: Handler) returns (handled: seq<Packet>, end: End)
    requires |bytes| == READ_BUFFER && HeadOf(bytes).Whole?
    ensures end.Hung? && handled != ParseAll([], bytes, accept).handled
  {
    var scripts := [[Got(bytes), Closed]];
    OneScript(bytes, scripts);
    assert [] + bytes == bytes && ParseAll([], [], accept).rest == [];
    var kept, calls;
    handled, kept, calls, end := Serve(scripts, accept);
    assert calls == 1;
  }
}
