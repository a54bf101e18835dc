/**
 The sink shared by the protocol loop and its render thread: every interleaving of their critical
 sections, with a history of what happened to each byte.

 Bytes are numbered in the order in which Push accepted them.
 */
module SinkRuns {
  import opened Bytes
  import opened SinkSpec

  /** Where the render thread is between its critical sections. */
  datatype Hand = Waiting | Holding(chunk: seq<Byte>) | Draining | Gone

  /** What the parties did, for the record. */
  datatype Deed = Asked | Emptied | DrainBegun | DrainEnded | Wrote | RanDry | Told

  datatype State = State(
    sink: Sink,
    hand: Hand,
    accepted: seq<Byte>,    // every byte Push took
    popped: seq<nat>,       // the numbers of the bytes taken out of the ring for the renderer, in that order
    drawn: seq<Byte>,       // those bytes; the renderer may still drop some of them
    flushed: seq<nat>,      // the numbers of the bytes a flush threw away
    taken: nat,             // the credit the loop collected with TakeEvents
    writeIndex: nat,        // Stream::writeIndex: every byte offered to Push
    dropped: nat,           // offered and not accepted
    log: seq<Deed>)

  datatype Step =
    | Push(data: seq<Byte>) | Flush | SetCorked(on: bool) | RequestDrain | TakeEvents | Close   // loop
    | Turn(chunk: nat, running: bool) | Finish                                                  // render thread

  function Init(size: nat): State {
    State(Opened(size), Waiting, [], [], [], [], 0, 0, 0, [])
  }

  predicate Enabled(h: State, step: Step) {
    match step
    case Turn(chunk, _) => h.hand.Waiting? && chunk > 0
    case Finish => h.hand.Holding? || h.hand.Draining?
    case _ => true
  }

  function Range(from: nat, n: nat): (r: seq<nat>)
    ensures |r| == n && forall i :: 0 <= i < n ==> r[i] == from + i
  {
    seq(n, i requires 0 <= i < n => from + i)
  }

  /** The number of the oldest byte in the ring. */
  function Oldest(h: State): int {
    |h.accepted| - |h.sink.queue|
  }

  function Apply(h: State, step: Step): State
    requires Enabled(h, step) && Oldest(h) >= 0
  {
    match step
    case Push(data) =>
      var n := Accepted(h.sink, data);
      h.(sink := SinkSpec.Push(h.sink, data), accepted := h.accepted + data[..n],
         writeIndex := h.writeIndex + |data|, dropped := h.dropped + |data| - n)
    case Flush =>
      h.(sink := SinkSpec.Flush(h.sink), flushed := h.flushed + Range(Oldest(h), |h.sink.queue|),
         log := h.log + [Emptied])
    case SetCorked(on) => h.(sink := SinkSpec.SetCorked(h.sink, on))
    case RequestDrain => h.(sink := SinkSpec.RequestDrain(h.sink), log := h.log + [Asked])
    case TakeEvents =>
      h.(sink := SinkSpec.TakeEvents(h.sink), taken := h.taken + h.sink.pending.credit, log := h.log + [Told])
    case Close => h.(sink := SinkSpec.Close(h.sink))
    case Turn(chunk, running) =>
      var t := h.(sink := AfterTurn(h.sink, chunk, running));
      (match Decide(h.sink, chunk, running)
       case Stopped => t.(hand := Gone)
       case Popped(bytes) =>
         t.(hand := Holding(bytes), popped := h.popped + Range(Oldest(h), |bytes|),
            drawn := h.drawn + bytes)
       case FinishDrain => t.(hand := Draining, log := h.log + [DrainBegun])
       case Pause => t
       case Underflow => t.(log := h.log + [RanDry])
       case Nothing => t)
    case Finish =>
      if h.hand.Holding? then h.(sink := Rendered(h.sink, |h.hand.chunk|), hand := Waiting, log := h.log + [Wrote])
      else h.(sink := DrainDone(h.sink), hand := Waiting, log := h.log + [DrainEnded])
  }

  // ---- the invariant ----

  predicate Ascending(s: seq<nat>) {
    forall i, j :: 0 <= i < j < |s| ==> s[i] < s[j]
  }

  predicate Below(s: seq<nat>, n: int) {
    forall i :: 0 <= i < |s| ==> s[i] < n
  }

  /** `bytes` are the accepted bytes with the numbers `idx`. */
  predicate Picks(accepted: seq<Byte>, idx: seq<nat>, bytes: seq<Byte>) {
    |bytes| == |idx| && forall i :: 0 <= i < |idx| ==> idx[i] < |accepted| && bytes[i] == accepted[idx[i]]
  }

  /** Every byte that left the ring was popped or flushed, and none was both. */
  predicate Split(popped: seq<nat>, flushed: seq<nat>, n: int) {
    && (forall k: nat :: k < n ==> k in popped || k in flushed)
    && (forall k :: k in popped ==> k !in flushed)
  }

  predicate Ordered(h: State) {
    && Oldest(h) >= 0
    && h.sink.queue == h.accepted[Oldest(h)..]
    && Ascending(h.popped) && Below(h.popped, Oldest(h))
    && Ascending(h.flushed) && Below(h.flushed, Oldest(h))
    && Picks(h.accepted, h.popped, h.drawn)
    && Split(h.popped, h.flushed, Oldest(h))
  }

  function InHand(h: State): nat {
    if h.hand.Holding? then |h.hand.chunk| else 0
  }

  predicate Counted(h: State) {
    && |h.popped| + |h.flushed| == Oldest(h)
    && h.sink.readIndex + InHand(h) == |h.popped|
    && h.taken + h.sink.pending.credit == h.sink.readIndex
    && h.writeIndex == |h.accepted| + h.dropped
  }

  predicate Inv(h: State) {
    Ordered(h) && Counted(h) && |h.sink.queue| <= h.sink.size
  }

  lemma AppendRange(s: seq<nat>, from: nat, n: nat)
    requires Ascending(s) && Below(s, from)
    ensures Ascending(s + Range(from, n)) && Below(s + Range(from, n), from + n)
    ensures forall k :: k in s + Range(from, n) <==> k in s || from <= k < from + n
  {
    var t := s + Range(from, n);
    forall k | from <= k < from + n
      ensures k in t
    {
      assert t[|s| + (k - from)] == k;
    }
  }

  lemma PushKeepsInv(h: State, data: seq<Byte>)
    requires Inv(h)
    ensures Inv(Apply(h, Push(data)))
  {
    var t := Apply(h, Push(data));
    assert t.sink.queue == t.accepted[Oldest(h)..];
    assert Picks(t.accepted, t.popped, t.drawn);
  }

  lemma FlushKeepsInv(h: State)
    requires Inv(h)
    ensures Inv(Apply(h, Flush))
  {
    var t := Apply(h, Flush);
    AppendRange(h.flushed, Oldest(h), |h.sink.queue|);
    assert t.accepted[Oldest(t)..] == [];
  }

  lemma PopKeepsInv(h: State, chunk: nat, running: bool)
    requires Inv(h) && Enabled(h, Turn(chunk, running)) && Decide(h.sink, chunk, running).Popped?
    ensures Inv(Apply(h, Turn(chunk, running)))
  {
    var t := Apply(h, Turn(chunk, running));
    var n := |t.hand.chunk|;
    AppendRange(h.popped, Oldest(h), n);
    assert Oldest(t) == Oldest(h) + n;
    assert t.sink.queue == t.accepted[Oldest(t)..];
  }

  lemma IdleTurnKeepsInv(h: State, chunk: nat, running: bool)
    requires Inv(h) && Enabled(h, Turn(chunk, running)) && !Decide(h.sink, chunk, running).Popped?
    ensures Inv(Apply(h, Turn(chunk, running)))
  {
  }

  lemma StepKeepsInv(h: State, step: Step)
    requires Inv(h) && Enabled(h, step)
    ensures Inv(Apply(h, step))
  {
    match step
    case Push(data) => PushKeepsInv(h, data);
    case Flush => FlushKeepsInv(h);
    case Turn(chunk, running) =>
      if Decide(h.sink, chunk, running).Popped? {
        PopKeepsInv(h, chunk, running);
      } else {
        IdleTurnKeepsInv(h, chunk, running);
      }
    case _ =>
  }

  // ---- runs ----

  ghost predicate Reaches(h: State, steps: seq<Step>, t: State)
    decreases |steps|
  {
    if steps == [] then t == h
    else Enabled(h, steps[0]) && Oldest(h) >= 0 && Reaches(Apply(h, steps[0]), steps[1..], t)
  }

  lemma {:induction false} EveryRunKeepsInv(h: State, steps: seq<Step>, t: State)
    requires Inv(h) && Reaches(h, steps, t)
    ensures Inv(t)
    decreases |steps|
  {
    if steps != [] {
      StepKeepsInv(h, steps[0]);
      EveryRunKeepsInv(Apply(h, steps[0]), steps[1..], t);
    }
  }

  /**
   The ring is a FIFO and loses nothing but what was flushed: what was drawn from it, followed by what is in
   the ring, is the accepted bytes without the flushed ones, in their order.
   */
  lemma NothingIsLostOrReordered(size: nat, steps: seq<Step>, t: State)
    requires Reaches(Init(size), steps, t)
    ensures Oldest(t) >= 0 && |t.sink.queue| <= size
    ensures var idx := t.popped + Range(Oldest(t), |t.sink.queue|);
            && Ascending(idx)
            && Picks(t.accepted, idx, t.drawn + t.sink.queue)
            && (forall k: nat :: k < |t.accepted| ==> (k in idx <==> k !in t.flushed))
  {
    SizeIsFixed(Init(size), steps, t);
    EveryRunKeepsInv(Init(size), steps, t);
    AppendRange(t.popped, Oldest(t), |t.sink.queue|);
  }

  lemma {:induction false} SizeIsFixed(h: State, steps: seq<Step>, t: State)
    requires Reaches(h, steps, t)
    ensures t.sink.size == h.sink.size
    decreases |steps|
  {
    if steps != [] {
      SizeIsFixed(Apply(h, steps[0]), steps[1..], t);
    }
  }

  /** The indices the client sees add up, and so does the credit. */
  lemma BytesAreAccountedFor(size: nat, steps: seq<Step>, t: State)
    requires Reaches(Init(size), steps, t)
    ensures t.writeIndex
            == t.sink.readIndex + InHand(t) + |t.sink.queue| + |t.flushed| + t.dropped
    ensures t.taken + t.sink.pending.credit == t.sink.readIndex
  {
    EveryRunKeepsInv(Init(size), steps, t);
  }

  /**
   A drain is only taken up when everything accepted before is behind the read index or was flushed:
   nothing is in the ring and nothing is on its way to the renderer.
   */
  lemma DrainComesLast(size: nat, steps: seq<Step>, t: State, chunk: nat, running: bool)
    requires Reaches(Init(size), steps, t) && Enabled(t, Turn(chunk, running))
    requires Decide(t.sink, chunk, running).FinishDrain?
    ensures t.sink.readIndex + |t.flushed| == |t.accepted| && t.sink.readIndex == |t.popped|
    ensures forall k: nat :: k < |t.accepted| ==> (k in t.popped <==> k !in t.flushed)
  {
    EveryRunKeepsInv(Init(size), steps, t);
  }
}
