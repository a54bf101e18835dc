/**
 The sink with its wrapping ring.  Each method is one critical section of the code and is proved to do
 to the sequence of buffered bytes what the specification function of the same name does.
 */
module OhosSinks {
  import opened Bytes
  import opened SinkSpec

  lemma WrapOnce(x: nat, n: nat)
    requires 0 < n && x < 2 * n
    ensures x % n == if x < n then x else x - n
  {
    if x >= n {
      assert x == n + (x - n);
      assert x / n == 1;
    }
  }

  class OhosSink {
    const ring: array<Byte>
    var head: nat
    var fill: nat
    var corked: bool
    var quit: bool
    var drainRequested: bool
    var playing: bool
    var pending: Events
    var readIndex: nat

    ghost predicate Valid()
      reads this
    {
      fill <= ring.Length && (ring.Length > 0 ==> head < ring.Length)
    }

    /** The i-th oldest byte sits here. */
    function Slot(i: nat): nat
      reads this
    {
      if head + i < ring.Length then head + i else head + i - ring.Length
    }

    ghost function Queue(): (q: seq<Byte>)
      requires Valid()
      reads this, ring
      ensures |q| == fill
    {
      seq(fill, i requires 0 <= i < fill && Valid() reads this, ring => ring[Slot(i)])
    }

    ghost function View(): Sink
      requires Valid()
      reads this, ring
    {
      Sink(ring.Length, Queue(), corked, quit, drainRequested, playing, pending, readIndex)
    }

    constructor (ringBytes: nat)
      ensures Valid() && fresh(ring) && View() == Opened(ringBytes)
    {
      ring := new Byte[ringBytes](_ => 0);
      head, fill, readIndex := 0, 0, 0;
      corked, quit, drainRequested, playing, pending := true, false, false, false, NO_EVENTS;
    }

    method Push(data: seq<Byte>) returns (accepted: nat)
      requires Valid()
      modifies this`fill, ring
      ensures Valid() && View() == SinkSpec.Push(old(View()), data) && accepted == Accepted(old(View()), data)
    {
      if quit || ring.Length == 0 {
        assert data[..0] == [];
        return 0;
      }
      accepted := Min(|data|, ring.Length - fill);
      ghost var q := Queue();
      CopyIn(data[..accepted]);
      fill := fill + accepted;
      assert Queue() == q + data[..accepted];
    }

    /** The two copies of Push: up to the end of the array, then from its start. */
    method CopyIn(data: seq<Byte>)
      requires Valid() && ring.Length > 0 && fill + |data| <= ring.Length
      modifies ring
      ensures forall i :: 0 <= i < fill ==> ring[Slot(i)] == old(ring[Slot(i)])
      ensures forall i :: fill <= i < fill + |data| ==> ring[Slot(i)] == data[i - fill]
    {
      WrapOnce(head + fill, ring.Length);
      var tail := (head + fill) % ring.Length;
      var first := Min(|data|, ring.Length - tail);
      forall i | 0 <= i < first {
        ring[tail + i] := data[i];
      }
      forall i | first <= i < |data| {
        ring[i - first] := data[i];
      }
    }

    /** Called with the mutex held and a non-empty ring. */
    method PopLocked(want: nat) returns (chunk: seq<Byte>)
      requires Valid() && fill > 0
      modifies this`head, this`fill
      ensures Valid()
      ensures chunk == old(Queue())[..Min(want, old(fill))] && Queue() == old(Queue())[|chunk|..]
    {
      var got := Min(want, fill);
      var first := Min(got, ring.Length - head);
      ghost var q := Queue();
      chunk := ring[head..head + first];
      if got > first {
        chunk := chunk + ring[..got - first];
      }
      assert chunk == q[..got];
      WrapOnce(head + got, ring.Length);
      head := (head + got) % ring.Length;
      fill := fill - got;
      assert Queue() == q[got..];
    }

    method Buffered() returns (n: nat)
      requires Valid()
      ensures n == |View().queue|
    {
      n := fill;
    }

    method Flush()
      requires Valid()
      modifies this
      ensures Valid() && View() == SinkSpec.Flush(old(View()))
    {
      head, fill, playing, drainRequested := 0, 0, false, false;
    }

    method SetCorked(on: bool)
      requires Valid()
      modifies this`corked
      ensures Valid() && View() == SinkSpec.SetCorked(old(View()), on)
    {
      corked := on;
    }

    method RequestDrain()
      requires Valid()
      modifies this`drainRequested
      ensures Valid() && View() == SinkSpec.RequestDrain(old(View()))
    {
      drainRequested := true;
    }

    method TakeEvents() returns (out: Events)
      requires Valid()
      modifies this`pending
      ensures Valid() && out == old(pending) && View() == SinkSpec.TakeEvents(old(View()))
    {
      out := pending;
      pending := NO_EVENTS;
    }

    /** The critical section at the top of RenderLoop. */
    method RenderTurn(chunk: nat, running: bool) returns (turn: Turn)
      requires Valid()
      modifies this
      ensures Valid() && turn == Decide(old(View()), chunk, running) && View() == AfterTurn(old(View()), chunk, running)
    {
      if quit {
        return Stopped;
      }
      if !corked && fill > 0 {
        var bytes := PopLocked(chunk);
        turn := Popped(bytes);
      } else if drainRequested && fill == 0 {
        drainRequested := false;
        turn := FinishDrain;
      } else if corked && running {
        turn := Pause;
      } else if !corked && fill == 0 && playing {
        playing := false;
        pending := pending.(underflow := true);
        turn := Underflow;
      } else {
        turn := Nothing;
      }
    }

    /** The critical section after the blocking write. */
    method RenderDone(got: nat)
      requires Valid()
      modifies this
      ensures Valid() && View() == Rendered(old(View()), got)
    {
      readIndex := readIndex + got;
      pending := pending.(credit := pending.credit + got);
      if !playing {
        playing := true;
        pending := pending.(started := true);
      }
    }

    /** The critical section after the renderer's Drain. */
    method DrainFinished()
      requires Valid()
      modifies this`pending
      ensures Valid() && View() == DrainDone(old(View()))
    {
      pending := pending.(drained := true);
    }
  }
}
