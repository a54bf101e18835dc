/**
 The sink and the credit protocol: what the render thread and the loop do to the ring are the protocol's steps, so what
 is proved of every run of the protocol holds of the sink.
 */
module SinkCredit {
  import opened Bytes
  import opened SinkSpec
  import opened SinkRuns
  import Credit = CreditProtocol

  /** The protocol's picture of an open sink. */
  predicate Pictures(s: Credit.State, sink: Sink) {
    && s.attr.maxlength == sink.size && s.fill == |sink.queue| && s.corked == sink.corked
    && !sink.quit && |sink.queue| <= sink.size
  }

  /** A turn that takes bytes is the protocol's Pop of as many; any other leaves its picture alone. */
  lemma TurnIsPop(s: Credit.State, h: State, chunk: nat, running: bool)
    requires Pictures(s, h.sink) && Oldest(h) >= 0 && Enabled(h, Turn(chunk, running))
    ensures var u := Apply(h, Turn(chunk, running));
            var n := |h.sink.queue| - |u.sink.queue|;
            if n > 0 then Credit.Enabled(s, Credit.Pop(n)) && Pictures(Credit.Apply(s, Credit.Pop(n)), u.sink)
            else n == 0 && Pictures(s, u.sink)
  {
  }

  /** Every Pop of the protocol is such a turn. */
  lemma PopIsTurn(s: Credit.State, h: State, n: nat, running: bool)
    requires Pictures(s, h.sink) && Oldest(h) >= 0 && h.hand.Waiting? && Credit.Enabled(s, Credit.Pop(n))
    ensures Enabled(h, Turn(n, running))
    ensures Pictures(Credit.Apply(s, Credit.Pop(n)), Apply(h, Turn(n, running)).sink)
  {
  }

  /** A received cork command, flush command or data packet is the sink's step of that name. */
  lemma ReceiveIsSinkStep(s: Credit.State, h: State)
    requires Pictures(s, h.sink) && Oldest(h) >= 0 && s.loop.Idle? && s.up != [] && !s.up[0].Data?
    ensures var step := if s.up[0].FlushCommand? then Flush else SetCorked(s.up[0].on);
            Pictures(Credit.Apply(s, Credit.Receive), Apply(h, step).sink)
  {
  }

  lemma PushIsSinkStep(s: Credit.State, h: State, data: seq<Byte>)
    requires Pictures(s, h.sink) && Oldest(h) >= 0 && s.loop == Credit.Pushing(|data|) && h.sink.size > 0
    ensures Pictures(Credit.Apply(s, Credit.Push), Apply(h, Push(data)).sink)
    ensures Credit.Apply(s, Credit.Push).dropped - s.dropped == Apply(h, Push(data)).dropped - h.dropped
  {
  }

  /** The other steps of the sink leave the protocol's picture alone. */
  lemma OthersLeaveItAlone(s: Credit.State, h: State, step: Step)
    requires Pictures(s, h.sink) && Oldest(h) >= 0 && Enabled(h, step)
    requires step.RequestDrain? || step.TakeEvents? || step.Finish?
    ensures Pictures(s, Apply(h, step).sink)
  {
  }
}
