/**
 The sink of one playback stream, specified: its state as the mutex protects it, with the ring as the
 sequence of the bytes in it, and one function for every critical section of the code.
 */
module SinkSpec {
  import opened Bytes

  datatype Events = Events(credit: nat, underflow: bool, started: bool, drained: bool)

  const NO_EVENTS := Events(0, false, false, false)

  datatype Sink = Sink(
    size: nat,             // of the ring
    queue: seq<Byte>,      // the bytes in the ring, oldest first
    corked: bool,
    quit: bool,
    drainRequested: bool,
    playing: bool,
    pending: Events,
    readIndex: nat)

  /** What one turn of the render loop decides while it holds the mutex. */
  datatype Turn = Nothing | Stopped | Popped(chunk: seq<Byte>) | FinishDrain | Pause | Underflow

  function Opened(size: nat): Sink {
    Sink(size, [], true, false, false, false, NO_EVENTS, 0)
  }

  function Accepted(s: Sink, data: seq<Byte>): nat {
    if s.quit || s.size == 0 then 0 else Max(Min(|data|, s.size - |s.queue|), 0)
  }

  function Push(s: Sink, data: seq<Byte>): Sink {
    s.(queue := s.queue + data[..Accepted(s, data)])
  }

  function Flush(s: Sink): Sink {
    s.(queue := [], playing := false, drainRequested := false)
  }

  function SetCorked(s: Sink, corked: bool): Sink {
    s.(corked := corked)
  }

  function RequestDrain(s: Sink): Sink {
    s.(drainRequested := true)
  }

  function TakeEvents(s: Sink): Sink {
    s.(pending := NO_EVENTS)
  }

  /** `running` says whether the renderer is started, which only the render thread knows. */
  function Decide(s: Sink, chunk: nat, running: bool): Turn {
    if s.quit then Stopped
    else if !s.corked && s.queue != [] then Popped(s.queue[..Min(chunk, |s.queue|)])
    else if s.drainRequested && s.queue == [] then FinishDrain
    else if s.corked && running then Pause
    else if !s.corked && s.queue == [] && s.playing then Underflow
    else Nothing
  }

  function AfterTurn(s: Sink, chunk: nat, running: bool): Sink {
    match Decide(s, chunk, running)
    case Popped(bytes) => s.(queue := s.queue[|bytes|..])
    case FinishDrain => s.(drainRequested := false)
    case Underflow => s.(playing := false, pending := s.pending.(underflow := true))
    case _ => s
  }

  /** After the renderer has had its chunk: the read index and the credit move together. */
  function Rendered(s: Sink, got: nat): Sink {
    s.(readIndex := s.readIndex + got,
       pending := s.pending.(credit := s.pending.credit + got, started := s.pending.started || !s.playing),
       playing := true)
  }

  function DrainDone(s: Sink): Sink {
    s.(pending := s.pending.(drained := true))
  }

  function Close(s: Sink): Sink {
    s.(quit := true)
  }
}
