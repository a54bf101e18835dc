/**
 Flow control of one playback stream as a step system: a client that follows libpulse's
 `requested_bytes` accounting, a FIFO socket in each direction, the protocol loop of the server, and
 the render thread, which may pop from the ring between any two steps of the loop.

 A handler of the loop is not atomic with respect to the render thread, so it is split where the sink's
 mutex is taken: debit, push, observe the fill level, decide.  What `MaybeRequest` sees of the ring is
 therefore possibly stale when it decides.
 */
module CreditProtocol {
  import opened Bytes

  datatype Attr = Attr(maxlength: U32, tlength: U32, prebuf: U32, minreq: U32)

  /** What the normalisation in HandleCreatePlayback leaves (see AudioStream.NormaliseIsSane). */
  predicate Sane(a: Attr) {
    1 <= a.minreq <= a.tlength <= a.maxlength <= ABSOLUTE_MAX_BUFFER && a.prebuf <= a.tlength
  }

  /** The two numbers MaybeRequest works with. */
  function Owed(a: Attr, buffered: int, outstanding: int): int {
    a.tlength - buffered - outstanding
  }

  predicate Asks(a: Attr, buffered: int, outstanding: int) {
    Owed(a, buffered, outstanding) >= a.minreq
  }

  /** The REQUEST field is 32 bits wide; the cast in the code keeps the low 32 bits. */
  function RequestField(owed: int): U32 {
    owed % TWO_32
  }

  datatype Message = Data(len: nat) | FlushCommand | CorkCommand(on: bool)

  datatype Loop = Idle | Pushing(len: nat) | Observing | Deciding(seen: nat)

  datatype State = State(
    attr: Attr,
    outstanding: int,      // Stream::outstanding
    fill: nat,             // bytes in the ring, whose size is attr.maxlength
    corked: bool,          // the render thread leaves the ring alone
    loop: Loop,            // where the protocol loop is inside a handler
    up: seq<Message>,      // client to server, in order
    down: seq<U32>,        // credit on its way to the client: the initial grant, then REQUESTs
    credit: int,           // the client's requested_bytes
    seen: nat,             // the fill level the loop observed last
    current: bool,         // nothing was popped since that observation
    dropped: nat)          // bytes Push could not take

  datatype Step =
    | Write(len: nat) | SendFlush | SendCork(on: bool) | TakeCredit   // client
    | Receive | Push | Observe | Decide | Pump                        // protocol loop
    | Pop(n: nat)                                                     // render thread

  /** Right after the reply to CREATE_PLAYBACK_STREAM was queued: corked as it asked, and the grant is tlength. */
  function Init(a: Attr, corked: bool): State {
    State(a, a.tlength, 0, corked, Idle, [], [a.tlength], 0, 0, true, 0)
  }

  predicate Enabled(s: State, step: Step) {
    match step
    case Write(len) => len <= ABSOLUTE_MAX_BUFFER    // ReadFrom refuses a longer packet
    case SendFlush => true
    case SendCork(_) => true
    case TakeCredit => s.down != []
    case Receive => s.loop.Idle? && s.up != []
    case Push => s.loop.Pushing?
    case Observe => s.loop.Observing?
    case Decide => s.loop.Deciding?
    case Pump => s.loop.Idle?
    case Pop(n) => !s.corked && 0 < n <= s.fill
  }

  function Apply(s: State, step: Step): State
    requires Enabled(s, step)
  {
    match step
    case Write(len) => s.(up := s.up + [Data(len)], credit := s.credit - len)
    case SendFlush => s.(up := s.up + [FlushCommand])
    case SendCork(on) => s.(up := s.up + [CorkCommand(on)])
    case TakeCredit => s.(down := s.down[1..], credit := s.credit + s.down[0])
    case Receive =>
      (match s.up[0]
       case Data(len) => s.(up := s.up[1..], outstanding := s.outstanding - len, loop := Pushing(len))
       case FlushCommand => s.(up := s.up[1..], fill := 0, loop := Observing)
       case CorkCommand(on) => s.(up := s.up[1..], corked := on, loop := Observing))
    case Push =>
      var accepted := Min(s.loop.len, Max(s.attr.maxlength - s.fill, 0));
      s.(fill := s.fill + accepted, dropped := s.dropped + s.loop.len - accepted, loop := Observing)
    case Observe => s.(loop := Deciding(s.fill), seen := s.fill, current := true)
    case Decide =>
      if Asks(s.attr, s.loop.seen, s.outstanding) then
        var owed := Owed(s.attr, s.loop.seen, s.outstanding);
        s.(outstanding := s.outstanding + owed, down := s.down + [RequestField(owed)], loop := Idle)
      else
        s.(loop := Idle)
    case Pump => s.(loop := Observing)
    case Pop(n) => s.(fill := s.fill - n, current := false)
  }

  predicate Feasible(s: State, steps: seq<Step>)
    decreases |steps|
  {
    steps == [] || (Enabled(s, steps[0]) && Feasible(Apply(s, steps[0]), steps[1..]))
  }

  function Run(s: State, steps: seq<Step>): State
    requires Feasible(s, steps)
    decreases |steps|
  {
    if steps == [] then s else Run(Apply(s, steps[0]), steps[1..])
  }

  function Total(down: seq<U32>): nat {
    if down == [] then 0 else down[0] + Total(down[1..])
  }

  function InFlight(up: seq<Message>): nat {
    if up == [] then 0 else (if up[0].Data? then up[0].len else 0) + InFlight(up[1..])
  }

  lemma {:induction false} TotalAppend(down: seq<U32>, n: U32)
    ensures Total(down + [n]) == Total(down) + n
  {
    if down != [] {
      assert (down + [n])[1..] == down[1..] + [n];
      TotalAppend(down[1..], n);
    }
  }

  lemma {:induction false} InFlightAppend(up: seq<Message>, m: Message)
    ensures InFlight(up + [m]) == InFlight(up) + (if m.Data? then m.len else 0)
  {
    if up != [] {
      assert (up + [m])[1..] == up[1..] + [m];
      InFlightAppend(up[1..], m);
    }
  }

  /** Server and client agree on the credit, once what is on the wire is counted. */
  predicate Conserved(s: State) {
    s.outstanding == s.credit + Total(s.down) + InFlight(s.up)
  }

  /** Bytes that were debited and are about to be pushed. */
  function Arriving(s: State): nat {
    if s.loop.Pushing? then s.loop.len else 0
  }

  predicate UnderCeiling(s: State) {
    s.fill + Arriving(s) + s.outstanding <= s.attr.tlength
  }

  /**
   When no handler runs, what the loop saw last plus what it asked for is within minreq of the target.
   Inside a handler one packet more may have been debited.
   */
  predicate AboveFloor(s: State) {
    && (s.loop.Idle? ==> s.seen + s.outstanding > s.attr.tlength - s.attr.minreq)
    && s.outstanding > s.attr.tlength - s.attr.minreq - s.attr.maxlength - ABSOLUTE_MAX_BUFFER
  }

  predicate Inv(s: State) {
    && Sane(s.attr)
    && Conserved(s)
    && UnderCeiling(s)
    && AboveFloor(s)
    && s.fill <= s.attr.maxlength
    && s.seen <= s.attr.maxlength
    && (s.loop.Deciding? ==> s.fill <= s.loop.seen == s.seen)
    && ((s.loop.Idle? || s.loop.Deciding?) && s.current ==> s.fill == s.seen)
    && (forall m :: m in s.up && m.Data? ==> m.len <= ABSOLUTE_MAX_BUFFER)
    && Arriving(s) <= ABSOLUTE_MAX_BUFFER
  }

  /** What a decision sends always fits the 32-bit field, whatever overdrafts came before. */
  lemma RequestFits(s: State)
    requires Inv(s) && s.loop.Deciding? && Asks(s.attr, s.loop.seen, s.outstanding)
    ensures RequestField(Owed(s.attr, s.loop.seen, s.outstanding)) == Owed(s.attr, s.loop.seen, s.outstanding)
  {
  }

  lemma ClientStepKeepsInv(s: State, step: Step)
    requires Inv(s) && Enabled(s, step)
    requires step.Write? || step.SendFlush? || step.SendCork? || step.TakeCredit?
    ensures Inv(Apply(s, step))
  {
    if !step.TakeCredit? {
      var m := Apply(s, step).up[|s.up|];
      InFlightAppend(s.up, m);
    }
  }

  lemma DataKeepsInv(s: State)
    requires Inv(s) && Enabled(s, Receive) && s.up[0].Data?
    ensures Inv(Apply(s, Receive))
  {
  }

  lemma ReceiveKeepsInv(s: State)
    requires Inv(s) && Enabled(s, Receive)
    ensures Inv(Apply(s, Receive))
  {
    if s.up[0].Data? {
      DataKeepsInv(s);
    }
  }

  lemma DecideKeepsInv(s: State)
    requires Inv(s) && s.loop.Deciding?
    ensures Inv(Apply(s, Decide))
  {
    if Asks(s.attr, s.loop.seen, s.outstanding) {
      RequestFits(s);
      TotalAppend(s.down, Owed(s.attr, s.loop.seen, s.outstanding));
    }
  }

  lemma StepKeepsInv(s: State, step: Step)
    requires Inv(s) && Enabled(s, step)
    ensures Inv(Apply(s, step))
  {
    match step
    case Write(_) | SendFlush | SendCork(_) | TakeCredit => ClientStepKeepsInv(s, step);
    case Receive => ReceiveKeepsInv(s);
    case Decide => DecideKeepsInv(s);
    case Push | Observe | Pump | Pop(_) =>
  }

  lemma {:induction false} EveryRunKeepsInv(s: State, steps: seq<Step>)
    requires Inv(s) && Feasible(s, steps)
    ensures Inv(Run(s, steps))
    decreases |steps|
  {
    if steps != [] {
      StepKeepsInv(s, steps[0]);
      EveryRunKeepsInv(Apply(s, steps[0]), steps[1..]);
    }
  }

  /** Credit conservation, credit ceiling and an exact REQUEST field, in every reachable state. */
  lemma CreditIsConserved(a: Attr, corked: bool, steps: seq<Step>)
    requires Sane(a) && Feasible(Init(a, corked), steps)
    ensures var s := Run(Init(a, corked), steps);
            && s.outstanding == s.credit + Total(s.down) + InFlight(s.up)
            && s.fill + s.outstanding <= a.tlength
            && s.fill <= a.maxlength
            && (s.loop.Idle? ==> s.seen + s.outstanding > a.tlength - a.minreq)
            && (s.loop.Deciding? && Asks(s.attr, s.loop.seen, s.outstanding) ==>
                  0 < Owed(s.attr, s.loop.seen, s.outstanding) < TWO_32)
  {
    AttrIsFixed(Init(a, corked), steps);
    EveryRunKeepsInv(Init(a, corked), steps);
    var s := Run(Init(a, corked), steps);
    if s.loop.Deciding? && Asks(s.attr, s.loop.seen, s.outstanding) {
      RequestFits(s);
    }
  }

  lemma {:induction false} AttrIsFixed(s: State, steps: seq<Step>)
    requires Feasible(s, steps)
    ensures Run(s, steps).attr == s.attr
    decreases |steps|
  {
    if steps != [] {
      AttrIsFixed(Apply(s, steps[0]), steps[1..]);
    }
  }

  /**
   No stall: with nothing on the wire, an empty ring and a pump since the last pop, the client holds
   credit, whatever it overdrew before.
   */
  lemma NoStall(a: Attr, corked: bool, steps: seq<Step>)
    requires Sane(a) && Feasible(Init(a, corked), steps)
    ensures var s := Run(Init(a, corked), steps);
            s.loop.Idle? && s.up == [] && s.down == [] && s.fill == 0 && s.current
            ==> s.credit > a.tlength - a.minreq && s.credit >= 1
  {
    AttrIsFixed(Init(a, corked), steps);
    EveryRunKeepsInv(Init(a, corked), steps);
  }

  // ---- when the server alone gives the client credit ----

  predicate ClientIdle(steps: seq<Step>) {
    forall step :: step in steps ==> !step.Write? && !step.SendFlush? && !step.SendCork?
  }

  lemma {:induction false} RunAppend(s: State, a: seq<Step>, b: seq<Step>)
    requires Feasible(s, a) && Feasible(Run(s, a), b)
    ensures Feasible(s, a + b) && Run(s, a + b) == Run(Run(s, a), b)
    decreases |a|
  {
    if a == [] {
      assert a + b == b;
    } else {
      assert (a + b)[0] == a[0] && (a + b)[1..] == a[1..] + b;
      RunAppend(Apply(s, a[0]), a[1..], b);
    }
  }

  lemma One(s: State, step: Step)
    requires Enabled(s, step)
    ensures Feasible(s, [step]) && Run(s, [step]) == Apply(s, step)
  {
    assert [step][1..] == [];
    assert Run(Apply(s, step), []) == Apply(s, step);
  }

  /** What the loop still has to do before it is idle again. */
  function HandlerTail(loop: Loop): seq<Step> {
    match loop
    case Pushing(_) => [Push, Observe, Decide]
    case Observing => [Observe, Decide]
    case Deciding(_) => [Decide]
    case Idle => []
  }

  lemma {:induction false} FinishHandler(s: State)
    requires Inv(s)
    ensures Feasible(s, HandlerTail(s.loop))
    ensures var t := Run(s, HandlerTail(s.loop));
            && Inv(t) && t.loop.Idle? && t.up == s.up && t.attr == s.attr && t.corked == s.corked
            && (s.loop.Observing? ==> t.current && t.fill == s.fill)
            && (s.loop.Deciding? ==> t.current == s.current && t.fill == s.fill)
    decreases |HandlerTail(s.loop)|
  {
    if !s.loop.Idle? {
      var first := HandlerTail(s.loop)[0];
      StepKeepsInv(s, first);
      var t := Apply(s, first);
      assert HandlerTail(s.loop)[1..] == HandlerTail(t.loop);
      FinishHandler(t);
    }
  }

  /** Whether the stream is corked once everything on its way has been received. */
  function CorkedAtLast(corked: bool, up: seq<Message>): bool
    decreases |up|
  {
    if up == [] then corked else CorkedAtLast(if up[0].CorkCommand? then up[0].on else corked, up[1..])
  }

  predicate FlushedAtLast(up: seq<Message>) {
    up != [] && up[|up| - 1].FlushCommand?
  }

  /** Deliver every packet the client has sent. */
  lemma {:induction false} EmptyUp(s: State) returns (steps: seq<Step>, t: State)
    requires Inv(s)
    ensures Feasible(s, steps) && ClientIdle(steps) && t == Run(s, steps)
    ensures Inv(t) && t.loop.Idle? && t.up == [] && t.attr == s.attr && t.corked == CorkedAtLast(s.corked, s.up)
    ensures s.up == [] && s.loop.Observing? ==> t.fill == s.fill
    ensures FlushedAtLast(s.up) ==> t.fill == 0
    decreases |s.up|
  {
    steps, t := Finished(s);
    if t.up != [] {
      var t1 := TakeOne(t);
      var more, u := EmptyUp(t1);
      Through(s, steps, Receive, more);
      steps, t := steps + ([Receive] + more), u;
    }
  }

  /** The handler run to its end. */
  lemma Finished(s: State) returns (steps: seq<Step>, t: State)
    requires Inv(s)
    ensures Feasible(s, steps) && ClientIdle(steps) && t == Run(s, steps)
    ensures Inv(t) && t.loop.Idle? && t.up == s.up && t.attr == s.attr && t.corked == s.corked
    ensures s.loop.Observing? ==> t.fill == s.fill
  {
    FinishHandler(s);
    steps := HandlerTail(s.loop);
    t := Run(s, steps);
  }

  lemma TakeOne(s: State) returns (t: State)
    requires Inv(s) && s.loop.Idle? && s.up != []
    ensures Enabled(s, Receive) && t == Apply(s, Receive) && Inv(t) && t.up == s.up[1..] && t.attr == s.attr
    ensures t.corked == if s.up[0].CorkCommand? then s.up[0].on else s.corked
    ensures s.up[0].FlushCommand? ==> t.fill == 0 && t.loop.Observing?
  {
    StepKeepsInv(s, Receive);
    t := Apply(s, Receive);
  }

  lemma Through(s: State, a: seq<Step>, step: Step, b: seq<Step>)
    requires Feasible(s, a) && Enabled(Run(s, a), step) && Feasible(Apply(Run(s, a), step), b)
    ensures Feasible(s, a + ([step] + b)) && Run(s, a + ([step] + b)) == Run(Apply(Run(s, a), step), b)
  {
    One(Run(s, a), step);
    RunAppend(Run(s, a), [step], b);
    RunAppend(s, a, [step] + b);
  }

  /** Deliver every grant the server has sent. */
  lemma {:induction false} EmptyDown(s: State) returns (steps: seq<Step>, t: State)
    requires Inv(s)
    ensures Feasible(s, steps) && ClientIdle(steps) && t == Run(s, steps)
    ensures Inv(t) && t.down == [] && t == s.(down := [], credit := t.credit)
    decreases |s.down|
  {
    steps, t := [], s;
    if s.down != [] {
      StepKeepsInv(s, TakeCredit);
      var more, u := EmptyDown(Apply(s, TakeCredit));
      Through(s, [], TakeCredit, more);
      steps, t := [] + ([TakeCredit] + more), u;
    }
  }

  /** One more look at the ring, the handler run to its end. */
  lemma PumpOnce(s: State) returns (steps: seq<Step>, t: State)
    requires Inv(s) && s.loop.Idle? && s.up == []
    ensures Feasible(s, steps) && ClientIdle(steps) && t == Run(s, steps)
    ensures Inv(t) && t.loop.Idle? && t.up == [] && t.fill == s.fill && t.current && t.attr == s.attr
    ensures t.outstanding == if Asks(s.attr, s.fill, s.outstanding) then s.attr.tlength - s.fill else s.outstanding
  {
    StepKeepsInv(s, Pump);
    var t1 := Apply(s, Pump);
    StepKeepsInv(t1, Observe);
    var t2 := Apply(t1, Observe);
    StepKeepsInv(t2, Decide);
    t := Apply(t2, Decide);
    One(t2, Decide);
    Through(t1, [], Observe, [Decide]);
    Through(s, [], Pump, [] + ([Observe] + [Decide]));
    steps := [] + ([Pump] + ([] + ([Observe] + [Decide])));
  }

  /** The ring played out, which only an uncorked stream's is, and one look at it. */
  lemma PlayOut(s: State) returns (steps: seq<Step>, t: State)
    requires Inv(s) && s.loop.Idle? && s.up == [] && !s.corked
    ensures Feasible(s, steps) && ClientIdle(steps) && t == Run(s, steps)
    ensures Inv(t) && t.loop.Idle? && t.up == [] && t.fill == 0 && t.current && t.attr == s.attr
  {
    if s.fill == 0 {
      steps, t := PumpOnce(s);
    } else {
      StepKeepsInv(s, Pop(s.fill));
      var more;
      more, t := PumpOnce(Apply(s, Pop(s.fill)));
      Through(s, [], Pop(s.fill), more);
      steps := [] + ([Pop(s.fill)] + more);
    }
  }

  /** The client only receives, and ends with credit. */
  predicate Earns(s: State, steps: seq<Step>) {
    ClientIdle(steps) && Feasible(s, steps) && Run(s, steps).credit >= 1
  }

  lemma {:induction false} EarnsLater(s: State, first: seq<Step>, rest: seq<Step>)
    requires Feasible(s, first) && ClientIdle(first) && Earns(Run(s, first), rest)
    ensures Earns(s, first + rest)
  {
    RunAppend(s, first, rest);
  }

  /** With nothing on its way to the server and the stream uncorked: play what is buffered, pump once, and deliver
      the grant. */
  lemma Refill(s: State) returns (steps: seq<Step>)
    requires Inv(s) && s.loop.Idle? && s.up == [] && !s.corked
    ensures Earns(s, steps)
  {
    var a, t := PlayOut(s);
    var b, u := EmptyDown(t);
    RunAppend(s, a, b);
    steps := a + b;
  }

  /** Nothing more will be granted: at or beyond the target, or too close to it. */
  predicate Dry(s: State) {
    s.outstanding < 1 && (s.fill >= s.attr.tlength || !Asks(s.attr, s.fill, s.outstanding))
  }

  /** The same while the loop looks at the ring. */
  predicate Waits(s: State) {
    && s.corked && s.up == [] && Dry(s)
    && !s.loop.Pushing? && (s.loop.Deciding? ==> s.loop.seen == s.fill)
  }

  lemma {:induction false} WaitsForEver(s: State, steps: seq<Step>)
    requires Inv(s) && Waits(s) && Feasible(s, steps) && ClientIdle(steps)
    ensures Run(s, steps).credit < 1
    decreases |steps|
  {
    if steps != [] {
      assert steps[0] in steps && forall step :: step in steps[1..] ==> step in steps;
      StepKeepsInv(s, steps[0]);
      WaitsForEver(Apply(s, steps[0]), steps[1..]);
    }
  }

  /** At rest the condition is enough: deliver what is granted, or look once more and then deliver. */
  lemma NotDryEarns(s: State) returns (steps: seq<Step>)
    requires Inv(s) && s.loop.Idle? && s.up == [] && !Dry(s)
    ensures Earns(s, steps)
  {
    var a, t := PumpOnce(s);
    var b, u := EmptyDown(t);
    RunAppend(s, a, b);
    steps := a + b;
  }

  /**
   Between two commands, with everything the client sent received: the client gets credit without sending anything
   exactly when the stream is uncorked, or credit is already on its way to it, or the ring is short of its target
   by enough to be asked for.
   */
  lemma CreditComesBackIff(a: Attr, corked: bool, history: seq<Step>)
    requires Sane(a) && Feasible(Init(a, corked), history)
    requires Run(Init(a, corked), history).loop.Idle? && Run(Init(a, corked), history).up == []
    ensures var s := Run(Init(a, corked), history);
            (exists steps :: Earns(s, steps)) <==>
              || !s.corked || s.outstanding >= 1
              || (Asks(s.attr, s.fill, s.outstanding) && s.fill < s.attr.tlength)
  {
    var s := Run(Init(a, corked), history);
    EveryRunKeepsInv(Init(a, corked), history);
    if !s.corked {
      var steps := Refill(s);
    } else if !Dry(s) {
      var steps := NotDryEarns(s);
    } else {
      forall steps ensures !Earns(s, steps) {
        if ClientIdle(steps) && Feasible(s, steps) {
          WaitsForEver(s, steps);
        }
      }
    }
  }

  /** A corked client that writes all that it was granted gets nothing more as long as it only waits. */
  lemma CorkedClientWaits(a: Attr)
    requires Sane(a)
    ensures var steps := [TakeCredit, Write(a.tlength), Receive, Push, Observe, Decide];
            && Feasible(Init(a, true), steps)
            && forall more :: !Earns(Run(Init(a, true), steps), more)
  {
    var steps := [TakeCredit, Write(a.tlength), Receive, Push, Observe, Decide];
    var s := Filled(a);
    EveryRunKeepsInv(Init(a, true), steps);
    forall more ensures !Earns(s, more) {
      if ClientIdle(more) && Feasible(s, more) {
        WaitsForEver(s, more);
      }
    }
  }

  lemma Filled(a: Attr) returns (s: State)
    requires Sane(a)
    ensures var steps := [TakeCredit, Write(a.tlength), Receive, Push, Observe, Decide];
            Feasible(Init(a, true), steps) && s == Run(Init(a, true), steps)
    ensures s == State(a, 0, a.tlength, true, Idle, [], [], 0, a.tlength, true, 0)
  {
    var s1 := Apply(Init(a, true), TakeCredit);
    assert s1 == State(a, a.tlength, 0, true, Idle, [], [], a.tlength, 0, true, 0);
    var s2 := Apply(s1, Write(a.tlength));
    assert s2 == State(a, a.tlength, 0, true, Idle, [Data(a.tlength)], [], 0, 0, true, 0);
    var s3 := Apply(s2, Receive);
    assert s3 == State(a, 0, 0, true, Pushing(a.tlength), [], [], 0, 0, true, 0);
    var s4 := Apply(s3, Push);
    var s5 := Apply(s4, Observe);
    s := Apply(s5, Decide);
    assert s == State(a, 0, a.tlength, true, Idle, [], [], 0, a.tlength, true, 0);
    One(s5, Decide);
    RunAppend(s4, [Observe], [Decide]);
    RunAppend(s3, [Push], [Observe] + [Decide]);
    RunAppend(s2, [Receive], [Push] + ([Observe] + [Decide]));
    RunAppend(s1, [Write(a.tlength)], [Receive] + ([Push] + ([Observe] + [Decide])));
    RunAppend(Init(a, true), [TakeCredit], [Write(a.tlength)] + ([Receive] + ([Push] + ([Observe] + [Decide]))));
    assert [TakeCredit] + ([Write(a.tlength)] + ([Receive] + ([Push] + ([Observe] + [Decide]))))
           == [TakeCredit, Write(a.tlength), Receive, Push, Observe, Decide];
  }

  /**
   An uncorked stream cannot deadlock: from every reachable state in which it is uncorked, or will be once
   everything sent has been received, there is a continuation in which the client only receives, the server and
   the render thread do their work, and the client ends with credit.
   */
  lemma CreditAlwaysComesBack(a: Attr, corked: bool, history: seq<Step>) returns (steps: seq<Step>)
    requires Sane(a) && Feasible(Init(a, corked), history)
    requires var s := Run(Init(a, corked), history); !CorkedAtLast(s.corked, s.up)
    ensures Earns(Run(Init(a, corked), history), steps)
  {
    var s := Run(Init(a, corked), history);
    EveryRunKeepsInv(Init(a, corked), history);
    var first, t := EmptyUp(s);
    var rest := Refill(t);
    EarnsLater(s, first, rest);
    steps := first + rest;
  }

  lemma {:induction false} LastWord(corked: bool, up: seq<Message>, m: Message)
    ensures m.CorkCommand? ==> CorkedAtLast(corked, up + [m]) == m.on
    decreases |up|
  {
    if up != [] {
      assert (up + [m])[1..] == up[1..] + [m];
      LastWord(if up[0].CorkCommand? then up[0].on else corked, up[1..], m);
    }
  }

  /** In any state one command of the client is enough: to uncork the stream, or to flush it, even if it is corked. */
  lemma OneCommandIsEnough(a: Attr, corked: bool, history: seq<Step>, command: Step) returns (steps: seq<Step>)
    requires Sane(a) && Feasible(Init(a, corked), history)
    requires command == SendCork(false) || command == SendFlush
    ensures Earns(Apply(Run(Init(a, corked), history), command), steps)
  {
    var s := Run(Init(a, corked), history);
    EveryRunKeepsInv(Init(a, corked), history);
    StepKeepsInv(s, command);
    var s1 := Apply(s, command);
    var first, t := EmptyUp(s1);
    var rest;
    if command.SendFlush? {
      rest := NotDryEarns(t);
    } else {
      LastWord(s.corked, s.up, CorkCommand(false));
      rest := Refill(t);
    }
    EarnsLater(s1, first, rest);
    steps := first + rest;
  }

  // ---- a client that stays within its credit loses nothing ----

  /** Every write of the run is covered by the credit the client holds at that moment. */
  predicate Polite(s: State, steps: seq<Step>)
    requires Feasible(s, steps)
    decreases |steps|
  {
    steps == [] ||
    ((steps[0].Write? ==> steps[0].len <= s.credit) && Polite(Apply(s, steps[0]), steps[1..]))
  }

  lemma PoliteStepKeepsAll(s: State, step: Step)
    requires Inv(s) && s.credit >= 0 && Enabled(s, step) && (step.Write? ==> step.len <= s.credit)
    ensures Apply(s, step).credit >= 0 && Apply(s, step).dropped == s.dropped
  {
  }

  lemma {:induction false} PoliteRunKeepsAll(s: State, steps: seq<Step>)
    requires Inv(s) && s.credit >= 0 && Feasible(s, steps) && Polite(s, steps)
    ensures Run(s, steps).credit >= 0 && Run(s, steps).dropped == s.dropped
    decreases |steps|
  {
    if steps != [] {
      StepKeepsInv(s, steps[0]);
      PoliteStepKeepsAll(s, steps[0]);
      PoliteRunKeepsAll(Apply(s, steps[0]), steps[1..]);
    }
  }

  lemma WithinCreditNothingIsDropped(a: Attr, corked: bool, steps: seq<Step>)
    requires Sane(a) && Feasible(Init(a, corked), steps) && Polite(Init(a, corked), steps)
    ensures Run(Init(a, corked), steps).dropped == 0
  {
    PoliteRunKeepsAll(Init(a, corked), steps);
  }
}
