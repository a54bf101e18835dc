/**
 The AVC encoder session: one access unit out for every frame in, from an encoder that holds back some
 frames.  The encoder holds back exactly `delay` frames, the number measured when the session was opened:
 it gives up the oldest ones it holds beyond those, as many at a time as it likes.
 */
module AvcSession {
  import opened Arithmetic
  import opened Sequences

  /** A frame in the encoder, and the access unit it becomes. */
  datatype Unit = Unit(frame: nat, ts: int)

  /** How the encoder behaves while a frame is queued: a free buffer at once, or one after it has given up
      some output; and whether the frame fits it and is accepted. */
  datatype Entry = Entry(free: bool, gives: nat, freeLater: bool, fits: bool, accepted: bool)

  predicate Takes(e: Entry) {
    (e.free || e.freeLater) && e.fits && e.accepted
  }

  datatype Input = NoFrame | BadPlanes | Frame(frame: nat, ts: int)

  datatype Answer = Header | Last | Fail | Output(unit: Unit)

  /** How the outside behaves during one call: the queueing of the frame and of its copies, the output found
      at each poll before the deadline, and whether the answer fits the caller's buffer. */
  datatype Turn = Turn(entry: Entry, copies: seq<Entry>, polls: seq<nat>, fits: bool, headerFits: bool)

  /** The encoder does not keep the caller waiting once it has something to give. */
  predicate Prompt(t: Turn) {
    exists i :: 0 <= i < |t.polls| && t.polls[i] > 0
  }

  /** Nothing goes wrong in the encoder. */
  predicate Smooth(t: Turn) {
    Takes(t.entry) && (forall k :: 0 <= k < |t.copies| ==> Takes(t.copies[k])) && Prompt(t)
  }

  /** How far apart the copies of the first frame are, in microseconds. */
  function Step(fps: nat, delay: nat): nat
    requires fps > 0
  {
    Div(Div(1000000, fps), delay + 1)
  }

  /** The copies' timestamps are strictly inside the frame's own interval exactly when the rate leaves room for them. */
  lemma CopiesFitTheInterval(fps: nat, delay: nat)
    requires fps > 0 && delay > 0
    ensures (forall k :: 1 <= k <= delay ==> 0 < Step(fps, delay) * k < 1000000 / fps) <==> fps * (delay + 1) <= 1000000
  {
    var interval, step := 1000000 / fps, Step(fps, delay);
    StepIsPositive(fps, delay);
    if step >= 1 {
      forall k | 1 <= k <= delay ensures 0 < step * k < interval {
        Mono(1, k, step);
        Mono(k, delay, step);
        assert step * (delay + 1) <= interval;
        assert step * (delay + 1) == delay * step + step;
      }
    } else {
      assert !(0 < step * 1);
    }
  }

  /** At 300000 frames a second and a delay of 3 they all share the frame's own timestamp. */
  lemma CopiesThatDoNotFit(frame: nat, ts: int)
    ensures Copies(frame, ts, Step(300000, 3), 3) == [Unit(frame, ts), Unit(frame, ts), Unit(frame, ts)]
  {
    assert Step(300000, 3) == 0;
  }

  lemma StepIsPositive(fps: nat, delay: nat)
    requires fps > 0
    ensures Step(fps, delay) >= 1 <==> fps * (delay + 1) <= 1000000
  {
    DivAtLeast(1000000, fps, delay + 1);
    DivAtLeast(1000000 / fps, delay + 1, 1);
  }

  class Session {
    const fps: nat
    const delay: nat
    var headerDone: bool
    var queued: nat
    var returned: nat
    var packets: seq<Unit>
    var inside: seq<Unit>          // the encoder's
    ghost var accepted: seq<Unit>  // every frame the encoder has taken
    ghost var taken: seq<Unit>     // every access unit taken from it

    /** Access units leave in the order their frames came, none lost or duplicated, and the encoder keeps its delay. */
    ghost predicate Valid()
      reads this
    {
      && fps > 0
      && taken + packets + inside == accepted && queued == |accepted| && returned == |taken|
      && (|packets| + |taken| > 0 ==> |inside| >= delay)
    }

    /** Between calls the encoder has never more than its delay to work on. */
    ghost predicate AtRest()
      reads this
    {
      queued <= returned + delay
    }

    /** Nothing yet, or exactly `delay` frames to come. */
    ghost predicate Steady()
      reads this
    {
      queued == 0 || queued == returned + delay
    }

    constructor (fps: nat, delay: nat)
      requires fps > 0
      ensures Valid() && AtRest() && !headerDone && accepted == [] && taken == []
      ensures this.fps == fps && this.delay == delay
    {
      this.fps, this.delay := fps, delay;
      headerDone, queued, returned, packets, inside, accepted, taken := false, 0, 0, [], [], [], [];
    }

    /** Collects the output that is ready. */
    method Poll(gives: nat)
      requires Valid()
      modifies this`packets, this`inside
      ensures Valid() && |packets| + |inside| == |old(packets)| + |old(inside)| && |old(packets)| <= |packets|
      ensures gives > 0 && |old(inside)| > delay ==> |packets| > 0
    {
      var i := 0;
      while i < gives && |inside| > delay
        invariant Valid() && |packets| + |inside| == |old(packets)| + |old(inside)|
        invariant |packets| == |old(packets)| + i && 0 <= i <= gives
      {
        ComesOut(taken, packets, inside);
        packets, inside := packets + [inside[0]], inside[1..];
        i := i + 1;
      }
    }

    method Queue(u: Unit, e: Entry) returns (ok: bool)
      requires Valid()
      modifies this`packets, this`inside, this`accepted, this`queued
      ensures Valid() && ok == Takes(e)
      ensures accepted == if ok then old(accepted) + [u] else old(accepted)
    {
      var free := e.free;
      if !free {
        Poll(e.gives);
        free := e.freeLater;
      }
      if !free || !e.fits || !e.accepted {
        return false;
      }
      ComesIn(taken, packets, inside, u);
      inside, accepted, queued := inside + [u], accepted + [u], queued + 1;
      ok := true;
    }

    /** The next access unit, or none before the deadline. */
    method Next(polls: seq<nat>) returns (ok: bool, u: Unit)
      requires Valid()
      modifies this`packets, this`inside, this`taken, this`returned
      ensures Valid()
      ensures ok ==> taken == old(taken) + [u]
      ensures !ok ==> taken == old(taken)
      ensures ok ==> |old(packets)| + |old(inside)| > delay
      ensures |old(packets)| + |old(inside)| > delay && (exists i :: 0 <= i < |polls| && polls[i] > 0) ==> ok
    {
      var i := 0;
      while packets == [] && i < |polls|
        invariant Valid() && |packets| + |inside| == |old(packets)| + |old(inside)| && 0 <= i <= |polls|
        invariant taken == old(taken)
        invariant packets == [] && |inside| > delay ==> forall j :: 0 <= j < i ==> polls[j] == 0
      {
        Poll(polls[i]);
        i := i + 1;
      }
      if packets == [] {
        return false, Unit(0, 0);
      }
      u := packets[0];
      GoesOut(taken, packets, inside);
      taken, packets, returned := taken + [packets[0]], packets[1..], returned + 1;
      ok := true;
    }

    /** The first frame again, `delay` times, at timestamps inside its own interval. */
    method QueueCopies(frame: nat, ts: int, copies: seq<Entry>) returns (ok: bool)
      requires Valid() && |copies| == delay
      modifies this`packets, this`inside, this`accepted, this`queued
      ensures Valid() && old(accepted) <= accepted <= old(accepted) + Copies(frame, ts, Step(fps, delay), delay)
      ensures ok ==> accepted == old(accepted) + Copies(frame, ts, Step(fps, delay), delay)
      ensures !ok ==> |accepted| < |old(accepted)| + delay
      ensures ok <==> forall k :: 0 <= k < delay ==> Takes(copies[k])
    {
      var step := Step(fps, delay);
      ghost var all := Copies(frame, ts, step, delay);
      for k := 1 to delay + 1
        invariant Valid() && accepted == old(accepted) + all[..k - 1]
        invariant forall j :: 0 <= j < k - 1 ==> Takes(copies[j])
      {
        ok := Queue(Copy(frame, ts, step, k), copies[k - 1]);
        if !ok {
          return;
        }
        NextCopy(old(accepted), all, k);
      }
      ok := true;
      assert all[..delay] == all;
    }

    /** The frame into the encoder, and its copies if it is the first. */
    method PutIn(input: Input, t: Turn) returns (ok: bool)
      requires Valid() && |t.copies| == delay && input.Frame?
      modifies this`packets, this`inside, this`accepted, this`queued
      ensures Valid() && old(accepted) <= accepted
      ensures ok ==> accepted == old(accepted) + Entered(input, old(queued) == 0, Step(fps, delay), delay)
      ensures !ok ==> if old(queued) == 0 then |accepted| <= delay else accepted == old(accepted)
      ensures Smooth(t) ==> ok
    {
      ok := Queue(Unit(input.frame, input.ts), t.entry);
      if ok && queued == 1 && delay > 0 {
        ok := QueueCopies(input.frame, input.ts, t.copies);
        if ok {
          Assoc(old(accepted), [Unit(input.frame, input.ts)], Copies(input.frame, input.ts, Step(fps, delay), delay));
        }
      }
    }

    /**
     One call.  With a prompt encoder, the state between calls is kept whatever fails; a call that returns
     an access unit returns the oldest, and leaves exactly `delay` frames to come.  An access unit that comes but
     does not fit the caller's buffer counts as returned, and is lost.
     */
    method Encode(input: Input, t: Turn) returns (a: Answer)
      requires Valid() && |t.copies| == delay
      modifies this
      ensures Valid() && old(accepted) <= accepted && old(taken) <= taken
      ensures !input.Frame? ==> accepted == old(accepted) && taken == old(taken) && !a.Output?
      ensures headerDone == (old(headerDone) || input.NoFrame?)
      ensures input.NoFrame? ==> a == if old(headerDone) then Last else if t.headerFits then Header else Fail
      ensures input.BadPlanes? ==> a == Fail
      ensures a.Output? ==> accepted == old(accepted) + Entered(input, old(queued) == 0, Step(fps, delay), delay)
      ensures taken != old(taken) ==> |taken| == |old(taken)| + 1
      ensures input.Frame? ==> a == if taken != old(taken) && t.fits then Output(taken[|old(taken)|]) else Fail
      ensures Prompt(t) && old(AtRest()) ==> AtRest()
      ensures old(AtRest()) && taken != old(taken) ==> queued == returned + delay
      ensures old(Steady()) && input.Frame? && Smooth(t) ==>
                && taken != old(taken) && Steady()
                && accepted == old(accepted) + Entered(input, old(queued) == 0, Step(fps, delay), delay)
    {
      match input {
        case NoFrame =>
          if !headerDone {
            headerDone := true;
            return if t.headerFits then Header else Fail;
          }
          return Last;
        case BadPlanes =>
          return Fail;
        case Frame(_, _) =>
          var ok := PutIn(input, t);
          if !ok {
            return Fail;
          }
          var u;
          ok, u := Next(t.polls);
          if !ok || !t.fits {
            return Fail;
          }
          a := Output(u);
      }
    }
  }

  function Copy(frame: nat, ts: int, step: nat, k: nat): Unit {
    Unit(frame, ts + step * k)
  }

  /** The copies of the first frame, the k-th at k steps. */
  function Copies(frame: nat, ts: int, step: nat, delay: nat): (c: seq<Unit>)
    ensures |c| == delay
  {
    seq(delay, i requires 0 <= i < delay => Copy(frame, ts, step, i + 1))
  }

  /** What a successful call puts into the encoder. */
  function Entered(input: Input, first: bool, step: nat, delay: nat): seq<Unit>
    requires input.Frame?
  {
    [Unit(input.frame, input.ts)] + if first then Copies(input.frame, input.ts, step, delay) else []
  }

  lemma NextCopy(a: seq<Unit>, all: seq<Unit>, k: nat)
    requires 1 <= k <= |all|
    ensures (a + all[..k - 1]) + [all[k - 1]] == a + all[..k]
  {
  }

  lemma Leads(a: seq<Unit>, b: seq<Unit>, c: seq<Unit>)
    ensures |a| <= |a + b + c| && forall i :: 0 <= i < |a| ==> (a + b + c)[i] == a[i]
  {
  }

  /** What a recording puts into the encoder. */
  function AllEntered(inputs: seq<Input>, step: nat, delay: nat): seq<Unit>
    requires forall i :: 0 <= i < |inputs| ==> inputs[i].Frame?
  {
    if inputs == [] then []
    else AllEntered(inputs[..|inputs| - 1], step, delay) + Entered(inputs[|inputs| - 1], |inputs| == 1, step, delay)
  }

  /**
   A recording with an encoder that does its part: call i gets the i-th of the access units in the order in which
   the frames and the copies of the first went in.  If its buffer is too small the call fails, that access unit
   is lost, and the next call gets the next one.
   */
  method Record(fps: nat, delay: nat, inputs: seq<Input>, turns: seq<Turn>) returns (answers: seq<Answer>)
    requires fps > 0 && |turns| == |inputs|
    requires forall i :: 0 <= i < |inputs| ==> inputs[i].Frame? && |turns[i].copies| == delay && Smooth(turns[i])
    ensures |answers| == |inputs| <= |AllEntered(inputs, Step(fps, delay), delay)|
    ensures forall i :: 0 <= i < |inputs| ==>
              answers[i] == if turns[i].fits then Output(AllEntered(inputs, Step(fps, delay), delay)[i]) else Fail
  {
    var s := new Session(fps, delay);
    answers := [];
    for n := 0 to |inputs|
      invariant fresh(s) && s.Valid() && s.Steady() && s.AtRest() && s.fps == fps && s.delay == delay
      invariant |answers| == n == |s.taken| && s.accepted == AllEntered(inputs[..n], Step(fps, delay), delay)
      invariant forall i :: 0 <= i < n ==> answers[i] == if turns[i].fits then Output(s.taken[i]) else Fail
      invariant s.queued == 0 <==> n == 0
    {
      var a := s.Encode(inputs[n], turns[n]);
      answers := answers + [a];
      assert inputs[..n + 1][..n] == inputs[..n];
    }
    assert inputs[..|inputs|] == inputs;
    Leads(s.taken, s.packets, s.inside);
  }

  /**
   Calls of any kind: the first without a frame answers the header, if it fits, and every later one says that it is
   the last; bad planes are refused; and only a call with a frame returns an access unit.
   */
  method Answers(fps: nat, delay: nat, inputs: seq<Input>, turns: seq<Turn>) returns (answers: seq<Answer>)
    requires fps > 0 && |turns| == |inputs| && forall i :: 0 <= i < |turns| ==> |turns[i].copies| == delay
    ensures |answers| == |inputs|
    ensures forall i :: 0 <= i < |inputs| ==>
              match inputs[i]
              case NoFrame => answers[i] == if NoFrame in inputs[..i] then Last
                                            else if turns[i].headerFits then Header else Fail
              case BadPlanes => answers[i] == Fail
              case Frame(_, _) => answers[i].Output? || answers[i] == Fail
  {
    var s := new Session(fps, delay);
    answers := [];
    for n := 0 to |inputs|
      invariant fresh(s) && s.Valid() && s.fps == fps && s.delay == delay && |answers| == n
      invariant s.headerDone <==> NoFrame in inputs[..n]
      invariant forall i :: 0 <= i < n ==>
                  match inputs[i]
                  case NoFrame => answers[i] == if NoFrame in inputs[..i] then Last
                                                else if turns[i].headerFits then Header else Fail
                  case BadPlanes => answers[i] == Fail
                  case Frame(_, _) => answers[i].Output? || answers[i] == Fail
    {
      var a := s.Encode(inputs[n], turns[n]);
      answers := answers + [a];
      assert inputs[..n + 1] == inputs[..n] + [inputs[n]];
    }
  }
}
