/**
 What the render thread does at each turn, and what the client is told, from the history alone: what the loop asked
 for last, and what was done since.
 */
module SinkEvents {
  import opened Bytes
  import opened SinkSpec
  import opened SinkRuns

  // ---- what the history says ----

  /** As it was set last; a new sink is corked. */
  function CorkedNow(steps: seq<Step>): bool {
    if steps == [] then true
    else
      var last := steps[|steps| - 1];
      if last.SetCorked? then last.on else CorkedNow(steps[..|steps| - 1])
  }

  /** None of these since. */
  predicate NoneSince(log: seq<Deed>, i: nat, deeds: set<Deed>) {
    forall j :: i < j < |log| ==> log[j] !in deeds
  }

  /** A drain was asked for, and since then neither begun nor dropped by a flush. */
  predicate DrainWanted(log: seq<Deed>) {
    exists i :: 0 <= i < |log| && log[i] == Asked && NoneSince(log, i, {Emptied, DrainBegun})
  }

  /** The renderer was written to, and since then the ring neither ran dry nor was flushed. */
  predicate Playing(log: seq<Deed>) {
    exists i :: 0 <= i < |log| && log[i] == Wrote && NoneSince(log, i, {Emptied, RanDry})
  }

  /** The first write of a stretch of playing, not told yet. */
  predicate StartedUntold(log: seq<Deed>) {
    exists i :: 0 <= i < |log| && log[i] == Wrote && !Playing(log[..i]) && NoneSince(log, i, {Told})
  }

  predicate UnderflowUntold(log: seq<Deed>) {
    exists i :: 0 <= i < |log| && log[i] == RanDry && NoneSince(log, i, {Told})
  }

  predicate DrainedUntold(log: seq<Deed>) {
    exists i :: 0 <= i < |log| && log[i] == DrainEnded && NoneSince(log, i, {Told})
  }

  // ---- one more deed ----

  lemma Snoc(log: seq<Deed>, d: Deed)
    ensures forall i :: 0 <= i < |log| ==> (log + [d])[i] == log[i] && (log + [d])[..i] == log[..i]
    ensures (log + [d])[|log|] == d && (log + [d])[..|log|] == log
  {
  }

  lemma NoneSinceSnoc(log: seq<Deed>, d: Deed, i: nat, deeds: set<Deed>)
    requires i < |log|
    ensures NoneSince(log + [d], i, deeds) <==> NoneSince(log, i, deeds) && d !in deeds
  {
    assert (log + [d])[|log|] == d;
    assert forall j :: 0 <= j < |log| ==> (log + [d])[j] == log[j];
  }

  lemma DrainWantedSnoc(log: seq<Deed>, d: Deed)
    ensures DrainWanted(log + [d]) <==> d == Asked || (DrainWanted(log) && d != Emptied && d != DrainBegun)
  {
    Snoc(log, d);
    assert NoneSince(log + [d], |log|, {Emptied, DrainBegun});
    forall i | 0 <= i < |log|
      ensures NoneSince(log + [d], i, {Emptied, DrainBegun}) <==>
                NoneSince(log, i, {Emptied, DrainBegun}) && d !in {Emptied, DrainBegun}
    {
      NoneSinceSnoc(log, d, i, {Emptied, DrainBegun});
    }
  }

  lemma PlayingSnoc(log: seq<Deed>, d: Deed)
    ensures Playing(log + [d]) <==> d == Wrote || (Playing(log) && d != Emptied && d != RanDry)
  {
    Snoc(log, d);
    assert NoneSince(log + [d], |log|, {Emptied, RanDry});
    forall i | 0 <= i < |log|
      ensures NoneSince(log + [d], i, {Emptied, RanDry}) <==>
                NoneSince(log, i, {Emptied, RanDry}) && d !in {Emptied, RanDry}
    {
      NoneSinceSnoc(log, d, i, {Emptied, RanDry});
    }
  }

  lemma UntoldSnoc(log: seq<Deed>, d: Deed)
    ensures StartedUntold(log + [d]) <==> (d == Wrote && !Playing(log)) || (StartedUntold(log) && d != Told)
    ensures UnderflowUntold(log + [d]) <==> d == RanDry || (UnderflowUntold(log) && d != Told)
    ensures DrainedUntold(log + [d]) <==> d == DrainEnded || (DrainedUntold(log) && d != Told)
  {
    Snoc(log, d);
    assert NoneSince(log + [d], |log|, {Told});
    forall i | 0 <= i < |log| ensures NoneSince(log + [d], i, {Told}) <==> NoneSince(log, i, {Told}) && d != Told {
      NoneSinceSnoc(log, d, i, {Told});
    }
  }

  // ---- the sink agrees with it ----

  /** Flags and pending events are what was done. */
  predicate Remembered(sink: Sink, log: seq<Deed>) {
    && (sink.drainRequested <==> DrainWanted(log))
    && (sink.playing <==> Playing(log))
    && (sink.pending.started <==> StartedUntold(log))
    && (sink.pending.underflow <==> UnderflowUntold(log))
    && (sink.pending.drained <==> DrainedUntold(log))
  }

  lemma Remembers(sink: Sink, log: seq<Deed>, next: Sink, d: Deed)
    requires Remembered(sink, log)
    requires next.drainRequested <==> d == Asked || (sink.drainRequested && d != Emptied && d != DrainBegun)
    requires next.playing <==> d == Wrote || (sink.playing && d != Emptied && d != RanDry)
    requires next.pending.started <==> (d == Wrote && !sink.playing) || (sink.pending.started && d != Told)
    requires next.pending.underflow <==> d == RanDry || (sink.pending.underflow && d != Told)
    requires next.pending.drained <==> d == DrainEnded || (sink.pending.drained && d != Told)
    ensures Remembered(next, log + [d])
  {
    DrainWantedSnoc(log, d);
    PlayingSnoc(log, d);
    UntoldSnoc(log, d);
  }

  lemma StepRemembers(h: State, step: Step)
    requires Enabled(h, step) && Oldest(h) >= 0 && Remembered(h.sink, h.log)
    ensures Remembered(Apply(h, step).sink, Apply(h, step).log)
  {
    var t := Apply(h, step);
    if t.log != h.log {
      Remembers(h.sink, h.log, t.sink, t.log[|h.log|]);
    }
  }

  lemma {:induction false} EveryRunRemembers(h: State, steps: seq<Step>, t: State)
    requires Remembered(h.sink, h.log) && Reaches(h, steps, t)
    ensures Remembered(t.sink, t.log)
    decreases |steps|
  {
    if steps != [] {
      StepRemembers(h, steps[0]);
      EveryRunRemembers(Apply(h, steps[0]), steps[1..], t);
    }
  }

  lemma StepKeepsFlags(h: State, step: Step)
    requires Enabled(h, step) && Oldest(h) >= 0
    ensures Apply(h, step).sink.corked == if step.SetCorked? then step.on else h.sink.corked
    ensures Apply(h, step).sink.quit == (h.sink.quit || step.Close?)
  {
  }

  lemma {:induction false} EveryRunAgrees(done: seq<Step>, h: State, steps: seq<Step>, t: State)
    requires Reaches(h, steps, t) && h.sink.corked == CorkedNow(done) && h.sink.quit == (Close in done)
    ensures t.sink.corked == CorkedNow(done + steps) && t.sink.quit == (Close in done + steps)
    decreases |steps|
  {
    if steps == [] {
      assert done + steps == done;
    } else {
      var now := done + [steps[0]];
      assert now[..|done|] == done && now[|done|] == steps[0];
      StepKeepsFlags(h, steps[0]);
      EveryRunAgrees(now, Apply(h, steps[0]), steps[1..], t);
      assert now + steps[1..] == done + steps;
    }
  }

  /** After any history: corked as it was set last, closed once it was closed, and every flag and pending event is
      what the record says. */
  lemma SinkFollowsHistory(size: nat, steps: seq<Step>, t: State)
    requires Reaches(Init(size), steps, t)
    ensures t.sink.corked == CorkedNow(steps) && t.sink.quit == (Close in steps)
    ensures t.sink.drainRequested <==> DrainWanted(t.log)
    ensures t.sink.pending.started <==> StartedUntold(t.log)
    ensures t.sink.pending.underflow <==> UnderflowUntold(t.log)
    ensures t.sink.pending.drained <==> DrainedUntold(t.log)
  {
    EveryRunAgrees([], Init(size), steps, t);
    assert [] + steps == steps;
    EveryRunRemembers(Init(size), steps, t);
  }

  // ---- the render thread's turn ----

  /** What a turn takes out of the ring. */
  function Takes(t: State, closed: bool, corked: bool, chunk: nat): nat {
    if closed || corked then 0 else Min(chunk, |t.sink.queue|)
  }

  /**
   A turn after any history.  It takes bytes exactly when the sink is open, uncorked and not empty, and then as many
   as it can; a wanted drain begins exactly when the ring is empty, corked or not; otherwise a corked sink pauses
   a running renderer, and an uncorked one that was playing has run dry.
   */
  lemma TurnExactly(size: nat, steps: seq<Step>, t: State, chunk: nat, running: bool)
    requires Reaches(Init(size), steps, t) && Oldest(t) >= 0 && Enabled(t, Turn(chunk, running))
    ensures var closed, corked := Close in steps, CorkedNow(steps);
            var u := Apply(t, Turn(chunk, running));
            var n := Takes(t, closed, corked, chunk);
            var empty := |t.sink.queue| == 0;
            && u.popped == t.popped + Range(Oldest(t), n) && u.drawn == t.drawn + t.sink.queue[..n]
            && u.sink.queue == t.sink.queue[n..]
            && (u.hand.Holding? <==> n > 0)
            && (u.hand.Draining? <==> !closed && empty && DrainWanted(t.log))
            && (u.hand.Gone? <==> closed)
            && (RanDry in u.log[|t.log|..] <==> !closed && !corked && empty && !DrainWanted(t.log) && Playing(t.log))
            && (Decide(t.sink, chunk, running).Pause? <==>
                  !closed && corked && running && !(empty && DrainWanted(t.log)))
  {
    SinkFollowsHistory(size, steps, t);
    EveryRunRemembers(Init(size), steps, t);
  }

  /** Between two hands of the thread: a chunk that was taken is written, and a drain that was begun has ended. */
  lemma FinishExactly(h: State)
    requires Enabled(h, Finish) && Oldest(h) >= 0
    ensures var u := Apply(h, Finish);
            && u.hand.Waiting? && u.popped == h.popped && u.sink.queue == h.sink.queue
            && u.log == h.log + [if h.hand.Holding? then Wrote else DrainEnded]
            && u.sink.readIndex == h.sink.readIndex + InHand(h)
  {
  }

  /** From a cork to the next uncork nothing is played, whatever else happens. */
  lemma {:induction false} CorkedIsSilent(h: State, steps: seq<Step>, t: State)
    requires h.sink.corked && Reaches(h, steps, t) && SetCorked(false) !in steps
    ensures t.popped == h.popped && t.drawn == h.drawn && t.sink.corked
    decreases |steps|
  {
    if steps != [] {
      assert steps[0] in steps && forall x :: x in steps[1..] ==> x in steps;
      CorkedStep(h, steps[0]);
      CorkedIsSilent(Apply(h, steps[0]), steps[1..], t);
    }
  }

  lemma CorkedStep(h: State, step: Step)
    requires h.sink.corked && Enabled(h, step) && Oldest(h) >= 0 && step != SetCorked(false)
    ensures Apply(h, step).popped == h.popped && Apply(h, step).drawn == h.drawn && Apply(h, step).sink.corked
  {
  }
}
