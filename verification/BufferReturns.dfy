/**
 Who gives a buffer back that is in flight: RS, unless the destruction of another buffer has reset the queue
 it is in.  Then it is stranded, until a failed flush or the detach of its window collects it.
 */
module BufferReturns {
  import opened BufferBooks
  import opened BufferRuns

  /** Between two requests RS will report exactly what is in flight and not stranded. */
  lemma RsHasWhatIsNotStranded(steps: seq<Step>, sb: SurfaceBuffer)
    requires Feasible(Init(), steps)
    requires Free(Run(Init(), steps)) && sb in Run(Init(), steps).books.inFlight
    ensures sb in Run(Init(), steps).rs <==> sb !in Run(Init(), steps).stranded
  {
    EveryRunKeepsInv(Init(), steps);
    AtRest(Run(Init(), steps), sb);
  }

  lemma AtRest(s: State, sb: SurfaceBuffer)
    requires StrandedOk(s) && StrandedApart(s) && Free(s) && sb in s.books.inFlight
    ensures sb in s.rs <==> sb !in s.stranded
  {
  }

  /** Only the destruction of a buffer strands others. */
  lemma {:induction false} NobodyStrands(s: State, steps: seq<Step>)
    requires Feasible(s, steps) && forall i :: 0 <= i < |steps| ==> !steps[i].Destroy?
    requires s.stranded == {} && !s.pc.Forgetting?
    ensures Run(s, steps).stranded == {} && !Run(s, steps).pc.Forgetting?
    decreases |steps|
  {
    if steps != [] {
      NobodyStrands(Apply(s, steps[0]), steps[1..]);
    }
  }

  /**
   The end of ForgetBuffer, in any run: every queue of an attached window is reset.  What is in flight stays
   in flight, is stranded exactly if it was or its window is attached, and RS keeps exactly the rest.
   */
  lemma ResetAllStrands(steps: seq<Step>, sb: SurfaceBuffer)
    requires Feasible(Init(), steps)
    requires Run(Init(), steps).pc.Forgetting? && sb in Run(Init(), steps).books.inFlight
    ensures var s := Run(Init(), steps);
            var t := Apply(s, DoResetAll);
            var attached := s.books.inFlight[sb].window in s.windows;
            && t.books == s.books && Free(t) == (s.work == [])
            && (sb in t.stranded <==> sb in s.stranded || attached)
            && (sb in t.rs <==> sb in s.rs && !attached)
  {
    EveryRunKeepsInv(Init(), steps);
    ResetAllDrops(Run(Init(), steps), sb);
  }

  lemma ResetAllDrops(s: State, sb: SurfaceBuffer)
    requires Imported(s) && RsOk(s) && s.pc.Forgetting? && sb in s.books.inFlight
    ensures var t := Apply(s, DoResetAll);
            var attached := s.books.inFlight[sb].window in s.windows;
            && t.books == s.books && Free(t) == (s.work == [])
            && (sb in t.stranded <==> sb in s.stranded || attached)
            && (sb in t.rs <==> sb in s.rs && !attached)
  {
    var wl := s.books.inFlight[sb].wl;
    assert wl in s.cache && s.cache[wl] == sb;
  }

  // ---- they come back ----

  /** Handing a list out, one release after the other. */
  function Hands(n: nat): seq<Step> {
    if n == 0 then [] else [DoHand] + Hands(n - 1)
  }

  lemma {:induction false} HandsThemOut(s: State)
    requires s.pc.Handing?
    ensures forall step :: step in Hands(|s.pc.list|) ==> step == DoHand
    ensures Feasible(s, Hands(|s.pc.list|))
    ensures forall wl :: wl in s.pc.list || wl in s.held ==> wl in Run(s, Hands(|s.pc.list|)).held
    decreases |s.pc.list|
  {
    if s.pc.list != [] {
      var t := Apply(s, DoHand);
      HandsThemOut(t);
      Cons(s, DoHand, Hands(|t.pc.list|));
      assert forall wl :: wl in s.pc.list ==> wl == s.pc.list[0] || wl in s.pc.list[1..];
    }
  }

  lemma Cons(s: State, step: Step, rest: seq<Step>)
    requires Enabled(s, step) && Feasible(Apply(s, step), rest)
    ensures Feasible(s, [step] + rest) && Run(s, [step] + rest) == Run(Apply(s, step), rest)
  {
    assert ([step] + rest)[1..] == rest;
  }

  /** Whatever is in flight on the window that is being collected goes back to the client. */
  lemma CollectedComesBack(s: State, found: seq<WlBuffer>, sb: SurfaceBuffer)
    requires s.pc.Collecting? && Enabled(s, DoCollect(found))
    requires sb in s.books.inFlight && s.books.inFlight[sb].window == s.pc.window
    ensures forall step :: step in Hands(|found|) ==> step == DoHand
    ensures Feasible(s, [DoCollect(found)] + Hands(|found|))
    ensures s.books.inFlight[sb].wl in Run(s, [DoCollect(found)] + Hands(|found|)).held
  {
    var t := Apply(s, DoCollect(found));
    assert s.books.inFlight[sb].wl in OnWindow(s.books, s.pc.window);
    HandsThemOut(t);
    Cons(s, DoCollect(found), Hands(|found|));
  }

  lemma {:induction false} ListOf(all: set<WlBuffer>) returns (list: seq<WlBuffer>)
    ensures Enumerates(list, all)
  {
    if all == {} {
      list := [];
    } else {
      var wl :| wl in all;
      var rest := ListOf(all - {wl});
      list := [wl] + rest;
    }
  }

  lemma {:induction false} RunAppend(s: State, a: seq<Step>, b: seq<Step>)
    requires Feasible(s, a) && Feasible(Run(s, a), b)
    ensures Feasible(s, a + b) && Run(s, a + b) == Run(Run(s, a), b)
    decreases |a|
  {
    if a == [] {
      assert a + b == b;
    } else {
      assert (a + b)[0] == a[0] && (a + b)[1..] == a[1..] + b;
      RunAppend(Apply(s, a[0]), a[1..], b);
    }
  }

  /** A failed flush leads to the collection of its window, and loses nothing else from the books. */
  lemma FailedFlushCollects(s: State)
    requires s.pc.Tracked? && !s.pc.again
    ensures var j := s.pc.job;
            var steps := [DoFlush(false)] + ([DoUntrack] + ([DoReset] + []));
            && Feasible(s, steps)
            && Run(s, steps).pc == Collecting(j.window, Retry(j)) && Run(s, steps).books == Untrack(s.books, j.sb)
  {
    var s1 := Apply(s, DoFlush(false));
    var s2 := Apply(s1, DoUntrack);
    Cons(s2, DoReset, []);
    Cons(s1, DoUntrack, [DoReset] + []);
    Cons(s, DoFlush(false), [DoUntrack] + ([DoReset] + []));
  }

  /** When the next flush on its window fails, what is in flight there comes back, stranded or not. */
  lemma ComesBackAfterFailedFlush(s: State, sb: SurfaceBuffer) returns (steps: seq<Step>)
    requires s.pc.Tracked? && !s.pc.again
    requires sb in s.books.inFlight && sb != s.pc.job.sb && s.books.inFlight[sb].window == s.pc.job.window
    ensures Feasible(s, steps) && s.books.inFlight[sb].wl in Run(s, steps).held
    ensures forall step :: step in steps ==> FlushStep(step) || step.DoCollect? || step.DoHand?
  {
    FailedFlushCollects(s);
    var first := [DoFlush(false)] + ([DoUntrack] + ([DoReset] + []));
    var t := Run(s, first);
    var found := ListOf(OnWindow(t.books, t.pc.window));
    CollectedComesBack(t, found, sb);
    RunAppend(s, first, [DoCollect(found)] + Hands(|found|));
    steps := first + ([DoCollect(found)] + Hands(|found|));
  }

  /** When its window's detach closure runs, so does everything in flight there. */
  lemma ComesBackAfterDetach(s: State, sb: SurfaceBuffer) returns (steps: seq<Step>)
    requires s.pc.Detaching?
    requires sb in s.books.inFlight && s.books.inFlight[sb].window == s.pc.window
    ensures Feasible(s, steps) && s.books.inFlight[sb].wl in Run(s, steps).held
  {
    var t := Apply(s, DoDetach);
    var found := ListOf(OnWindow(t.books, t.pc.window));
    CollectedComesBack(t, found, sb);
    Cons(s, DoDetach, [DoCollect(found)] + Hands(|found|));
    steps := [DoDetach] + ([DoCollect(found)] + Hands(|found|));
  }

  // ---- whatever the other threads do meanwhile ----

  predicate InFlightAt(s: State, sb: SurfaceBuffer, wl: WlBuffer, window: Window) {
    sb in s.books.inFlight && s.books.inFlight[sb] == InFlight(wl, window)
  }

  /** The client has it, or will be told with the next round of releases. */
  predicate Returned(s: State, wl: WlBuffer) {
    wl in s.held || wl in s.books.releasedPending
  }

  /** What holds of a buffer of the window from the failed flush, or the start of the detach, to the end of the work. */
  predicate OnItsWayBack(s: State, sb: SurfaceBuffer, wl: WlBuffer) {
    && (HasJob(s) ==> TheJob(s).sb != sb)
    && match s.pc
       case Refused(j, again) => Returned(s, wl) || (!again && InFlightAt(s, sb, wl, j.window))
       case Resetting(j) => Returned(s, wl) || InFlightAt(s, sb, wl, j.window)
       case Detaching(w) => Returned(s, wl) || InFlightAt(s, sb, wl, w)
       case Collecting(w, _) => Returned(s, wl) || InFlightAt(s, sb, wl, w)
       case Handing(list, _) => Returned(s, wl) || wl in list
       case _ => Returned(s, wl)
  }

  lemma FlushStepKeepsOnItsWay(s: State, step: Step, sb: SurfaceBuffer, wl: WlBuffer)
    requires OnItsWayBack(s, sb, wl) && !s.pc.Idle? && Enabled(s, step) && FlushStep(step)
    ensures OnItsWayBack(Apply(s, step), sb, wl)
  {
  }

  lemma CollectStepKeepsOnItsWay(s: State, step: Step, sb: SurfaceBuffer, wl: WlBuffer)
    requires OnItsWayBack(s, sb, wl) && !s.pc.Idle? && Enabled(s, step) && CollectStep(step)
    ensures OnItsWayBack(Apply(s, step), sb, wl)
  {
    if step.DoCollect? && InFlightAt(s, sb, wl, s.pc.window) {
      assert wl in OnWindow(s.books, s.pc.window);
    }
  }

  lemma HandKeepsOnItsWay(s: State, sb: SurfaceBuffer, wl: WlBuffer)
    requires OnItsWayBack(s, sb, wl) && s.pc.Handing?
    ensures OnItsWayBack(Apply(s, DoHand), sb, wl)
  {
    if s.pc.list != [] {
      assert forall x :: x in s.pc.list ==> x == s.pc.list[0] || x in s.pc.list[1..];
    }
  }

  lemma OtherStepKeepsOnItsWay(s: State, step: Step, sb: SurfaceBuffer, wl: WlBuffer)
    requires OnItsWayBack(s, sb, wl) && !s.pc.Idle? && Enabled(s, step) && (ClientStep(step) || WindowStep(step))
    ensures OnItsWayBack(Apply(s, step), sb, wl)
  {
  }

  /** The thread does not come to rest before the end of the run. */
  ghost predicate Busy(s: State, steps: seq<Step>)
    requires Feasible(s, steps)
    decreases |steps|
  {
    steps == [] || (!s.pc.Idle? && Busy(Apply(s, steps[0]), steps[1..]))
  }

  lemma {:induction false} StaysOnItsWay(s: State, steps: seq<Step>, sb: SurfaceBuffer, wl: WlBuffer)
    requires OnItsWayBack(s, sb, wl) && Feasible(s, steps) && Busy(s, steps)
    ensures OnItsWayBack(Run(s, steps), sb, wl)
    decreases |steps|
  {
    if steps != [] {
      var step := steps[0];
      if FlushStep(step) { FlushStepKeepsOnItsWay(s, step, sb, wl); }
      else if CollectStep(step) { CollectStepKeepsOnItsWay(s, step, sb, wl); }
      else if step.DoHand? { HandKeepsOnItsWay(s, sb, wl); }
      else { OtherStepKeepsOnItsWay(s, step, sb, wl); }
      StaysOnItsWay(Apply(s, step), steps[1..], sb, wl);
    }
  }

  /**
   A failed flush, in every run: whatever RS, the client and the IPC threads do in between and however the retry
   ends, once the thread has come to rest everything that was in flight on the window is with the client or about
   to be released, stranded or not.
   */
  lemma EveryRecoveryGivesBack(s: State, sb: SurfaceBuffer, steps: seq<Step>)
    requires s.pc.Tracked? && !s.pc.again
    requires sb in s.books.inFlight && sb != s.pc.job.sb && s.books.inFlight[sb].window == s.pc.job.window
    requires Feasible(Apply(s, DoFlush(false)), steps) && Busy(Apply(s, DoFlush(false)), steps)
    requires Run(Apply(s, DoFlush(false)), steps).pc.Idle?
    ensures Returned(Run(Apply(s, DoFlush(false)), steps), s.books.inFlight[sb].wl)
  {
    StaysOnItsWay(Apply(s, DoFlush(false)), steps, sb, s.books.inFlight[sb].wl);
  }

  /** And so does every run of a detach closure. */
  lemma EveryDetachGivesBack(s: State, sb: SurfaceBuffer, steps: seq<Step>)
    requires s.pc.Detaching? && sb in s.books.inFlight && s.books.inFlight[sb].window == s.pc.window
    requires Feasible(s, steps) && Busy(s, steps) && Run(s, steps).pc.Idle?
    ensures Returned(Run(s, steps), s.books.inFlight[sb].wl)
  {
    StaysOnItsWay(s, steps, sb, s.books.inFlight[sb].wl);
  }

  // ---- it happens ----

  /** One buffer shown: committed, tracked and flushed. */
  function Shown(s: State, wl: WlBuffer, sb: SurfaceBuffer, window: Window): State {
    Commit(s, wl).(watched := s.watched + {wl}, cache := s.cache[wl := sb],
                   books := Track(s.books, sb, wl, window), stranded := s.stranded - {sb},
                   rs := s.rs[sb := window], pc := Idle)
  }

  lemma ShowRun(s: State, wl: WlBuffer, sb: SurfaceBuffer, window: Window)
    requires Enabled(s, CommitTo(wl, sb, window))
    ensures var steps := [CommitTo(wl, sb, window)] + ([DoTrack] + ([DoFlush(true)] + []));
            Feasible(s, steps) && Run(s, steps) == Shown(s, wl, sb, window)
  {
    var s1 := Apply(s, CommitTo(wl, sb, window));
    var s2 := Apply(s1, DoTrack);
    Cons(s2, DoFlush(true), []);
    Cons(s1, DoTrack, [DoFlush(true)] + []);
    Cons(s, CommitTo(wl, sb, window), [DoTrack] + ([DoFlush(true)] + []));
  }

  /** Two buffers and a window. */
  function TwoAndAWindow(): State {
    State({1, 2}, {1, 2}, {}, map[], Books(map[], []), map[], {}, {1}, {}, 2, [], [], Idle,
          map[1 := 0, 2 := 0], map[1 := 0, 2 := 0])
  }

  lemma SetUp()
    ensures var steps := [Create(1)] + ([Create(2)] + ([Attach] + []));
            Feasible(Init(), steps) && Run(Init(), steps) == TwoAndAWindow()
  {
    var s1 := Apply(Init(), Create(1));
    var s2 := Apply(s1, Create(2));
    assert Apply(s2, Attach) == TwoAndAWindow();
    Cons(s2, Attach, []);
    Cons(s1, Create(2), [Attach] + []);
    Cons(Init(), Create(1), [Create(2)] + ([Attach] + []));
  }

  /** Both shown on it. */
  function BothShown(): State {
    Shown(Shown(TwoAndAWindow(), 1, 11, 1), 2, 12, 1)
  }

  lemma ShowBoth() returns (steps: seq<Step>)
    ensures Feasible(Init(), steps) && Run(Init(), steps) == BothShown()
  {
    var a := [Create(1)] + ([Create(2)] + ([Attach] + []));
    var b := [CommitTo(1, 11, 1)] + ([DoTrack] + ([DoFlush(true)] + []));
    var c := [CommitTo(2, 12, 1)] + ([DoTrack] + ([DoFlush(true)] + []));
    SetUp();
    ShowRun(TwoAndAWindow(), 1, 11, 1);
    ShowRun(Shown(TwoAndAWindow(), 1, 11, 1), 2, 12, 1);
    RunAppend(TwoAndAWindow(), b, c);
    RunAppend(Init(), a, b + c);
    steps := a + (b + c);
  }

  lemma DestroyOneOfTwo()
    ensures Enabled(BothShown(), Destroy(2)) && Enabled(Apply(BothShown(), Destroy(2)), DoResetAll)
    ensures var t := Apply(Apply(BothShown(), Destroy(2)), DoResetAll);
            Free(t) && 1 in t.live && IsInFlight(t, 1) && t.cache[1] !in t.rs
  {
  }

  /** The run leaves a live buffer in flight that RS will not report. */
  ghost predicate Strands(steps: seq<Step>, wl: WlBuffer) {
    Feasible(Init(), steps) &&
    var s := Run(Init(), steps);
    Free(s) && wl in s.live && IsInFlight(s, wl) && s.cache[wl] !in s.rs
  }

  /** Two buffers are shown on a window; the client destroys one, and the other is stranded. */
  lemma DestroyStrandsAnother()
    ensures exists steps :: Strands(steps, 1)
  {
    var steps := ShowBoth();
    DestroyOneOfTwo();
    Cons(Apply(BothShown(), Destroy(2)), DoResetAll, []);
    Cons(BothShown(), Destroy(2), [DoResetAll] + []);
    RunAppend(Init(), steps, [Destroy(2)] + ([DoResetAll] + []));
    assert Strands(steps + ([Destroy(2)] + ([DoResetAll] + [])), 1);
  }
}
