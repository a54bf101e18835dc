/**
 What RS may still read.  Resetting a queue makes RS forget what was in it, except the buffer on screen: that
 one stays there until RS takes another from the queue, or the window is detached.  RS does not report the
 buffer that it has on screen.
 */
module BufferDisplay {
  import opened BufferBooks
  import opened BufferRuns
  import opened BufferReturns

  /** `recovered` are the windows where a failed flush reset the queue since RS last took a buffer from it. */
  datatype Display = Display(s: State, shown: map<Window, SurfaceBuffer>, recovered: set<Window>)

  datatype Move = Do(step: Step) | Show(sb: SurfaceBuffer)

  predicate OnScreen(d: Display, window: Window, sb: SurfaceBuffer) {
    window in d.shown && d.shown[window] == sb
  }

  ghost predicate CanMove(d: Display, m: Move) {
    match m
    case Show(sb) => sb in d.s.rs
    case Do(step) =>
      && Enabled(d.s, step)
      && (step.RsReport? ==> !OnScreen(d, d.s.rs[step.sb], step.sb))
      && (step.CommitTo? && step.wl !in d.s.cache ==> step.sb !in d.shown.Values)
  }

  ghost function After(d: Display, m: Move): Display
    requires CanMove(d, m)
  {
    match m
    case Show(sb) => d.(shown := d.shown[d.s.rs[sb] := sb], recovered := d.recovered - {d.s.rs[sb]})
    case Do(step) =>
      var t := d.(s := Apply(d.s, step));
      if step.DoReset? then t.(recovered := d.recovered + {d.s.pc.job.window})
      else if step.DoDetach? then t.(shown := d.shown - {d.s.pc.window}, recovered := d.recovered - {d.s.pc.window})
      else t
  }

  ghost predicate Possible(d: Display, moves: seq<Move>)
    decreases |moves|
  {
    moves == [] || (CanMove(d, moves[0]) && Possible(After(d, moves[0]), moves[1..]))
  }

  ghost function Play(d: Display, moves: seq<Move>): Display
    requires Possible(d, moves)
    decreases |moves|
  {
    if moves == [] then d else Play(After(d, moves[0]), moves[1..])
  }

  function Start(): Display {
    Display(Init(), map[], {})
  }

  // ---- the invariant ----

  /** What is on screen and still imported is in flight on that window, unless a recovery reset its queue. */
  ghost predicate ScreensOk(d: Display) {
    forall w, wl :: w in d.shown && w !in d.recovered && wl in d.s.cache && d.s.cache[wl] == d.shown[w] ==>
      d.shown[w] in d.s.books.inFlight && d.s.books.inFlight[d.shown[w]].window == w
  }

  /** The commit that is being flushed is on no such screen, and neither is anything of the window being collected. */
  predicate ThreadOk(d: Display) {
    && (d.s.pc.Tracked? || d.s.pc.Refused? ==>
          forall w :: w in d.shown && w !in d.recovered ==> d.shown[w] != d.s.pc.job.sb)
    && (d.s.pc.Collecting? ==> d.s.pc.window in d.shown ==> d.s.pc.window in d.recovered)
  }

  ghost predicate DisplayInv(d: Display) {
    Inv(d.s) && ScreensOk(d) && ThreadOk(d)
  }

  lemma ShowKeepsScreens(d: Display, sb: SurfaceBuffer)
    requires DisplayInv(d) && sb in d.s.rs
    ensures DisplayInv(After(d, Show(sb)))
  {
  }

  /** What is being committed is in flight nowhere, so it is on no screen but one left by a recovery. */
  lemma TrackKeepsScreens(d: Display)
    requires DisplayInv(d) && d.s.pc.Routed?
    ensures var e := After(d, Do(DoTrack)); ScreensOk(e) && ThreadOk(e)
  {
    assert Places(d.s, d.s.pc.job.wl) == 1;
  }

  lemma FlushKeepsScreens(d: Display, ok: bool)
    requires DisplayInv(d) && d.s.pc.Tracked?
    ensures var e := After(d, Do(DoFlush(ok))); ScreensOk(e) && ThreadOk(e)
  {
  }

  lemma UntrackKeepsScreens(d: Display)
    requires DisplayInv(d) && d.s.pc.Refused?
    ensures var e := After(d, Do(DoUntrack)); ScreensOk(e) && ThreadOk(e)
  {
  }

  lemma ResetKeepsScreens(d: Display)
    requires DisplayInv(d) && d.s.pc.Resetting?
    ensures var e := After(d, Do(DoReset)); ScreensOk(e) && ThreadOk(e)
  {
  }

  lemma CollectKeepsScreens(d: Display, step: Step)
    requires DisplayInv(d) && CanMove(d, Do(step)) && CollectStep(step)
    ensures var e := After(d, Do(step)); ScreensOk(e) && ThreadOk(e)
  {
  }

  lemma ClientKeepsScreens(d: Display, step: Step)
    requires DisplayInv(d) && CanMove(d, Do(step)) && ClientStep(step)
    ensures var e := After(d, Do(step)); ScreensOk(e) && ThreadOk(e)
  {
  }

  lemma HandKeepsScreens(d: Display, step: Step)
    requires DisplayInv(d) && CanMove(d, Do(step)) && HandStep(step)
    ensures var e := After(d, Do(step)); ScreensOk(e) && ThreadOk(e)
  {
  }

  lemma WindowKeepsScreens(d: Display, step: Step)
    requires DisplayInv(d) && CanMove(d, Do(step)) && WindowStep(step)
    ensures var e := After(d, Do(step)); ScreensOk(e) && ThreadOk(e)
  {
  }

  lemma MoveKeepsInv(d: Display, m: Move)
    requires DisplayInv(d) && CanMove(d, m)
    ensures DisplayInv(After(d, m))
  {
    if m.Show? {
      ShowKeepsScreens(d, m.sb);
    } else {
      StepKeepsInv(d.s, m.step);
      if m.step.DoTrack? { TrackKeepsScreens(d); }
      else if m.step.DoFlush? { FlushKeepsScreens(d, m.step.ok); }
      else if m.step.DoUntrack? { UntrackKeepsScreens(d); }
      else if m.step.DoReset? { ResetKeepsScreens(d); }
      else if CollectStep(m.step) { CollectKeepsScreens(d, m.step); }
      else if ClientStep(m.step) { ClientKeepsScreens(d, m.step); }
      else if HandStep(m.step) { HandKeepsScreens(d, m.step); }
      else { WindowKeepsScreens(d, m.step); }
    }
  }

  lemma {:induction false} EveryPlayKeepsInv(d: Display, moves: seq<Move>)
    requires DisplayInv(d) && Possible(d, moves)
    ensures DisplayInv(Play(d, moves))
    decreases |moves|
  {
    if moves != [] {
      MoveKeepsInv(d, moves[0]);
      EveryPlayKeepsInv(After(d, moves[0]), moves[1..]);
    }
  }

  // ---- when the client is told it may draw into a buffer that RS may still read ----

  predicate MayRead(d: Display, sb: SurfaceBuffer) {
    sb in d.s.rs || sb in d.shown.Values
  }

  /** It was left on a window's screen by a recovery. */
  predicate LeftOn(d: Display, sb: SurfaceBuffer, window: Window) {
    OnScreen(d, window, sb) && window in d.recovered
  }

  lemma MayReadMeans(d: Display, sb: SurfaceBuffer)
    requires sb !in d.s.rs
    ensures MayRead(d, sb) <==> exists w :: OnScreen(d, w, sb)
  {
    if MayRead(d, sb) {
      var w :| w in d.shown && d.shown[w] == sb;
      assert OnScreen(d, w, sb);
    }
  }

  /** A buffer that the client holds is on no screen but those where a recovery left it. */
  lemma HeldIsLeftOn(d: Display, wl: WlBuffer, window: Window)
    requires DisplayInv(d) && wl in d.s.held && wl in d.s.cache && OnScreen(d, window, d.s.cache[wl])
    ensures LeftOn(d, d.s.cache[wl], window)
  {
    assert Places(d.s, wl) == 1;
  }

  /**
   RS may still read a buffer that the client holds exactly when it is on the screen of a window whose queue
   was reset, because of a failed flush, after RS had taken it.
   */
  lemma ReleasedWhileReadIff(moves: seq<Move>, wl: WlBuffer)
    requires Possible(Start(), moves)
    requires wl in Play(Start(), moves).s.held && wl in Play(Start(), moves).s.cache
    ensures var d := Play(Start(), moves);
            MayRead(d, d.s.cache[wl]) <==> exists w :: LeftOn(d, d.s.cache[wl], w)
  {
    var d := Play(Start(), moves);
    EveryPlayKeepsInv(Start(), moves);
    HeldIsNotWithRs(d.s, wl);
    MayReadMeans(d, d.s.cache[wl]);
    forall w | OnScreen(d, w, d.s.cache[wl]) ensures LeftOn(d, d.s.cache[wl], w) {
      HeldIsLeftOn(d, wl, w);
    }
  }

  /** RS takes a buffer from the window's queue, or the window is detached. */
  ghost predicate Clears(d: Display, m: Move, window: Window)
    requires CanMove(d, m)
  {
    if m.Show? then d.s.rs[m.sb] == window else m.step.DoDetach? && d.s.pc.window == window
  }

  /** Only that window's screen changes, and what RS has not got it does not get. */
  lemma ClearsOneScreen(d: Display, m: Move, window: Window, sb: SurfaceBuffer)
    requires CanMove(d, m) && Clears(d, m, window) && sb !in d.s.rs
    ensures var e := After(d, m); sb !in e.s.rs && forall w :: OnScreen(e, w, sb) <==> w != window && OnScreen(d, w, sb)
  {
  }

  /** The next buffer that RS takes from the queue, or the detach of the window, ends it, unless a recovery left
      the buffer on another window's screen, too. */
  lemma EndsWithTheNextFrame(moves: seq<Move>, wl: WlBuffer, m: Move, window: Window)
    requires Possible(Start(), moves)
    requires wl in Play(Start(), moves).s.held && wl in Play(Start(), moves).s.cache
    requires CanMove(Play(Start(), moves), m) && Clears(Play(Start(), moves), m, window)
    ensures var d := Play(Start(), moves);
            MayRead(After(d, m), d.s.cache[wl]) <==> exists w :: w != window && LeftOn(d, d.s.cache[wl], w)
  {
    EveryPlayKeepsInv(Start(), moves);
    EndsFrom(Play(Start(), moves), wl, m, window);
  }

  lemma EndsFrom(d: Display, wl: WlBuffer, m: Move, window: Window)
    requires DisplayInv(d) && wl in d.s.held && wl in d.s.cache && CanMove(d, m) && Clears(d, m, window)
    ensures MayRead(After(d, m), d.s.cache[wl]) <==> exists w :: w != window && LeftOn(d, d.s.cache[wl], w)
  {
    HeldIsNotWithRs(d.s, wl);
    ClearsOneScreen(d, m, window, d.s.cache[wl]);
    MayReadMeans(After(d, m), d.s.cache[wl]);
    forall w | OnScreen(d, w, d.s.cache[wl]) ensures LeftOn(d, d.s.cache[wl], w) {
      HeldIsLeftOn(d, wl, w);
    }
  }

  // ---- without a failed flush it does not happen ----

  predicate Calm(m: Move) {
    m != Do(DoFlush(false))
  }

  predicate NoRecovery(d: Display) {
    d.recovered == {} && !d.s.pc.Refused? && !d.s.pc.Resetting?
  }

  /** The thread comes to a recovery only by a failed flush. */
  lemma OnlyAfterFailedFlush(s: State, step: Step)
    requires Enabled(s, step) && !s.pc.Refused? && !s.pc.Resetting? && step != DoFlush(false)
    ensures !Apply(s, step).pc.Refused? && !Apply(s, step).pc.Resetting?
  {
  }

  lemma CalmKeepsNoRecovery(d: Display, m: Move)
    requires NoRecovery(d) && CanMove(d, m) && Calm(m)
    ensures NoRecovery(After(d, m))
  {
    if m.Do? {
      OnlyAfterFailedFlush(d.s, m.step);
    }
  }

  lemma {:induction false} NothingIsRecovered(d: Display, moves: seq<Move>)
    requires NoRecovery(d) && Possible(d, moves) && forall i :: 0 <= i < |moves| ==> Calm(moves[i])
    ensures NoRecovery(Play(d, moves))
    decreases |moves|
  {
    if moves != [] {
      CalmKeepsNoRecovery(d, moves[0]);
      NothingIsRecovered(After(d, moves[0]), moves[1..]);
    }
  }

  /** As long as no flush fails, the client never holds what RS may still read, whatever it destroys. */
  lemma NeverReleasedWhileRead(moves: seq<Move>, wl: WlBuffer)
    requires Possible(Start(), moves) && forall i :: 0 <= i < |moves| ==> Calm(moves[i])
    requires wl in Play(Start(), moves).s.held && wl in Play(Start(), moves).s.cache
    ensures !MayRead(Play(Start(), moves), Play(Start(), moves).s.cache[wl])
  {
    NothingIsRecovered(Start(), moves);
    ReleasedWhileReadIff(moves, wl);
  }

  // ---- with a failed flush it does ----

  function Dos(steps: seq<Step>): seq<Move> {
    if steps == [] then [] else [Do(steps[0])] + Dos(steps[1..])
  }

  lemma MoveCons(d: Display, m: Move, rest: seq<Move>)
    requires CanMove(d, m) && Possible(After(d, m), rest)
    ensures Possible(d, [m] + rest) && Play(d, [m] + rest) == Play(After(d, m), rest)
  {
    assert ([m] + rest)[1..] == rest;
  }

  lemma ScreensStayPut(d: Display, step: Step)
    requires Enabled(d.s, step) && (FlushStep(step) || step.DoCollect? || step.DoHand?)
    ensures CanMove(d, Do(step))
    ensures var e := After(d, Do(step)); e.s == Apply(d.s, step) && e.shown == d.shown && e.s.cache == d.s.cache
  {
  }

  /** Steps that take nothing from any screen. */
  lemma {:induction false} ScreensStay(d: Display, steps: seq<Step>)
    requires Feasible(d.s, steps)
    requires forall step :: step in steps ==> FlushStep(step) || step.DoCollect? || step.DoHand?
    ensures Possible(d, Dos(steps))
    ensures var e := Play(d, Dos(steps)); e.s == Run(d.s, steps) && e.shown == d.shown && e.s.cache == d.s.cache
    decreases |steps|
  {
    if steps != [] {
      assert steps[0] in steps && forall step :: step in steps[1..] ==> step in steps;
      ScreensStayPut(d, steps[0]);
      ScreensStay(After(d, Do(steps[0])), steps[1..]);
      MoveCons(d, Do(steps[0]), Dos(steps[1..]));
    }
  }

  /** Whenever a flush fails on a window whose screen shows a buffer that is in flight, that buffer is released
      while it is on screen. */
  lemma FailedFlushReleasesWhatIsShown(d: Display, sb: SurfaceBuffer) returns (moves: seq<Move>)
    requires d.s.pc.Tracked? && !d.s.pc.again && sb in d.s.books.inFlight && sb != d.s.pc.job.sb
    requires d.s.books.inFlight[sb].window == d.s.pc.job.window && OnScreen(d, d.s.pc.job.window, sb)
    ensures Possible(d, moves)
    ensures var e := Play(d, moves);
            d.s.books.inFlight[sb].wl in e.s.held && MayRead(e, sb) && e.s.cache == d.s.cache
  {
    var steps := ComesBackAfterFailedFlush(d.s, sb);
    ScreensStay(d, steps);
    moves := Dos(steps);
  }

  // ---- a run in which it happens ----

  lemma {:induction false} NothingShownYet(d: Display, steps: seq<Step>)
    requires d.shown == map[] && d.recovered == {} && Feasible(d.s, steps)
    requires forall step :: step in steps ==> !step.DoReset?
    ensures Possible(d, Dos(steps)) && Play(d, Dos(steps)) == Display(Run(d.s, steps), map[], {})
    decreases |steps|
  {
    if steps != [] {
      assert steps[0] in steps && forall step :: step in steps[1..] ==> step in steps;
      var e := After(d, Do(steps[0]));
      assert e == Display(Apply(d.s, steps[0]), map[], {});
      NothingShownYet(e, steps[1..]);
      MoveCons(d, Do(steps[0]), Dos(steps[1..]));
    }
  }

  lemma {:induction false} PlayAppend(d: Display, a: seq<Move>, b: seq<Move>)
    requires Possible(d, a) && Possible(Play(d, a), b)
    ensures Possible(d, a + b) && Play(d, a + b) == Play(Play(d, a), b)
    decreases |a|
  {
    if a == [] {
      assert a + b == b;
    } else {
      assert (a + b)[0] == a[0] && (a + b)[1..] == a[1..] + b;
      PlayAppend(After(d, a[0]), a[1..], b);
    }
  }

  /** One of two buffers is on screen, and the other has been committed to the same window and tracked. */
  function SecondTracked(): Display {
    var s := Shown(TwoAndAWindow(), 1, 11, 1);
    Display(Commit(s, 2).(watched := s.watched + {2}, cache := s.cache[2 := 12], books := Track(s.books, 12, 2, 1),
                          stranded := s.stranded - {12}, pc := Tracked(Job(2, 12, 1), false)),
            map[1 := 11], {})
  }

  lemma SecondCommit()
    ensures var d := Display(Shown(TwoAndAWindow(), 1, 11, 1), map[], {});
            var moves := [Show(11)] + ([Do(CommitTo(2, 12, 1))] + ([Do(DoTrack)] + []));
            Possible(d, moves) && Play(d, moves) == SecondTracked()
  {
    var d := Display(Shown(TwoAndAWindow(), 1, 11, 1), map[], {});
    var d1 := After(d, Show(11));
    assert d1 == d.(shown := map[1 := 11]);
    var d2 := After(d1, Do(CommitTo(2, 12, 1)));
    var d3 := After(d2, Do(DoTrack));
    assert d3 == SecondTracked();
    MoveCons(d2, Do(DoTrack), []);
    MoveCons(d1, Do(CommitTo(2, 12, 1)), [Do(DoTrack)] + []);
    MoveCons(d, Show(11), [Do(CommitTo(2, 12, 1))] + ([Do(DoTrack)] + []));
  }

  /** The client ends up with a buffer that RS may still read. */
  ghost predicate ReleasesTooEarly(moves: seq<Move>, wl: WlBuffer) {
    Possible(Start(), moves) &&
    var d := Play(Start(), moves);
    wl in d.s.held && wl in d.s.cache && MayRead(d, d.s.cache[wl])
  }

  /** The first of the two buffers is flushed. */
  lemma FirstFlushed() returns (moves: seq<Move>)
    ensures Possible(Start(), moves) && Play(Start(), moves) == Display(Shown(TwoAndAWindow(), 1, 11, 1), map[], {})
  {
    var a := [Create(1)] + ([Create(2)] + ([Attach] + []));
    var b := [CommitTo(1, 11, 1)] + ([DoTrack] + ([DoFlush(true)] + []));
    SetUp();
    ShowRun(TwoAndAWindow(), 1, 11, 1);
    RunAppend(Init(), a, b);
    NothingShownYet(Start(), a + b);
    moves := Dos(a + b);
  }

  lemma SecondTrackedByThen() returns (moves: seq<Move>)
    ensures Possible(Start(), moves) && Play(Start(), moves) == SecondTracked()
  {
    var a := FirstFlushed();
    SecondCommit();
    var b := [Show(11)] + ([Do(CommitTo(2, 12, 1))] + ([Do(DoTrack)] + []));
    PlayAppend(Start(), a, b);
    moves := a + b;
  }

  lemma ReleasedWhileShown()
    ensures exists moves :: ReleasesTooEarly(moves, 1)
  {
    var a := SecondTrackedByThen();
    var b := FailedFlushReleasesWhatIsShown(SecondTracked(), 11);
    PlayAppend(Start(), a, b);
    assert ReleasesTooEarly(a + b, 1);
  }
}
