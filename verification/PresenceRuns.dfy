/**
 Which toplevels are on an output, over every interleaving of the wayland thread with the IPC threads.  A toplevel's
 surface is noted when it is created and whenever a frame comes on it, and forgotten when it is destroyed; both
 happen between two hand-overs.
 */
module PresenceRuns {
  import opened Activation
  import opened ActivationRuns
  import opened ActivationHistory
  import opened Presence

  datatype Stage = Stage(
    s: State,
    edge: bool,            // of the hand-over in progress
    surfaced: set<Id>,     // the toplevels that have a surface
    entered: set<Id>,      // those that are on an output
    late: set<Id>)         // those that got their surface after they were activated, and no hand-over touched since

  datatype Move = Do(step: Step) | NoteSurface(id: Id) | DropSurface(id: Id)

  function Start(): Stage {
    Stage(Init(), false, {}, {}, {})
  }

  predicate CanMove(g: Stage, m: Move) {
    match m
    case Do(step) => Enabled(g.s, step)
    case NoteSurface(_) => Free(g.s)
    case DropSurface(_) => Free(g.s)
  }

  // ---- the toplevels that a hand-over touches ----

  function SwitchedOn(tops: Table, active: string): set<Id> {
    set id | id in tops && Wanted(tops, active, id) && !tops[id].activated
  }

  function SwitchedOff(tops: Table, active: string): set<Id> {
    set id | id in tops && Unwanted(tops, active, id) && tops[id].activated
  }

  function Pulsed(tops: Table, active: string, edge: bool): set<Id> {
    set id | id in tops && edge && Wanted(tops, active, id) && tops[id].activated && PackageOf(tops[id].appId) != ""
  }

  function AfterScan(g: Stage): Stage
    requires g.s.pc.Scanning?
  {
    var ons, offs := SwitchedOn(g.s.tops, g.s.pc.active), SwitchedOff(g.s.tops, g.s.pc.active);
    var pulses := Pulsed(g.s.tops, g.s.pc.active, g.edge);
    g.(s := Apply(g.s, Scan),
       entered := g.entered + ons * g.surfaced - offs * g.surfaced + pulses * g.surfaced,
       late := g.late - ons - offs - pulses)
  }

  function After(g: Stage, m: Move): Stage
    requires CanMove(g, m)
  {
    match m
    case NoteSurface(id) =>
      if id !in g.s.tops || id in g.surfaced then g
      else g.(surfaced := g.surfaced + {id}, late := if g.s.tops[id].activated then g.late + {id} else g.late)
    case DropSurface(id) => g.(surfaced := g.surfaced - {id}, entered := g.entered - {id}, late := g.late - {id})
    case Do(step) =>
      var t := Apply(g.s, step);
      match step
      case RemoveToplevel(id) =>
        g.(s := t, surfaced := g.surfaced - {id}, entered := g.entered - {id}, late := g.late - {id})
      case SetAppId(_, _) => g.(s := t, edge := false)
      case StartClosure => g.(s := t, edge := g.s.work[0] == Activate(true))
      case Scan => AfterScan(g)
      case _ => g.(s := t)
  }

  predicate Possible(g: Stage, moves: seq<Move>)
    decreases |moves|
  {
    moves == [] || (CanMove(g, moves[0]) && Possible(After(g, moves[0]), moves[1..]))
  }

  function Play(g: Stage, moves: seq<Move>): Stage
    requires Possible(g, moves)
    decreases |moves|
  {
    if moves == [] then g else Play(After(g, moves[0]), moves[1..])
  }

  // ---- it is what the messages of the hand-over say ----

  lemma PlanTouches(p: Plan, tops: Table, active: string, edge: bool)
    requires IsPlan(p, tops, active, edge, tops.Keys)
    ensures Ids(p.ons) == SwitchedOn(tops, active) && Ids(p.offs) == SwitchedOff(tops, active)
    ensures Ids(p.pulse) == Pulsed(tops, active, edge)
  {
  }

  /** Whatever plan the scan makes, its messages leave the client with the toplevels of AfterScan. */
  lemma ScanIsAHandOver(g: Stage, p: Plan)
    requires g.s.pc.Scanning? && IsPlan(p, g.s.tops, g.s.pc.active, g.edge, g.s.tops.Keys)
    ensures Hears(View(Lit(g.s.tops), g.entered), Messages(p, g.surfaced, g.entered))
            == View(Lit(AfterScan(g).s.tops), AfterScan(g).entered)
  {
    ShownHandOverIsNeverDark(p, g.s.tops, g.s.pc.active, g.edge, g.surfaced, g.entered);
    PlanTouches(p, g.s.tops, g.s.pc.active, g.edge);
  }

  // ---- the invariant ----

  predicate Activated(g: Stage, id: Id) {
    id in g.s.tops && g.s.tops[id].activated
  }

  ghost predicate StageOk(g: Stage) {
    && g.surfaced <= g.s.tops.Keys && (forall id :: id in g.s.tops ==> id < g.s.nextTop)
    && (forall id :: id in g.entered <==> id in g.surfaced && Activated(g, id) && id !in g.late)
    && (forall id :: id in g.late ==> id in g.surfaced && Activated(g, id))
  }

  lemma ScanKeepsStageOk(g: Stage)
    requires StageOk(g) && g.s.pc.Scanning?
    ensures StageOk(AfterScan(g))
  {
    var tops, active := g.s.tops, g.s.pc.active;
    forall id | id in tops
      ensures Mirrored(tops, active)[id].activated <==>
                (tops[id].activated && id !in SwitchedOff(tops, active)) || id in SwitchedOn(tops, active)
    {
    }
  }

  predicate ToplevelStep(step: Step) {
    step.AddToplevel? || step.RemoveToplevel? || step.SetAppId?
  }

  lemma ToplevelStepKeepsStageOk(g: Stage, step: Step)
    requires StageOk(g) && Enabled(g.s, step) && ToplevelStep(step)
    ensures StageOk(After(g, Do(step)))
  {
  }

  /** The other steps leave the toplevels as they are. */
  lemma StepKeepsStageOk(g: Stage, step: Step)
    requires StageOk(g) && Enabled(g.s, step) && !step.Scan? && !ToplevelStep(step)
    ensures StageOk(After(g, Do(step)))
  {
  }

  lemma MoveKeepsStageOk(g: Stage, m: Move)
    requires StageOk(g) && CanMove(g, m)
    ensures StageOk(After(g, m))
  {
    if m == Do(Scan) {
      ScanKeepsStageOk(g);
    } else if m.Do? && ToplevelStep(m.step) {
      ToplevelStepKeepsStageOk(g, m.step);
    } else if m.Do? {
      StepKeepsStageOk(g, m.step);
    }
  }

  lemma {:induction false} EveryPlayKeepsStageOk(g: Stage, moves: seq<Move>)
    requires StageOk(g) && Possible(g, moves)
    ensures StageOk(Play(g, moves))
    decreases |moves|
  {
    if moves != [] {
      MoveKeepsStageOk(g, moves[0]);
      EveryPlayKeepsStageOk(After(g, moves[0]), moves[1..]);
    }
  }

  // ---- the theorem ----

  /** The steps among the moves. */
  function StepsOf(moves: seq<Move>): seq<Step> {
    if moves == [] then [] else (if moves[0].Do? then [moves[0].step] else []) + StepsOf(moves[1..])
  }

  lemma SameStep(g: Stage, m: Move)
    requires CanMove(g, m)
    ensures After(g, m).s == if m.Do? then Apply(g.s, m.step) else g.s
  {
  }

  lemma {:induction false} PlayIsARun(g: Stage, moves: seq<Move>)
    requires Possible(g, moves)
    ensures Feasible(g.s, StepsOf(moves)) && Run(g.s, StepsOf(moves)) == Play(g, moves).s
    decreases |moves|
  {
    if moves != [] {
      var rest := StepsOf(moves[1..]);
      SameStep(g, moves[0]);
      PlayIsARun(After(g, moves[0]), moves[1..]);
      if moves[0].Do? {
        Then(g.s, moves[0].step, rest);
      } else {
        assert StepsOf(moves) == rest;
      }
    }
  }

  /**
   In every run: a toplevel is on an output exactly when it has a surface, is activated, and did not get the surface
   only after it was activated.  In a quiet state that is, for a named toplevel, when it is in front.
   */
  lemma ShownExactlyWhenActivated(moves: seq<Move>, id: Id)
    requires Possible(Start(), moves)
    ensures var g := Play(Start(), moves);
            && (id in g.entered <==> id in g.surfaced && Activated(g, id) && id !in g.late)
            && (Quiet(g.s) && id in g.surfaced && AppIdAt(StepsOf(moves), id) != "" ==>
                  (id in g.entered <==> InFront(StepsOf(moves), AppIdAt(StepsOf(moves), id)) && id !in g.late))
  {
    EveryPlayKeepsStageOk(Start(), moves);
    PlayIsARun(Start(), moves);
    if Quiet(Play(Start(), moves).s) {
      ActivationMirrorsTheFront(StepsOf(moves), id);
    }
  }

  // ---- without such a surface ----

  /** Every surface is noted before its toplevel is activated. */
  predicate InTime(g: Stage, moves: seq<Move>)
    requires Possible(g, moves)
    decreases |moves|
  {
    moves == []
    || ((moves[0].NoteSurface? ==> moves[0].id in g.surfaced || !Activated(g, moves[0].id))
        && InTime(After(g, moves[0]), moves[1..]))
  }

  lemma {:induction false} NoneIsLate(g: Stage, moves: seq<Move>)
    requires g.late == {} && Possible(g, moves) && InTime(g, moves)
    ensures Play(g, moves).late == {}
    decreases |moves|
  {
    if moves != [] {
      NoneIsLate(After(g, moves[0]), moves[1..]);
    }
  }

  /** Then every activated toplevel with a surface is on an output, at every moment between two hand-overs. */
  lemma AllShownInTime(moves: seq<Move>, id: Id)
    requires Possible(Start(), moves) && InTime(Start(), moves)
    ensures var g := Play(Start(), moves); id in g.surfaced && Activated(g, id) ==> id in g.entered
  {
    NoneIsLate(Start(), moves);
    EveryPlayKeepsStageOk(Start(), moves);
  }

  // ---- with one ----

  lemma MoveCons(g: Stage, m: Move, rest: seq<Move>)
    requires CanMove(g, m) && Possible(After(g, m), rest)
    ensures Possible(g, [m] + rest) && Play(g, [m] + rest) == Play(After(g, m), rest)
  {
    assert ([m] + rest)[1..] == rest;
  }

  /** Quiet, activated and with a surface, and yet on no output. */
  ghost predicate LeavesOneDark(moves: seq<Move>, id: Id) {
    Possible(Start(), moves) &&
    var g := Play(Start(), moves);
    Quiet(g.s) && id in g.surfaced && Activated(g, id) && id !in g.entered
  }

  /** The full desktop, named and activated, and on an output. */
  function DesktopShown(): Stage {
    Stage(Init().(tops := map[1 := Toplevel("Waydroid", false, true)], nextTop := 2), false, {1}, {1}, {})
  }

  lemma ShowDesktop(rest: seq<Move>) returns (moves: seq<Move>)
    requires Possible(DesktopShown(), rest)
    ensures Possible(Start(), moves) && Play(Start(), moves) == Play(DesktopShown(), rest)
  {
    var g1 := After(Start(), Do(AddToplevel));
    var g2 := After(g1, NoteSurface(1));
    var g3 := After(g2, Do(SetAppId(1, "Waydroid")));
    var g4 := After(g3, Do(ReadActive));
    assert PackageOf("Waydroid") == "";
    assert g4.s.tops == map[1 := Toplevel("Waydroid", false, false)] && g4.surfaced == {1};
    assert SwitchedOn(g4.s.tops, "") == {1} && SwitchedOff(g4.s.tops, "") == {} && Pulsed(g4.s.tops, "", false) == {};
    assert After(g4, Do(Scan)) == DesktopShown();
    MoveCons(g4, Do(Scan), rest);
    var m4 := [Do(Scan)] + rest;
    MoveCons(g3, Do(ReadActive), m4);
    var m3 := [Do(ReadActive)] + m4;
    MoveCons(g2, Do(SetAppId(1, "Waydroid")), m3);
    var m2 := [Do(SetAppId(1, "Waydroid"))] + m3;
    MoveCons(g1, NoteSurface(1), m2);
    MoveCons(Start(), Do(AddToplevel), [NoteSurface(1)] + m2);
    moves := [Do(AddToplevel)] + ([NoteSurface(1)] + m2);
  }

  /** The surface that a shown desktop presents on is destroyed, and its next frame comes on another. */
  lemma LateSurfaceIsNotShown()
    ensures exists moves :: LeavesOneDark(moves, 1)
  {
    var g := After(DesktopShown(), DropSurface(1));
    MoveCons(g, NoteSurface(1), []);
    MoveCons(DesktopShown(), DropSurface(1), [NoteSurface(1)] + []);
    var moves := ShowDesktop([DropSurface(1)] + ([NoteSurface(1)] + []));
    assert LeavesOneDark(moves, 1);
  }

  /** A move that changes the toplevel itself. */
  predicate Changes(m: Move, id: Id) {
    match m
    case Do(step) => (step.RemoveToplevel? || step.SetAppId?) && step.id == id
    case DropSurface(x) => x == id
    case NoteSurface(_) => false
  }

  /** No hand-over touches the full desktop once it is activated, so nothing brings it back. */
  lemma {:induction false} DesktopStaysDark(g: Stage, moves: seq<Move>, id: Id)
    requires StageOk(g) && id in g.late && Named(g.s.tops[id]) && PackageOf(g.s.tops[id].appId) == ""
    requires Possible(g, moves) && forall i :: 0 <= i < |moves| ==> !Changes(moves[i], id)
    ensures var e := Play(g, moves); id in e.surfaced && Activated(e, id) && id !in e.entered
    decreases |moves|
  {
    if moves != [] {
      MoveKeepsStageOk(g, moves[0]);
      StaysLate(g, moves[0], id);
      DesktopStaysDark(After(g, moves[0]), moves[1..], id);
    }
  }

  lemma StaysLate(g: Stage, m: Move, id: Id)
    requires StageOk(g) && id in g.late && Named(g.s.tops[id]) && PackageOf(g.s.tops[id].appId) == ""
    requires CanMove(g, m) && !Changes(m, id)
    ensures var e := After(g, m); id in e.late && id in e.s.tops && e.s.tops[id].appId == g.s.tops[id].appId
  {
  }
}
