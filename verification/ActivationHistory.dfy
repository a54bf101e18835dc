/**
 What the calls so far say about windows and toplevels: which are there, what they are called, and which window is in
 front.  Whenever things are quiet the toplevels mirror it, and things always come to be quiet.
 */
module ActivationHistory {
  import opened Activation
  import opened ActivationRuns

  // ---- what the steps so far say, and nothing else ----

  /** How many windows have been attached; they are numbered from 1. */
  function Attaches(done: seq<Step>): nat {
    if done == [] then 0
    else Attaches(done[..|done| - 1]) + if done[|done| - 1].AttachWindow? then 1 else 0
  }

  /** The package that window `w` was attached with. */
  function PackageAt(done: seq<Step>, w: Id): string
    requires 1 <= w <= Attaches(done)
  {
    var rest := done[..|done| - 1];
    if w <= Attaches(rest) then PackageAt(rest, w) else done[|done| - 1].package
  }

  predicate IsAttached(done: seq<Step>, w: Id) {
    1 <= w <= Attaches(done) && DetachErase(w) !in done
  }

  /** A step that decides which window is in front: one that is attached is made active, or the window is made
      inactive or goes. */
  predicate Fronts(done: seq<Step>, j: nat)
    requires j < |done|
  {
    done[j].SetWindowActive? && done[j].active && IsAttached(done[..j], done[j].window)
  }

  predicate Retires(step: Step, w: Id) {
    step == SetWindowActive(w, false) || step == DetachErase(w)
  }

  /** Step i made the window active, it was attached then, and no later step made another one active, or this one
      inactive, or detached it. */
  predicate FrontSince(done: seq<Step>, i: nat, w: Id) {
    && i < |done| && Fronts(done, i) && done[i].window == w
    && forall j :: i < j < |done| ==> !Fronts(done, j) && !Retires(done[j], w)
  }

  ghost predicate IsFront(done: seq<Step>, w: Id) {
    exists i :: FrontSince(done, i, w)
  }

  /** How many toplevels have been created; they are numbered from 1. */
  function Creations(done: seq<Step>): nat {
    if done == [] then 0
    else Creations(done[..|done| - 1]) + if done[|done| - 1].AddToplevel? then 1 else 0
  }

  predicate Exists(done: seq<Step>, id: Id) {
    1 <= id <= Creations(done) && RemoveToplevel(id) !in done
  }

  /** The name it was given last, as long as it exists. */
  function AppIdAt(done: seq<Step>, id: Id): string {
    if done == [] then ""
    else
      var rest, last := done[..|done| - 1], done[|done| - 1];
      if last.SetAppId? && last.id == id && Exists(rest, id) then last.appId else AppIdAt(rest, id)
  }

  // ---- the state agrees with it ----

  /** The window in front, or 0. */
  function Front(done: seq<Step>): Id {
    if done == [] then 0
    else
      var rest, last := done[..|done| - 1], done[|done| - 1];
      if last.SetWindowActive? && last.active && IsAttached(rest, last.window) then last.window
      else if Retires(last, Front(rest)) then 0
      else Front(rest)
  }

  lemma {:induction false} FrontMeans(done: seq<Step>, w: Id)
    ensures IsFront(done, w) <==> w != 0 && Front(done) == w
  {
    if done == [] {
      assert !IsFront(done, w);
    } else {
      var n := |done| - 1;
      var rest := done[..n];
      FrontMeans(rest, w);
      assert forall j :: 0 <= j < n ==> done[..j] == rest[..j] && done[j] == rest[j];
      assert forall j :: 0 <= j < n ==> (Fronts(done, j) <==> Fronts(rest, j));
      if Fronts(done, n) {
        assert done[n].window == w ==> FrontSince(done, n, w);
      } else if !Retires(done[n], w) {
        StillFront(done, w);
      }
    }
  }

  lemma StillFront(done: seq<Step>, w: Id)
    requires done != [] && !Fronts(done, |done| - 1) && !Retires(done[|done| - 1], w)
    requires forall j :: 0 <= j < |done| - 1 ==>
               (Fronts(done, j) <==> Fronts(done[..|done| - 1], j)) && done[j] == done[..|done| - 1][j]
    ensures IsFront(done, w) <==> IsFront(done[..|done| - 1], w)
  {
    var rest := done[..|done| - 1];
    if i :| FrontSince(rest, i, w) {
      assert FrontSince(done, i, w);
    }
    if i :| FrontSince(done, i, w) {
      assert FrontSince(rest, i, w);
    }
  }

  /** The attached windows with their packages. */
  function Windows(done: seq<Step>): map<Id, string> {
    map w: Id | 1 <= w <= Attaches(done) && DetachErase(w) !in done :: PackageAt(done, w)
  }

  /** The toplevels with their names. */
  function Names(done: seq<Step>): map<Id, string> {
    map id: Id | 1 <= id <= Creations(done) && RemoveToplevel(id) !in done :: AppIdAt(done, id)
  }

  /** What is said to be gone has been there. */
  predicate InOrderOfTime(done: seq<Step>) {
    forall x :: x in done ==>
      && (x.DetachErase? ==> x.window <= Attaches(done)) && (x.RemoveToplevel? ==> x.id <= Creations(done))
  }

  /** A window attached, or detached. */
  function WindowsThen(windows: map<Id, string>, n: nat, step: Step): map<Id, string> {
    match step
    case AttachWindow(package) => windows[n + 1 := package]
    case DetachErase(w) => windows - {w}
    case _ => windows
  }

  function NamesThen(names: map<Id, string>, n: nat, step: Step): map<Id, string> {
    match step
    case AddToplevel => names[n + 1 := ""]
    case RemoveToplevel(id) => names - {id}
    case SetAppId(id, appId) => if id in names then names[id := appId] else names
    case _ => names
  }

  function FrontThen(windows: map<Id, string>, front: Id, step: Step): Id {
    if step.SetWindowActive? && step.active && step.window in windows then step.window
    else if Retires(step, front) then 0
    else front
  }

  lemma Snoc(done: seq<Step>, step: Step)
    ensures (done + [step])[..|done|] == done && (done + [step])[|done|] == step
    ensures forall x :: x in done + [step] <==> x in done || x == step
  {
  }

  lemma CountsThen(done: seq<Step>, step: Step)
    ensures Attaches(done + [step]) == Attaches(done) + if step.AttachWindow? then 1 else 0
    ensures Creations(done + [step]) == Creations(done) + if step.AddToplevel? then 1 else 0
  {
    Snoc(done, step);
  }

  lemma AttachedThen(done: seq<Step>, step: Step, w: Id)
    requires InOrderOfTime(done)
    ensures IsAttached(done + [step], w) <==>
              (IsAttached(done, w) && step != DetachErase(w)) || (step.AttachWindow? && w == Attaches(done) + 1)
  {
    Snoc(done, step);
    CountsThen(done, step);
  }

  lemma PackageThen(done: seq<Step>, step: Step, w: Id)
    requires 1 <= w <= Attaches(done + [step])
    ensures w <= Attaches(done) ==> PackageAt(done + [step], w) == PackageAt(done, w)
    ensures w > Attaches(done) ==> step.AttachWindow? && PackageAt(done + [step], w) == step.package
  {
    Snoc(done, step);
  }

  lemma FrontAfter(done: seq<Step>, step: Step)
    ensures Front(done + [step]) == if step.SetWindowActive? && step.active && IsAttached(done, step.window)
                                    then step.window else if Retires(step, Front(done)) then 0 else Front(done)
  {
    Snoc(done, step);
  }

  lemma OneMoreWindowStep(done: seq<Step>, step: Step)
    requires InOrderOfTime(done)
    ensures Attaches(done + [step]) == Attaches(done) + if step.AttachWindow? then 1 else 0
    ensures Windows(done + [step]) == WindowsThen(Windows(done), Attaches(done), step)
    ensures Front(done + [step]) == FrontThen(Windows(done), Front(done), step)
  {
    var now, next := Windows(done + [step]), WindowsThen(Windows(done), Attaches(done), step);
    CountsThen(done, step);
    FrontAfter(done, step);
    assert forall w :: w in Windows(done) <==> IsAttached(done, w);
    forall w ensures w in now <==> w in next {
      AttachedThen(done, step, w);
    }
    forall w | w in now ensures now[w] == next[w] {
      PackageThen(done, step, w);
    }
  }

  lemma ExistsThen(done: seq<Step>, step: Step, id: Id)
    requires InOrderOfTime(done)
    ensures Exists(done + [step], id) <==>
              (Exists(done, id) && step != RemoveToplevel(id)) || (step.AddToplevel? && id == Creations(done) + 1)
  {
    Snoc(done, step);
    CountsThen(done, step);
  }

  lemma NameThen(done: seq<Step>, step: Step, id: Id)
    ensures AppIdAt(done + [step], id)
            == if step.SetAppId? && step.id == id && Exists(done, id) then step.appId else AppIdAt(done, id)
  {
    Snoc(done, step);
  }

  lemma OneMoreToplevelStep(done: seq<Step>, step: Step)
    requires InOrderOfTime(done)
    ensures Creations(done + [step]) == Creations(done) + if step.AddToplevel? then 1 else 0
    ensures Names(done + [step]) == NamesThen(Names(done), Creations(done), step)
  {
    var now, next := Names(done + [step]), NamesThen(Names(done), Creations(done), step);
    CountsThen(done, step);
    NotNamedYet(done, Creations(done) + 1);
    assert forall id :: id in Names(done) <==> Exists(done, id);
    forall id ensures id in now <==> id in next {
      ExistsThen(done, step, id);
    }
    forall id | id in now ensures now[id] == next[id] {
      NameThen(done, step, id);
    }
  }

  lemma {:induction false} NotNamedYet(done: seq<Step>, id: Id)
    requires id > Creations(done)
    ensures AppIdAt(done, id) == ""
  {
    if done != [] {
      NotNamedYet(done[..|done| - 1], id);
    }
  }

  /** The window table, and which window is active unless it is being detached. */
  predicate WindowsAgree(windows: map<Id, string>, n: nat, front: Id, s: State) {
    && s.windows == windows && s.nextWindow == n + 1
    && (forall w :: w in windows ==> 1 <= w <= n)
    && (forall c :: c in s.callers && c.Erased? ==> c.window <= n && c.window !in windows)
    && (if front != 0 then s.activeWindow == front && front in windows
        else s.activeWindow == 0 || Erased(s.activeWindow) in s.callers)
  }

  predicate NamesAgree(names: map<Id, string>, n: nat, s: State) {
    && s.tops.Keys == names.Keys && s.nextTop == n + 1
    && forall id :: id in names ==> id <= n && s.tops[id].appId == names[id]
  }

  predicate CallerStep(step: Step) {
    step.AttachWindow? || step.SetWindowActive? || step.DetachErase? || step.DetachClear?
  }

  lemma AttachAgrees(windows: map<Id, string>, n: nat, front: Id, s: State, package: string)
    requires WindowsAgree(windows, n, front, s)
    ensures WindowsAgree(windows[n + 1 := package], n + 1, front, Apply(s, AttachWindow(package)))
  {
  }

  lemma DetachAgrees(windows: map<Id, string>, n: nat, front: Id, s: State, w: Id)
    requires WindowsAgree(windows, n, front, s) && w in s.windows
    ensures WindowsAgree(windows - {w}, n, if front == w then 0 else front, Apply(s, DetachErase(w)))
  {
  }

  lemma ActiveAgrees(windows: map<Id, string>, n: nat, front: Id, s: State, w: Id, active: bool)
    requires WindowsAgree(windows, n, front, s)
    ensures WindowsAgree(windows, n, FrontThen(windows, front, SetWindowActive(w, active)),
                         Apply(s, SetWindowActive(w, active)))
  {
  }

  lemma ClearAgrees(windows: map<Id, string>, n: nat, front: Id, s: State, w: Id)
    requires WindowsAgree(windows, n, front, s) && Erased(w) in s.callers
    ensures WindowsAgree(windows, n, front, Apply(s, DetachClear(w)))
  {
  }

  lemma CallerStepAgrees(windows: map<Id, string>, n: nat, front: Id, s: State, step: Step)
    requires WindowsAgree(windows, n, front, s) && Enabled(s, step) && CallerStep(step)
    ensures WindowsAgree(WindowsThen(windows, n, step), n + if step.AttachWindow? then 1 else 0,
                         FrontThen(windows, front, step), Apply(s, step))
  {
    match step
    case AttachWindow(package) => AttachAgrees(windows, n, front, s, package);
    case DetachErase(w) => DetachAgrees(windows, n, front, s, w);
    case SetWindowActive(w, active) => ActiveAgrees(windows, n, front, s, w, active);
    case DetachClear(w) => ClearAgrees(windows, n, front, s, w);
  }

  lemma OtherStepAgrees(windows: map<Id, string>, n: nat, front: Id, s: State, step: Step)
    requires WindowsAgree(windows, n, front, s) && Enabled(s, step) && !CallerStep(step)
    ensures WindowsAgree(windows, n, front, Apply(s, step))
  {
  }

  lemma ToplevelStepAgrees(names: map<Id, string>, n: nat, s: State, step: Step)
    requires NamesAgree(names, n, s) && Enabled(s, step)
    ensures NamesAgree(NamesThen(names, n, step), n + if step.AddToplevel? then 1 else 0, Apply(s, step))
  {
  }

  /** The state is what the steps so far make of it. */
  predicate Agrees(done: seq<Step>, s: State) {
    && InOrderOfTime(done)
    && WindowsAgree(Windows(done), Attaches(done), Front(done), s)
    && NamesAgree(Names(done), Creations(done), s)
  }

  lemma WindowsStillAgree(done: seq<Step>, s: State, step: Step)
    requires InOrderOfTime(done) && WindowsAgree(Windows(done), Attaches(done), Front(done), s) && Enabled(s, step)
    ensures WindowsAgree(Windows(done + [step]), Attaches(done + [step]), Front(done + [step]), Apply(s, step))
  {
    OneMoreWindowStep(done, step);
    if CallerStep(step) {
      CallerStepAgrees(Windows(done), Attaches(done), Front(done), s, step);
    } else {
      OtherStepAgrees(Windows(done), Attaches(done), Front(done), s, step);
    }
  }

  lemma NamesStillAgree(done: seq<Step>, s: State, step: Step)
    requires InOrderOfTime(done) && NamesAgree(Names(done), Creations(done), s) && Enabled(s, step)
    ensures NamesAgree(Names(done + [step]), Creations(done + [step]), Apply(s, step))
  {
    OneMoreToplevelStep(done, step);
    ToplevelStepAgrees(Names(done), Creations(done), s, step);
  }

  lemma StillInOrder(done: seq<Step>, s: State, step: Step)
    requires Agrees(done, s) && Enabled(s, step)
    ensures InOrderOfTime(done + [step])
  {
    Snoc(done, step);
    OneMoreWindowStep(done, step);
    OneMoreToplevelStep(done, step);
  }

  lemma StillAgrees(done: seq<Step>, s: State, step: Step)
    requires Agrees(done, s) && Enabled(s, step)
    ensures Agrees(done + [step], Apply(s, step))
  {
    StillInOrder(done, s, step);
    WindowsStillAgree(done, s, step);
    NamesStillAgree(done, s, step);
  }

  lemma Regroup(done: seq<Step>, steps: seq<Step>)
    requires steps != []
    ensures done + [steps[0]] + steps[1..] == done + steps
  {
  }

  lemma {:induction false} EveryRunAgrees(done: seq<Step>, s: State, steps: seq<Step>)
    requires Agrees(done, s) && Feasible(s, steps)
    ensures Agrees(done + steps, Run(s, steps))
    decreases |steps|
  {
    if steps == [] {
      assert done + steps == done;
    } else {
      StillAgrees(done, s, steps[0]);
      EveryRunAgrees(done + [steps[0]], Apply(s, steps[0]), steps[1..]);
      Regroup(done, steps);
    }
  }

  // ---- the theorem ----

  /** No caller is between its update and its Post, and the posted work is done. */
  predicate Quiet(s: State) {
    s.callers == multiset{} && s.posted == [] && s.work == [] && s.pc.Idle?
  }

  /** The package of the window in front. */
  ghost predicate FrontShows(done: seq<Step>, w: Id, package: string) {
    IsFront(done, w) && IsAttached(done, w) && PackageAt(done, w) in ["", "*", package]
  }

  /**
   Whether the user should be seeing a toplevel of that name: the full desktop always; any other one when it is
   not HOME and the window in front is its own, or one for whatever is on top.
   */
  ghost predicate InFront(done: seq<Step>, appId: string) {
    var package := PackageOf(appId);
    package == "" || (!IsHome(package) && exists w :: FrontShows(done, w, package))
  }

  /**
   Whenever things are quiet, the toplevels are those created and not removed, with the names they were given last,
   and one that has a name is activated exactly when the windows' history has it in front.
   */
  lemma ActivationMirrorsTheFront(steps: seq<Step>, id: Id)
    requires Feasible(Init(), steps) && Quiet(Run(Init(), steps))
    ensures var s := Run(Init(), steps);
            && (id in s.tops <==> Exists(steps, id))
            && (id in s.tops ==> s.tops[id].appId == AppIdAt(steps, id))
            && (id in s.tops && AppIdAt(steps, id) != "" ==>
                  (s.tops[id].activated <==> InFront(steps, AppIdAt(steps, id))))
  {
    var s := Run(Init(), steps);
    EveryRunKeepsInv(Init(), steps);
    AgreesFromTheStart(steps);
    if id in s.tops && s.tops[id].appId != "" {
      ActivatedWhenPackageIs(s, id);
      if PackageOf(s.tops[id].appId) != "" {
        FrontIsActive(steps, s, PackageOf(s.tops[id].appId));
      }
    }
  }

  lemma AgreesFromTheStart(steps: seq<Step>)
    requires Feasible(Init(), steps)
    ensures Agrees(steps, Run(Init(), steps))
  {
    EveryRunAgrees([], Init(), steps);
    assert [] + steps == steps;
  }

  lemma ActivatedWhenPackageIs(s: State, id: Id)
    requires Inv(s) && Quiet(s) && id in s.tops && s.tops[id].appId != ""
    ensures var package := PackageOf(s.tops[id].appId);
            s.tops[id].activated <==>
              package == "" || (!IsHome(package) && (s.activePackage == "*" || s.activePackage == package))
  {
    assert !Owed(s);
    assert Mirrors(s);
  }

  lemma FrontIsActive(done: seq<Step>, s: State, package: string)
    requires WindowsAgree(Windows(done), Attaches(done), Front(done), s) && FrontOk(s)
    requires s.callers == multiset{} && package != ""
    ensures (s.activePackage == "*" || s.activePackage == package) <==> exists w :: FrontShows(done, w, package)
  {
    var front := Front(done);
    forall w ensures IsFront(done, w) <==> w != 0 && front == w {
      FrontMeans(done, w);
    }
    assert forall w :: w in Windows(done) ==> IsAttached(done, w) && Windows(done)[w] == PackageAt(done, w);
    if front != 0 && PackageAt(done, front) in ["", "*", package] {
      assert FrontShows(done, front, package);
    }
  }

  // ---- and things come to be quiet ----

  /** Nobody calls anew: the callers post, and the wayland thread does its work. */
  predicate Winding(steps: seq<Step>) {
    forall step :: step in steps ==>
      step.AttachPost? || step.ActivePost? || step.DetachClear? || step.DetachPost?
      || step.SwapPosted? || step.StartClosure? || step.ReadActive? || step.Scan?
  }

  lemma Then(s: State, step: Step, rest: seq<Step>)
    requires Enabled(s, step) && Feasible(Apply(s, step), rest)
    ensures Feasible(s, [step] + rest) && Run(s, [step] + rest) == Run(Apply(s, step), rest)
  {
    assert ([step] + rest)[1..] == rest;
  }

  function PcRank(pc: Pc): nat {
    match pc
    case Idle => 0
    case Scanning(_) => 1
    case Reading => 2
  }

  predicate Sooner(t: State, s: State) {
    || |t.callers| < |s.callers|
    || (t.callers == s.callers &&
          (|t.posted| < |s.posted| || (t.posted == s.posted &&
            (|t.work| < |s.work| || (t.work == s.work && PcRank(t.pc) < PcRank(s.pc))))))
  }

  /** From every state there is a way to quiet. */
  lemma {:induction false} Settles(s: State) returns (steps: seq<Step>)
    ensures Winding(steps) && Feasible(s, steps) && Quiet(Run(s, steps))
    decreases |s.callers|, |s.posted|, |s.work|, PcRank(s.pc)
  {
    if Quiet(s) {
      steps := [];
    } else {
      var first, t := Nearer(s);
      var rest := Settles(t);
      RunOn(s, first, rest);
      steps := first + rest;
    }
  }

  /** One step, or two, nearer to it. */
  lemma Nearer(s: State) returns (steps: seq<Step>, t: State)
    requires !Quiet(s)
    ensures Winding(steps) && Feasible(s, steps) && t == Run(s, steps) && Sooner(t, s)
  {
    if s.pc.Idle? && s.work == [] && s.callers != multiset{} {
      steps, t := OneCallerLess(s);
    } else {
      var step := if s.pc.Reading? then ReadActive else if s.pc.Scanning? then Scan
                  else if s.work != [] then StartClosure else SwapPosted;
      t := Apply(s, step);
      Then(s, step, []);
      steps := [step] + [];
    }
  }

  lemma OneLess(callers: multiset<Caller>, c: Caller)
    requires c in callers
    ensures |callers - multiset{c}| < |callers|
    ensures callers - multiset{c} + multiset{Cleared} - multiset{Cleared} == callers - multiset{c}
  {
  }

  lemma OneCallerLess(s: State) returns (steps: seq<Step>, t: State)
    requires s.callers != multiset{}
    ensures Winding(steps) && Feasible(s, steps) && t == Run(s, steps) && |t.callers| < |s.callers|
  {
    var c :| c in s.callers;
    if c.Erased? {
      steps, t := Detaches(s, c.window);
    } else {
      steps, t := Posts(s, c);
    }
  }

  lemma Detaches(s: State, w: Id) returns (steps: seq<Step>, t: State)
    requires Erased(w) in s.callers
    ensures Winding(steps) && Feasible(s, steps) && t == Run(s, steps) && |t.callers| < |s.callers|
  {
    OneLess(s.callers, Erased(w));
    var s1 := Apply(s, DetachClear(w));
    t := Apply(s1, DetachPost);
    Then(s1, DetachPost, []);
    Then(s, DetachClear(w), [DetachPost] + []);
    steps := [DetachClear(w)] + ([DetachPost] + []);
  }

  lemma Posts(s: State, c: Caller) returns (steps: seq<Step>, t: State)
    requires c in s.callers && !c.Erased?
    ensures Winding(steps) && Feasible(s, steps) && t == Run(s, steps) && |t.callers| < |s.callers|
  {
    OneLess(s.callers, c);
    var step := if c.Attached? then AttachPost else if c.Updated? then ActivePost(c.edge) else DetachPost;
    t := Apply(s, step);
    Then(s, step, []);
    steps := [step] + [];
  }

  lemma {:induction false} RunOn(s: State, a: seq<Step>, b: seq<Step>)
    requires Feasible(s, a) && Feasible(Run(s, a), b)
    ensures Feasible(s, a + b) && Run(s, a + b) == Run(Run(s, a), b)
    decreases |a|
  {
    if a == [] {
      assert a + b == b;
    } else {
      assert (a + b)[0] == a[0] && (a + b)[1..] == a[1..] + b;
      RunOn(Apply(s, a[0]), a[1..], b);
    }
  }
}
