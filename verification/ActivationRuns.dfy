/**
 Activation over every interleaving of the wayland thread with the IPC threads that attach, detach and
 activate windows.  An IPC thread updates the window table under its mutex and only then posts a closure;
 the wayland thread reads the active package under one mutex and walks the toplevels under another.
 The legacy output is not attached.
 */
module ActivationRuns {
  import opened Activation

  /** An IPC thread between its update and its Post. */
  datatype Caller = Attached | Updated(edge: bool) | Erased(window: Id) | Cleared

  datatype Closure = Resize | Activate(edge: bool) | Detached

  datatype Pc = Idle | Reading | Scanning(active: string)

  datatype State = State(
    tops: Table,
    nextTop: Id,
    windows: map<Id, string>,   // each window's package
    nextWindow: Id,
    activeWindow: Id,           // 0: none
    activePackage: string,
    callers: multiset<Caller>,
    posted: seq<Closure>,
    work: seq<Closure>,
    pc: Pc)

  datatype Step =
    | AddToplevel | RemoveToplevel(id: Id) | SetAppId(id: Id, appId: string)
    | SwapPosted | StartClosure | ReadActive | Scan
    | AttachWindow(package: string) | AttachPost
    | SetWindowActive(window: Id, active: bool) | ActivePost(edge: bool)
    | DetachErase(window: Id) | DetachClear(window: Id) | DetachPost

  function Init(): State {
    State(map[], 1, map[], 1, 0, "", multiset{}, [], [], Idle)
  }

  predicate Free(s: State) {
    s.pc.Idle? && s.work == []
  }

  predicate Enabled(s: State, step: Step) {
    match step
    case AddToplevel => Free(s)
    case RemoveToplevel(id) => Free(s) && id in s.tops
    case SetAppId(id, appId) => Free(s)
    case SwapPosted => Free(s)
    case StartClosure => s.pc.Idle? && s.work != []
    case ReadActive => s.pc.Reading?
    case Scan => s.pc.Scanning?
    case AttachWindow(_) => true
    case AttachPost => Attached in s.callers
    case SetWindowActive(window, _) => true
    case ActivePost(edge) => Updated(edge) in s.callers
    case DetachErase(window) => window in s.windows
    case DetachClear(window) => Erased(window) in s.callers
    case DetachPost => Cleared in s.callers
  }

  /** What a window in front shows: its package, or whatever is on top. */
  function Key(package: string): string {
    if package == "" then "*" else package
  }

  function Apply(s: State, step: Step): State
    requires Enabled(s, step)
  {
    match step
    case AddToplevel => s.(tops := s.tops[s.nextTop := Toplevel("", false, false)], nextTop := s.nextTop + 1)
    case RemoveToplevel(id) => s.(tops := s.tops - {id})
    case SetAppId(id, appId) =>
      if id !in s.tops || s.tops[id].appId == appId then s
      else s.(tops := s.tops[id := s.tops[id].(appId := appId, home := IsHome(PackageOf(appId)))], pc := Reading)
    case SwapPosted => s.(work := s.posted, posted := [])
    case StartClosure => s.(work := s.work[1..], pc := if s.work[0].Resize? then Idle else Reading)
    case ReadActive => s.(pc := Scanning(s.activePackage))
    case Scan => s.(tops := Mirrored(s.tops, s.pc.active), pc := Idle)
    case AttachWindow(package) =>
      s.(windows := s.windows[s.nextWindow := package], nextWindow := s.nextWindow + 1,
         callers := s.callers + multiset{Attached})
    case AttachPost => s.(callers := s.callers - multiset{Attached}, posted := s.posted + [Resize])
    case SetWindowActive(window, active) =>
      if window !in s.windows then s
      else
        var t := s.(callers := s.callers + multiset{Updated(active)});
        if active then t.(activeWindow := window, activePackage := Key(s.windows[window]))
        else if s.activeWindow == window then t.(activeWindow := 0, activePackage := "")
        else t
    case ActivePost(edge) => s.(callers := s.callers - multiset{Updated(edge)}, posted := s.posted + [Activate(edge)])
    case DetachErase(window) => s.(windows := s.windows - {window}, callers := s.callers + multiset{Erased(window)})
    case DetachClear(window) =>
      var t := s.(callers := s.callers - multiset{Erased(window)} + multiset{Cleared});
      if s.activeWindow == window then t.(activeWindow := 0, activePackage := "") else t
    case DetachPost => s.(callers := s.callers - multiset{Cleared}, posted := s.posted + [Detached])
  }

  // ---- the invariant ----

  predicate Activates(list: seq<Closure>) {
    Activate(true) in list || Activate(false) in list || Detached in list
  }

  /** Some thread has yet to bring the toplevels up to date. */
  predicate Owed(s: State) {
    Updated(true) in s.callers || Updated(false) in s.callers || Cleared in s.callers
    || Activates(s.posted) || Activates(s.work)
  }

  predicate Mirrors(s: State) {
    forall id :: id in s.tops && Named(s.tops[id]) ==> s.tops[id].activated == Want(s.tops[id], s.activePackage)
  }

  predicate UpToDate(s: State) {
    match s.pc
    case Idle => Owed(s) || Mirrors(s)
    case Reading => true
    case Scanning(active) => Owed(s) || active == s.activePackage
  }

  /** The active package is that of the window in front, unless that window is being detached. */
  predicate FrontOk(s: State) {
    && 0 < s.nextWindow && (forall w :: w in s.windows ==> 0 < w < s.nextWindow)
    && (if s.activeWindow == 0 then s.activePackage == ""
        else Erased(s.activeWindow) in s.callers
             || (s.activeWindow in s.windows && s.activePackage == Key(s.windows[s.activeWindow])))
  }

  predicate HomeOk(s: State) {
    forall id :: id in s.tops ==> s.tops[id].home == IsHome(PackageOf(s.tops[id].appId))
  }

  predicate Inv(s: State) {
    UpToDate(s) && FrontOk(s) && HomeOk(s)
  }

  predicate PostStep(step: Step) {
    step.AttachPost? || step.ActivePost? || step.DetachPost?
  }

  lemma PostStepKeepsOwed(s: State, step: Step)
    requires Enabled(s, step) && Owed(s) && PostStep(step)
    ensures Owed(Apply(s, step))
  {
  }

  lemma StepKeepsOwed(s: State, step: Step)
    requires Enabled(s, step) && Owed(s) && !step.StartClosure?
    ensures Owed(Apply(s, step))
  {
    if PostStep(step) {
      PostStepKeepsOwed(s, step);
    }
  }

  lemma StartKeepsUpToDate(s: State)
    requires UpToDate(s) && Enabled(s, StartClosure)
    ensures UpToDate(Apply(s, StartClosure))
  {
    assert forall c :: c in s.work <==> c == s.work[0] || c in s.work[1..];
  }

  predicate TableStep(step: Step) {
    step.AttachWindow? || step.SetWindowActive? || step.DetachErase? || step.DetachClear?
  }

  /** Whoever changes the active package owes an update. */
  lemma TableStepKeepsUpToDate(s: State, step: Step)
    requires UpToDate(s) && !Owed(s) && Enabled(s, step) && TableStep(step)
    ensures UpToDate(Apply(s, step))
  {
  }

  lemma OtherStepKeepsUpToDate(s: State, step: Step)
    requires UpToDate(s) && !Owed(s) && Enabled(s, step) && !TableStep(step) && !step.StartClosure?
    ensures UpToDate(Apply(s, step))
  {
  }

  lemma StepKeepsUpToDate(s: State, step: Step)
    requires UpToDate(s) && Enabled(s, step)
    ensures UpToDate(Apply(s, step))
  {
    if step.StartClosure? {
      StartKeepsUpToDate(s);
    } else if Owed(s) {
      StepKeepsOwed(s, step);
    } else if TableStep(step) {
      TableStepKeepsUpToDate(s, step);
    } else {
      OtherStepKeepsUpToDate(s, step);
    }
  }

  lemma TableStepKeepsFrontOk(s: State, step: Step)
    requires FrontOk(s) && Enabled(s, step) && TableStep(step)
    ensures FrontOk(Apply(s, step))
  {
  }

  lemma OtherStepKeepsFrontOk(s: State, step: Step)
    requires FrontOk(s) && Enabled(s, step) && !TableStep(step)
    ensures FrontOk(Apply(s, step))
  {
  }

  lemma StepKeepsHomeOk(s: State, step: Step)
    requires HomeOk(s) && Enabled(s, step)
    ensures HomeOk(Apply(s, step))
  {
  }

  lemma StepKeepsInv(s: State, step: Step)
    requires Inv(s) && Enabled(s, step)
    ensures Inv(Apply(s, step))
  {
    StepKeepsUpToDate(s, step);
    if TableStep(step) { TableStepKeepsFrontOk(s, step); } else { OtherStepKeepsFrontOk(s, step); }
    StepKeepsHomeOk(s, step);
  }

  predicate Feasible(s: State, steps: seq<Step>)
    decreases |steps|
  {
    steps == [] || (Enabled(s, steps[0]) && Feasible(Apply(s, steps[0]), steps[1..]))
  }

  function Run(s: State, steps: seq<Step>): State
    requires Feasible(s, steps)
    decreases |steps|
  {
    if steps == [] then s else Run(Apply(s, steps[0]), steps[1..])
  }

  lemma {:induction false} EveryRunKeepsInv(s: State, steps: seq<Step>)
    requires Inv(s) && Feasible(s, steps)
    ensures Inv(Run(s, steps))
    decreases |steps|
  {
    if steps != [] {
      StepKeepsInv(s, steps[0]);
      EveryRunKeepsInv(Apply(s, steps[0]), steps[1..]);
    }
  }
}
