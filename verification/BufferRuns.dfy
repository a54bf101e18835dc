/**
 Who owns each wl_buffer, over every interleaving of the wayland thread, the render service's callback
 thread and the IPC threads that attach and detach windows.

 The wayland thread is split where it takes or gives up a mutex, or calls out.  Assumed of the others:
 the client commits valid buffers that it holds, and the render service (RS) reports a buffer only
 between a successful Flush of it and the next reset or detach of that window's queue.
 */
module BufferRuns {
  import opened BufferBooks

  /** One commit that has an output: the buffer, its import, and the window it goes to. */
  datatype Job = Job(wl: WlBuffer, sb: SurfaceBuffer, window: Window)

  datatype Maybe = NoJob | Retry(job: Job)

  /** Where the wayland thread is. */
  datatype Pc =
    | Idle
    | Routed(job: Job, again: bool)          // about to TrackInFlight
    | Tracked(job: Job, again: bool)         // about to Flush
    | Refused(job: Job, again: bool)         // the flush failed; about to UntrackInFlight
    | Resetting(job: Job)                    // about to ResetQueue
    | Collecting(window: Window, next: Maybe)   // in ReleaseInFlightOf, about to take the mutex
    | Handing(list: seq<WlBuffer>, next: Maybe) // sending wl_buffer.release for each
    | Forgetting                             // in ForgetBuffer, about to reset every queue
    | Detaching(window: Window)              // in DetachWindow's closure, about to Detach the output

  datatype State = State(
    live: set<WlBuffer>,
    held: set<WlBuffer>,                 // by the client
    watched: set<WlBuffer>,
    cache: map<WlBuffer, SurfaceBuffer>, // the importer's
    books: Books,
    rs: map<SurfaceBuffer, Window>,      // what RS may still report
    stranded: set<SurfaceBuffer>,        // in flight on a queue that a buffer's destruction reset
    windows: set<Window>,
    leaving: set<Window>,                // erased by a DetachWindow that has not posted yet
    nextWindow: Window,
    posted: seq<Window>,                 // detach closures
    work: seq<Window>,                   // those DrainPosted took over
    pc: Pc,
    commits: map<WlBuffer, nat>,
    releases: map<WlBuffer, nat>)

  datatype Step =
    | Create(wl: WlBuffer)
    | CommitNowhere(wl: WlBuffer)
    | CommitUnimported(wl: WlBuffer)
    | CommitTo(wl: WlBuffer, sb: SurfaceBuffer, window: Window)
    | DoTrack | DoFlush(ok: bool) | DoUntrack | DoReset | DoCollect(found: seq<WlBuffer>) | DoHand
    | SwapPending
    | Destroy(wl: WlBuffer) | DoResetAll
    | SwapPosted | StartClosure | DoDetach
    | Attach | DetachErase(window: Window) | DetachPost(window: Window)
    | RsReport(sb: SurfaceBuffer)

  function Init(): State {
    State({}, {}, {}, map[], Books(map[], []), map[], {}, {}, {}, 1, [], [], Idle, map[], map[])
  }

  /** The wayland thread is between two requests. */
  predicate Free(s: State) {
    s.pc.Idle? && s.work == []
  }

  ghost predicate Enabled(s: State, step: Step) {
    match step
    case Create(wl) => wl !in s.live
    case CommitNowhere(wl) => Free(s) && wl in s.held
    case CommitUnimported(wl) => Free(s) && wl in s.held
    case CommitTo(wl, sb, window) =>
      && Free(s) && wl in s.held && window in s.windows
      && (if wl in s.cache then sb == s.cache[wl]
          else sb !in s.cache.Values && sb !in s.books.inFlight && sb !in s.rs)
    case DoTrack => s.pc.Routed?
    case DoFlush(_) => s.pc.Tracked?
    case DoUntrack => s.pc.Refused?
    case DoReset => s.pc.Resetting?
    case DoCollect(found) => s.pc.Collecting? && Enumerates(found, OnWindow(s.books, s.pc.window))
    case DoHand => s.pc.Handing?
    case SwapPending => Free(s)
    case Destroy(wl) => Free(s) && wl in s.live
    case DoResetAll => s.pc.Forgetting?
    case SwapPosted => Free(s)
    case StartClosure => s.pc.Idle? && s.work != []
    case DoDetach => s.pc.Detaching?
    case Attach => true
    case DetachErase(window) => window in s.windows
    case DetachPost(window) => window in s.leaving
    case RsReport(sb) => sb in s.rs
  }

  function Count(m: map<WlBuffer, nat>, wl: WlBuffer): nat {
    if wl in m then m[wl] else 0
  }

  /** The client's commit takes the buffer from it. */
  function Commit(s: State, wl: WlBuffer): State {
    s.(held := s.held - {wl}, commits := s.commits[wl := Count(s.commits, wl) + 1])
  }

  /** wl_buffer.release. */
  function Release(s: State, wl: WlBuffer): State {
    s.(held := s.held + {wl}, releases := s.releases[wl := Count(s.releases, wl) + 1])
  }

  function Next(next: Maybe): Pc {
    match next
    case NoJob => Idle
    case Retry(job) => Routed(job, true)
  }

  function Drop(rs: map<SurfaceBuffer, Window>, windows: set<Window>): map<SurfaceBuffer, Window> {
    map sb | sb in rs && rs[sb] !in windows :: rs[sb]
  }

  function InFlightOn(s: State, windows: set<Window>): set<SurfaceBuffer> {
    set sb | sb in s.books.inFlight && s.books.inFlight[sb].window in windows
  }

  ghost function Apply(s: State, step: Step): State
    requires Enabled(s, step)
  {
    match step
    case Create(wl) =>
      s.(live := s.live + {wl}, held := s.held + {wl}, commits := s.commits[wl := 0], releases := s.releases[wl := 0])
    case CommitNowhere(wl) => Release(Commit(s, wl), wl)
    case CommitUnimported(wl) => Release(Commit(s, wl), wl).(watched := s.watched + {wl})
    case CommitTo(wl, sb, window) =>
      Commit(s, wl).(watched := s.watched + {wl}, cache := s.cache[wl := sb], pc := Routed(Job(wl, sb, window), false))
    case DoTrack =>
      var j := s.pc.job;
      s.(books := Track(s.books, j.sb, j.wl, j.window), stranded := s.stranded - {j.sb},
         pc := Tracked(j, s.pc.again))
    case DoFlush(ok) =>
      var j := s.pc.job;
      if ok then s.(rs := s.rs[j.sb := j.window], pc := Idle) else s.(pc := Refused(j, s.pc.again))
    case DoUntrack =>
      var j := s.pc.job;
      s.(books := Untrack(s.books, j.sb), pc := if s.pc.again then Handing([j.wl], NoJob) else Resetting(j))
    case DoReset =>
      var j := s.pc.job;
      s.(rs := Drop(s.rs, {j.window}), pc := Collecting(j.window, Retry(j)))
    case DoCollect(found) =>
      s.(books := WithoutWindow(s.books, s.pc.window), pc := Handing(found, s.pc.next))
    case DoHand =>
      if s.pc.list == [] then s.(pc := Next(s.pc.next))
      else Release(s, s.pc.list[0]).(pc := Handing(s.pc.list[1..], s.pc.next))
    case SwapPending =>
      s.(books := s.books.(releasedPending := []), pc := Handing(s.books.releasedPending, NoJob))
    case Destroy(wl) =>
      var t := s.(live := s.live - {wl}, held := s.held - {wl});
      if wl in s.watched then
        t.(watched := s.watched - {wl}, cache := s.cache - {wl}, books := Forget(s.books, wl), pc := Forgetting)
      else t
    case DoResetAll =>
      s.(rs := Drop(s.rs, s.windows), stranded := s.stranded + InFlightOn(s, s.windows), pc := Idle)
    case SwapPosted => s.(work := s.posted, posted := [])
    case StartClosure => s.(work := s.work[1..], pc := Detaching(s.work[0]))
    case DoDetach => s.(rs := Drop(s.rs, {s.pc.window}), pc := Collecting(s.pc.window, NoJob))
    case Attach => s.(windows := s.windows + {s.nextWindow}, nextWindow := s.nextWindow + 1)
    case DetachErase(window) => s.(windows := s.windows - {window}, leaving := s.leaving + {window})
    case DetachPost(window) => s.(leaving := s.leaving - {window}, posted := s.posted + [window])
    case RsReport(sb) => s.(rs := s.rs - {sb}, books := Report(s.books, sb))
  }

  // ---- ownership ----

  predicate HasJob(s: State) {
    match s.pc
    case Routed(_, _) | Tracked(_, _) | Refused(_, _) | Resetting(_) => true
    case Collecting(_, next) => next.Retry?
    case Handing(_, next) => next.Retry?
    case _ => false
  }

  function TheJob(s: State): Job
    requires HasJob(s)
  {
    match s.pc
    case Routed(job, _) => job
    case Tracked(job, _) => job
    case Refused(job, _) => job
    case Resetting(job) => job
    case Collecting(_, next) => next.job
    case Handing(_, next) => next.job
  }

  /** The wayland thread is in the middle of committing the buffer, and it is not in the books. */
  predicate BeingCommitted(s: State, wl: WlBuffer) {
    HasJob(s) && TheJob(s).wl == wl && !s.pc.Tracked? && !s.pc.Refused?
  }

  /** A release of the buffer is about to be sent. */
  predicate BeingHanded(s: State, wl: WlBuffer) {
    s.pc.Handing? && wl in s.pc.list
  }

  predicate IsInFlight(s: State, wl: WlBuffer) {
    wl in s.cache && s.cache[wl] in s.books.inFlight
  }

  function One(b: bool): nat {
    if b then 1 else 0
  }

  /** In how many places the buffer is. */
  function Places(s: State, wl: WlBuffer): nat {
    One(wl in s.held) + One(IsInFlight(s, wl)) + One(wl in s.books.releasedPending)
    + One(BeingCommitted(s, wl)) + One(BeingHanded(s, wl))
  }

  predicate Distinct(s: State) {
    NoDup(s.books.releasedPending) && (s.pc.Handing? ==> NoDup(s.pc.list))
  }

  predicate Imported(s: State) {
    && s.cache.Keys <= s.watched <= s.live
    && s.held <= s.live
    && (forall x, y :: x in s.cache && y in s.cache && s.cache[x] == s.cache[y] ==> x == y)
    && (forall sb :: sb in s.books.inFlight ==>
          s.books.inFlight[sb].wl in s.cache && s.cache[s.books.inFlight[sb].wl] == sb)
    && (forall wl :: wl in s.books.releasedPending ==> wl in s.watched)
    && (s.pc.Handing? ==> forall wl :: wl in s.pc.list ==> wl in s.live)
  }

  /** The commit in progress is of an imported buffer; while it is tracked it is in the books, and RS has not got it. */
  predicate JobOk(s: State) {
    HasJob(s) ==>
      var j := TheJob(s);
      && j.wl in s.cache && s.cache[j.wl] == j.sb
      && (s.pc.Tracked? || s.pc.Refused? ==>
            j.sb in s.books.inFlight && s.books.inFlight[j.sb] == InFlight(j.wl, j.window) && j.sb !in s.rs)
      && (s.pc.Collecting? ==> s.pc.window == j.window)
  }

  predicate ExactlyOnePlace(s: State) {
    forall wl :: wl in s.live ==> Places(s, wl) == 1
  }

  predicate Accounted(s: State) {
    forall wl :: wl in s.live ==> Count(s.commits, wl) == Count(s.releases, wl) + (if wl in s.held then 0 else 1)
  }

  // ---- what RS has ----

  /** RS has no imported buffer that is not in flight on the same window. */
  predicate RsOk(s: State) {
    && (forall wl :: wl in s.cache && s.cache[wl] in s.rs ==>
          s.cache[wl] in s.books.inFlight && s.books.inFlight[s.cache[wl]].window == s.rs[s.cache[wl]])
    && (s.pc.Collecting? ==> forall sb :: sb in s.rs ==> s.rs[sb] != s.pc.window)
  }

  // ---- windows ----

  /** A window whose detach closure has not run to its end. */
  predicate Open(s: State, window: Window) {
    || window in s.windows || window in s.leaving || window in s.posted || window in s.work
    || (s.pc.Detaching? && s.pc.window == window)
    || (s.pc.Collecting? && s.pc.window == window)
  }

  ghost predicate WindowsOk(s: State) {
    && (forall w :: w in s.windows ==> w < s.nextWindow)
    && (forall w :: w in s.leaving ==> w < s.nextWindow)
    && (forall w :: w in s.posted ==> w < s.nextWindow)
    && (forall w :: w in s.work ==> w < s.nextWindow)
    && (s.pc.Detaching? || s.pc.Collecting? ==> s.pc.window < s.nextWindow)
    && (forall sb :: sb in s.books.inFlight ==> Open(s, s.books.inFlight[sb].window))
    && (HasJob(s) ==> StillOpen(s, TheJob(s).window) && s.work == [])
  }

  /** The windows whose detach is posted or under way, in the order their closures run. */
  function Leaving(s: State): seq<Window> {
    (if s.pc.Detaching? || (s.pc.Collecting? && s.pc.next.NoJob?) then [s.pc.window] else []) + s.work + s.posted
  }

  /** A window id is attached, or being detached, once. */
  predicate OnceEach(windows: set<Window>, leaving: set<Window>, line: seq<Window>) {
    && NoDup(line) && windows !! leaving
    && (forall w :: w in line ==> w !in windows && w !in leaving)
  }

  predicate StillOpen(s: State, window: Window) {
    window in s.windows || window in s.leaving || window in s.posted
  }

  /** What is in flight is with RS, or the wayland thread is at it, or a destroyed buffer stranded it. */
  predicate StrandedOk(s: State) {
    forall sb :: sb in s.books.inFlight ==>
      || sb in s.rs || sb in s.stranded
      || ((s.pc.Tracked? || s.pc.Refused?) && s.pc.job.sb == sb)
      || (s.pc.Collecting? && s.books.inFlight[sb].window == s.pc.window)
  }

  /** RS has not got what is stranded, and neither has the commit in progress. */
  predicate StrandedApart(s: State) {
    forall sb :: sb in s.books.inFlight && sb in s.stranded ==>
      sb !in s.rs && !((s.pc.Tracked? || s.pc.Refused?) && s.pc.job.sb == sb)
  }

  ghost predicate Inv(s: State) {
    && Imported(s) && Distinct(s) && JobOk(s) && ExactlyOnePlace(s) && Accounted(s)
    && RsOk(s) && WindowsOk(s) && OnceEach(s.windows, s.leaving, Leaving(s)) && StrandedOk(s) && StrandedApart(s)
  }

  // ---- every step keeps it ----

  predicate ClientStep(step: Step) {
    step.Create? || step.CommitNowhere? || step.CommitUnimported? || step.CommitTo? || step.Destroy?
  }

  predicate FlushStep(step: Step) {
    step.DoTrack? || step.DoFlush? || step.DoUntrack? || step.DoReset?
  }

  predicate CollectStep(step: Step) {
    step.DoCollect? || step.RsReport?
  }

  predicate HandStep(step: Step) {
    step.DoHand? || step.SwapPending?
  }

  predicate WindowStep(step: Step) {
    !ClientStep(step) && !FlushStep(step) && !CollectStep(step) && !HandStep(step)
  }

  lemma ClientStepKeepsImported(s: State, step: Step)
    requires Imported(s) && JobOk(s) && Enabled(s, step) && ClientStep(step)
    ensures Imported(Apply(s, step))
  {
  }

  lemma FlushStepKeepsImported(s: State, step: Step)
    requires Imported(s) && JobOk(s) && Enabled(s, step) && FlushStep(step)
    ensures Imported(Apply(s, step))
  {
  }

  lemma CollectStepKeepsImported(s: State, step: Step)
    requires Imported(s) && JobOk(s) && Enabled(s, step) && CollectStep(step)
    ensures Imported(Apply(s, step))
  {
  }

  lemma HandStepKeepsImported(s: State, step: Step)
    requires Imported(s) && JobOk(s) && Enabled(s, step) && HandStep(step)
    ensures Imported(Apply(s, step))
  {
  }

  lemma WindowStepKeepsImported(s: State, step: Step)
    requires Imported(s) && JobOk(s) && Enabled(s, step) && WindowStep(step)
    ensures Imported(Apply(s, step))
  {
  }

  lemma StepKeepsDistinct(s: State, step: Step)
    requires Imported(s) && Distinct(s) && ExactlyOnePlace(s) && Enabled(s, step)
    ensures Distinct(Apply(s, step))
  {
  }

  lemma ClientStepKeepsJobOk(s: State, step: Step)
    requires Imported(s) && JobOk(s) && RsOk(s) && ExactlyOnePlace(s) && Enabled(s, step) && ClientStep(step)
    ensures JobOk(Apply(s, step))
  {
  }

  lemma FlushStepKeepsJobOk(s: State, step: Step)
    requires Imported(s) && JobOk(s) && RsOk(s) && ExactlyOnePlace(s) && Enabled(s, step) && FlushStep(step)
    ensures JobOk(Apply(s, step))
  {
  }

  lemma CollectStepKeepsJobOk(s: State, step: Step)
    requires Imported(s) && JobOk(s) && RsOk(s) && ExactlyOnePlace(s) && Enabled(s, step) && CollectStep(step)
    ensures JobOk(Apply(s, step))
  {
  }

  lemma HandStepKeepsJobOk(s: State, step: Step)
    requires Imported(s) && JobOk(s) && RsOk(s) && ExactlyOnePlace(s) && Enabled(s, step) && HandStep(step)
    ensures JobOk(Apply(s, step))
  {
  }

  lemma WindowStepKeepsJobOk(s: State, step: Step)
    requires Imported(s) && JobOk(s) && RsOk(s) && ExactlyOnePlace(s) && Enabled(s, step) && WindowStep(step)
    ensures JobOk(Apply(s, step))
  {
  }

  lemma DestroyKeepsPlace(s: State, dead: WlBuffer, wl: WlBuffer)
    requires Imported(s) && Distinct(s) && JobOk(s) && Enabled(s, Destroy(dead))
    requires wl in s.live && wl != dead && Places(s, wl) == 1
    ensures Places(Apply(s, Destroy(dead)), wl) == 1
  {
  }

  lemma ClientStepKeepsPlace(s: State, step: Step, wl: WlBuffer)
    requires Imported(s) && Distinct(s) && JobOk(s) && Enabled(s, step) && ClientStep(step)
    requires wl in s.live ==> Places(s, wl) == 1
    requires wl in Apply(s, step).live
    ensures Places(Apply(s, step), wl) == 1
  {
    if step.Destroy? {
      DestroyKeepsPlace(s, step.wl, wl);
    }
  }

  lemma FlushStepKeepsPlace(s: State, step: Step, wl: WlBuffer)
    requires Imported(s) && Distinct(s) && JobOk(s) && Enabled(s, step) && FlushStep(step)
    requires wl in s.live ==> Places(s, wl) == 1
    requires wl in Apply(s, step).live
    ensures Places(Apply(s, step), wl) == 1
  {
  }

  lemma CollectStepKeepsPlace(s: State, step: Step, wl: WlBuffer)
    requires Imported(s) && Distinct(s) && JobOk(s) && Enabled(s, step) && CollectStep(step)
    requires wl in s.live ==> Places(s, wl) == 1
    requires wl in Apply(s, step).live
    ensures Places(Apply(s, step), wl) == 1
  {
  }

  lemma HandKeepsPlace(s: State, wl: WlBuffer)
    requires Imported(s) && Distinct(s) && JobOk(s) && Enabled(s, DoHand)
    requires wl in s.live ==> Places(s, wl) == 1
    requires wl in Apply(s, DoHand).live
    ensures Places(Apply(s, DoHand), wl) == 1
  {
  }

  lemma SwapKeepsPlace(s: State, wl: WlBuffer)
    requires Imported(s) && Distinct(s) && JobOk(s) && Enabled(s, SwapPending)
    requires wl in s.live ==> Places(s, wl) == 1
    requires wl in Apply(s, SwapPending).live
    ensures Places(Apply(s, SwapPending), wl) == 1
  {
  }

  lemma HandStepKeepsPlace(s: State, step: Step, wl: WlBuffer)
    requires Imported(s) && Distinct(s) && JobOk(s) && Enabled(s, step) && HandStep(step)
    requires wl in s.live ==> Places(s, wl) == 1
    requires wl in Apply(s, step).live
    ensures Places(Apply(s, step), wl) == 1
  {
    if step.DoHand? { HandKeepsPlace(s, wl); } else { SwapKeepsPlace(s, wl); }
  }

  lemma WindowStepKeepsPlace(s: State, step: Step, wl: WlBuffer)
    requires Imported(s) && Distinct(s) && JobOk(s) && Enabled(s, step) && WindowStep(step)
    requires wl in s.live ==> Places(s, wl) == 1
    requires wl in Apply(s, step).live
    ensures Places(Apply(s, step), wl) == 1
  {
  }

  lemma ClientStepKeepsAccount(s: State, step: Step, wl: WlBuffer)
    requires Imported(s) && ExactlyOnePlace(s) && Accounted(s) && Enabled(s, step) && ClientStep(step)
    requires wl in Apply(s, step).live
    ensures var t := Apply(s, step);
            Count(t.commits, wl) == Count(t.releases, wl) + (if wl in t.held then 0 else 1)
  {
  }

  lemma FlushStepKeepsAccount(s: State, step: Step, wl: WlBuffer)
    requires Imported(s) && ExactlyOnePlace(s) && Accounted(s) && Enabled(s, step) && FlushStep(step)
    requires wl in Apply(s, step).live
    ensures var t := Apply(s, step);
            Count(t.commits, wl) == Count(t.releases, wl) + (if wl in t.held then 0 else 1)
  {
  }

  lemma CollectStepKeepsAccount(s: State, step: Step, wl: WlBuffer)
    requires Imported(s) && ExactlyOnePlace(s) && Accounted(s) && Enabled(s, step) && CollectStep(step)
    requires wl in Apply(s, step).live
    ensures var t := Apply(s, step);
            Count(t.commits, wl) == Count(t.releases, wl) + (if wl in t.held then 0 else 1)
  {
  }

  lemma HandStepKeepsAccount(s: State, step: Step, wl: WlBuffer)
    requires Imported(s) && ExactlyOnePlace(s) && Accounted(s) && Enabled(s, step) && HandStep(step)
    requires wl in Apply(s, step).live
    ensures var t := Apply(s, step);
            Count(t.commits, wl) == Count(t.releases, wl) + (if wl in t.held then 0 else 1)
  {
  }

  lemma WindowStepKeepsAccount(s: State, step: Step, wl: WlBuffer)
    requires Imported(s) && ExactlyOnePlace(s) && Accounted(s) && Enabled(s, step) && WindowStep(step)
    requires wl in Apply(s, step).live
    ensures var t := Apply(s, step);
            Count(t.commits, wl) == Count(t.releases, wl) + (if wl in t.held then 0 else 1)
  {
  }

  lemma FlushStepKeepsRsOk(s: State, step: Step)
    requires Imported(s) && ExactlyOnePlace(s) && JobOk(s) && RsOk(s) && Enabled(s, step) && FlushStep(step)
    ensures RsOk(Apply(s, step))
  {
  }

  lemma OtherStepKeepsRsOk(s: State, step: Step)
    requires Imported(s) && JobOk(s) && RsOk(s) && Enabled(s, step) && !FlushStep(step)
    ensures RsOk(Apply(s, step))
  {
  }

  lemma ClientStepKeepsWindowsOk(s: State, step: Step)
    requires WindowsOk(s) && JobOk(s) && Enabled(s, step) && ClientStep(step)
    ensures WindowsOk(Apply(s, step))
  {
  }

  lemma FlushStepKeepsWindowsOk(s: State, step: Step)
    requires WindowsOk(s) && JobOk(s) && Enabled(s, step) && FlushStep(step)
    ensures WindowsOk(Apply(s, step))
  {
  }

  lemma CollectStepKeepsWindowsOk(s: State, step: Step)
    requires WindowsOk(s) && JobOk(s) && Enabled(s, step) && CollectStep(step)
    ensures WindowsOk(Apply(s, step))
  {
  }

  lemma HandStepKeepsWindowsOk(s: State, step: Step)
    requires WindowsOk(s) && JobOk(s) && Enabled(s, step) && HandStep(step)
    ensures WindowsOk(Apply(s, step))
  {
  }

  lemma WindowStepKeepsWindowsOk(s: State, step: Step)
    requires WindowsOk(s) && JobOk(s) && Enabled(s, step) && WindowStep(step)
    ensures WindowsOk(Apply(s, step))
  {
    if step.StartClosure? {
      assert s.work[0] in s.work && forall w :: w in s.work <==> w == s.work[0] || w in s.work[1..];
    }
  }

  lemma FlushStepKeepsStrandedApart(s: State, step: Step)
    requires JobOk(s) && StrandedApart(s) && Enabled(s, step) && FlushStep(step)
    ensures StrandedApart(Apply(s, step))
  {
  }

  lemma ClientStepKeepsStrandedApart(s: State, step: Step)
    requires StrandedApart(s) && Enabled(s, step) && ClientStep(step)
    ensures StrandedApart(Apply(s, step))
  {
  }

  lemma OtherStepKeepsStrandedApart(s: State, step: Step)
    requires Imported(s) && RsOk(s) && StrandedApart(s) && Enabled(s, step) && !FlushStep(step)
    ensures StrandedApart(Apply(s, step))
  {
    if ClientStep(step) {
      ClientStepKeepsStrandedApart(s, step);
    }
  }

  lemma FlushStepKeepsStrandedOk(s: State, step: Step)
    requires Imported(s) && JobOk(s) && RsOk(s) && StrandedOk(s) && Enabled(s, step) && FlushStep(step)
    ensures StrandedOk(Apply(s, step))
  {
  }

  lemma OtherStepKeepsStrandedOk(s: State, step: Step)
    requires Imported(s) && JobOk(s) && RsOk(s) && StrandedOk(s) && Enabled(s, step) && !FlushStep(step)
    ensures StrandedOk(Apply(s, step))
  {
  }

  lemma ClientStepKeepsLeaving(s: State, step: Step)
    requires Enabled(s, step) && (ClientStep(step) || FlushStep(step) || HandStep(step))
    ensures Leaving(Apply(s, step)) == Leaving(s)
  {
  }

  /** A posted detach joins the end of the line, and leaves its front once its closure has collected. */
  lemma LeavingAfter(s: State, step: Step)
    requires Enabled(s, step)
    ensures step.DetachPost? ==> Leaving(Apply(s, step)) == Leaving(s) + [step.window]
    ensures step.DoCollect? && s.pc.next.NoJob? ==> Leaving(s) == [s.pc.window] + Leaving(Apply(s, step))
    ensures !step.DetachPost? && !(step.DoCollect? && s.pc.next.NoJob?) ==> Leaving(Apply(s, step)) == Leaving(s)
  {
    if ClientStep(step) || FlushStep(step) || HandStep(step) {
      ClientStepKeepsLeaving(s, step);
    }
  }

  lemma NoDupCons(w: Window, list: seq<Window>)
    requires NoDup([w] + list)
    ensures NoDup(list) && w !in list
  {
    assert forall i :: 0 <= i < |list| ==> list[i] == ([w] + list)[i + 1];
    assert ([w] + list)[0] == w;
  }

  lemma WindowSetsAfter(s: State, step: Step)
    requires Enabled(s, step)
    ensures var t := Apply(s, step);
            match step
            case Attach =>
              t.windows == s.windows + {s.nextWindow} && t.leaving == s.leaving && t.nextWindow == s.nextWindow + 1
            case DetachErase(w) => t.windows == s.windows - {w} && t.leaving == s.leaving + {w}
            case DetachPost(w) => t.windows == s.windows && t.leaving == s.leaving - {w}
            case _ => t.windows == s.windows && t.leaving == s.leaving
    ensures s.nextWindow <= Apply(s, step).nextWindow
  {
  }

  lemma StepKeepsOnceEach(s: State, step: Step)
    requires WindowsOk(s) && OnceEach(s.windows, s.leaving, Leaving(s)) && Enabled(s, step)
    ensures var t := Apply(s, step); OnceEach(t.windows, t.leaving, Leaving(t))
  {
    LeavingAfter(s, step);
    WindowSetsAfter(s, step);
    LineIsKnown(s);
    Shuffle(s.windows, s.leaving, Leaving(s), s.nextWindow);
    if step.DoCollect? && s.pc.next.NoJob? {
      NoDupCons(s.pc.window, Leaving(Apply(s, step)));
    }
  }

  lemma LineIsKnown(s: State)
    requires WindowsOk(s)
    ensures (forall w :: w in s.windows ==> w < s.nextWindow) && forall w :: w in s.leaving ==> w < s.nextWindow
    ensures forall w :: w in Leaving(s) ==> w < s.nextWindow
  {
  }

  lemma Shuffle(windows: set<Window>, leaving: set<Window>, line: seq<Window>, next: Window)
    requires OnceEach(windows, leaving, line)
    requires (forall w :: w in windows ==> w < next) && forall w :: w in leaving ==> w < next
    requires forall w :: w in line ==> w < next
    ensures OnceEach(windows + {next}, leaving, line)
    ensures forall w :: w in windows ==> OnceEach(windows - {w}, leaving + {w}, line)
    ensures forall w :: w in leaving ==> OnceEach(windows, leaving - {w}, line + [w])
  {
  }

  lemma StepKeepsImported(s: State, step: Step)
    requires Imported(s) && JobOk(s) && Enabled(s, step)
    ensures Imported(Apply(s, step))
  {
    if ClientStep(step) { ClientStepKeepsImported(s, step); }
    else if FlushStep(step) { FlushStepKeepsImported(s, step); }
    else if CollectStep(step) { CollectStepKeepsImported(s, step); }
    else if HandStep(step) { HandStepKeepsImported(s, step); }
    else { WindowStepKeepsImported(s, step); }
  }

  lemma StepKeepsJobOk(s: State, step: Step)
    requires Imported(s) && JobOk(s) && RsOk(s) && ExactlyOnePlace(s) && Enabled(s, step)
    ensures JobOk(Apply(s, step))
  {
    if ClientStep(step) { ClientStepKeepsJobOk(s, step); }
    else if FlushStep(step) { FlushStepKeepsJobOk(s, step); }
    else if CollectStep(step) { CollectStepKeepsJobOk(s, step); }
    else if HandStep(step) { HandStepKeepsJobOk(s, step); }
    else { WindowStepKeepsJobOk(s, step); }
  }

  lemma StepKeepsPlaces(s: State, step: Step)
    requires Imported(s) && Distinct(s) && JobOk(s) && ExactlyOnePlace(s) && Enabled(s, step)
    ensures ExactlyOnePlace(Apply(s, step))
  {
    forall wl | wl in Apply(s, step).live ensures Places(Apply(s, step), wl) == 1 {
      if ClientStep(step) { ClientStepKeepsPlace(s, step, wl); }
      else if FlushStep(step) { FlushStepKeepsPlace(s, step, wl); }
      else if CollectStep(step) { CollectStepKeepsPlace(s, step, wl); }
      else if HandStep(step) { HandStepKeepsPlace(s, step, wl); }
      else { WindowStepKeepsPlace(s, step, wl); }
    }
  }

  lemma StepKeepsAccounted(s: State, step: Step)
    requires Imported(s) && ExactlyOnePlace(s) && Accounted(s) && Enabled(s, step)
    ensures Accounted(Apply(s, step))
  {
    var t := Apply(s, step);
    forall wl | wl in t.live ensures Count(t.commits, wl) == Count(t.releases, wl) + (if wl in t.held then 0 else 1) {
      if ClientStep(step) { ClientStepKeepsAccount(s, step, wl); }
      else if FlushStep(step) { FlushStepKeepsAccount(s, step, wl); }
      else if CollectStep(step) { CollectStepKeepsAccount(s, step, wl); }
      else if HandStep(step) { HandStepKeepsAccount(s, step, wl); }
      else { WindowStepKeepsAccount(s, step, wl); }
    }
  }

  lemma StepKeepsWindowsOk(s: State, step: Step)
    requires WindowsOk(s) && JobOk(s) && Enabled(s, step)
    ensures WindowsOk(Apply(s, step))
  {
    if ClientStep(step) { ClientStepKeepsWindowsOk(s, step); }
    else if FlushStep(step) { FlushStepKeepsWindowsOk(s, step); }
    else if CollectStep(step) { CollectStepKeepsWindowsOk(s, step); }
    else if HandStep(step) { HandStepKeepsWindowsOk(s, step); }
    else { WindowStepKeepsWindowsOk(s, step); }
  }

  lemma StepKeepsInv(s: State, step: Step)
    requires Inv(s) && Enabled(s, step)
    ensures Inv(Apply(s, step))
  {
    StepKeepsImported(s, step);
    StepKeepsDistinct(s, step);
    StepKeepsJobOk(s, step);
    StepKeepsPlaces(s, step);
    StepKeepsAccounted(s, step);
    if FlushStep(step) { FlushStepKeepsRsOk(s, step); } else { OtherStepKeepsRsOk(s, step); }
    StepKeepsWindowsOk(s, step);
    StepKeepsOnceEach(s, step);
    if FlushStep(step) { FlushStepKeepsStrandedOk(s, step); } else { OtherStepKeepsStrandedOk(s, step); }
    if FlushStep(step) { FlushStepKeepsStrandedApart(s, step); } else { OtherStepKeepsStrandedApart(s, step); }
  }

  // ---- every run ----

  ghost predicate Feasible(s: State, steps: seq<Step>)
    decreases |steps|
  {
    steps == [] || (Enabled(s, steps[0]) && Feasible(Apply(s, steps[0]), steps[1..]))
  }

  ghost function Run(s: State, steps: seq<Step>): State
    requires Feasible(s, steps)
    decreases |steps|
  {
    if steps == [] then s else Run(Apply(s, steps[0]), steps[1..])
  }

  lemma {:induction false} EveryRunKeepsInv(s: State, steps: seq<Step>)
    requires Inv(s) && Feasible(s, steps)
    ensures Inv(Run(s, steps))
    decreases |steps|
  {
    if steps != [] {
      StepKeepsInv(s, steps[0]);
      EveryRunKeepsInv(Apply(s, steps[0]), steps[1..]);
    }
  }

  /**
   Every live buffer is always in exactly one place (with the client, in flight, waiting to be released,
   being committed, or being handed back), and its releases are its commits less the one still owed.
   */
  lemma ReleasedExactlyOnce(steps: seq<Step>, wl: WlBuffer)
    requires Feasible(Init(), steps) && wl in Run(Init(), steps).live
    ensures var s := Run(Init(), steps);
            Places(s, wl) == 1 && Count(s.commits, wl) == Count(s.releases, wl) + (if wl in s.held then 0 else 1)
  {
    EveryRunKeepsInv(Init(), steps);
  }

  /** RS will not report a buffer that the client holds, so it cannot be released a second time. */
  lemma NeverReportedWhileHeld(steps: seq<Step>, wl: WlBuffer)
    requires Feasible(Init(), steps)
    requires wl in Run(Init(), steps).held && wl in Run(Init(), steps).cache
    ensures Run(Init(), steps).cache[wl] !in Run(Init(), steps).rs
  {
    EveryRunKeepsInv(Init(), steps);
    HeldIsNotWithRs(Run(Init(), steps), wl);
  }

  lemma HeldIsNotWithRs(s: State, wl: WlBuffer)
    requires Inv(s) && wl in s.held && wl in s.cache
    ensures s.cache[wl] !in s.rs
  {
    assert Places(s, wl) == 1;
  }

  // ---- detached windows ----

  /** The window's detach closure has run to its end. */
  predicate Closed(s: State, window: Window) {
    window < s.nextWindow && window !in s.windows && window !in s.leaving && window !in Leaving(s)
  }

  lemma StepKeepsClosed(s: State, step: Step, window: Window)
    requires Closed(s, window) && Enabled(s, step)
    ensures Closed(Apply(s, step), window)
  {
    LeavingAfter(s, step);
    WindowSetsAfter(s, step);
  }

  lemma {:induction false} ClosedForEver(s: State, steps: seq<Step>, window: Window)
    requires Inv(s) && Closed(s, window) && Feasible(s, steps)
    ensures Closed(Run(s, steps), window)
    decreases |steps|
  {
    if steps != [] {
      StepKeepsInv(s, steps[0]);
      StepKeepsClosed(s, steps[0], window);
      ClosedForEver(Apply(s, steps[0]), steps[1..], window);
    }
  }

  lemma ClosedHasNothing(s: State, window: Window)
    requires Inv(s) && Closed(s, window)
    ensures forall sb :: sb in s.books.inFlight ==> s.books.inFlight[sb].window != window
  {
  }

  lemma CollectingCloses(s: State, found: seq<WlBuffer>)
    requires Inv(s) && s.pc.Collecting? && s.pc.next.NoJob? && Enabled(s, DoCollect(found))
    ensures Closed(Apply(s, DoCollect(found)), s.pc.window)
  {
    LeavingAfter(s, DoCollect(found));
    assert Leaving(s)[0] == s.pc.window;
    NoDupCons(s.pc.window, Leaving(Apply(s, DoCollect(found))));
  }

  /** The last thing the closure does is to collect what is in flight on its window; from then on nothing ever is. */
  lemma NothingStrandedOnDetachedWindow(before: seq<Step>, found: seq<WlBuffer>, after: seq<Step>)
    requires Feasible(Init(), before)
    requires var s := Run(Init(), before); s.pc.Collecting? && s.pc.next.NoJob? && Enabled(s, DoCollect(found))
    requires Feasible(Apply(Run(Init(), before), DoCollect(found)), after)
    ensures var s := Run(Init(), before);
            var t := Run(Apply(s, DoCollect(found)), after);
            forall sb :: sb in t.books.inFlight ==> t.books.inFlight[sb].window != s.pc.window
  {
    var s := Run(Init(), before);
    EveryRunKeepsInv(Init(), before);
    var t := Apply(s, DoCollect(found));
    StepKeepsInv(s, DoCollect(found));
    CollectingCloses(s, found);
    ClosedForEver(t, after, s.pc.window);
    EveryRunKeepsInv(t, after);
    ClosedHasNothing(Run(t, after), s.pc.window);
  }
}
