/**
 What comes of a call, from the way the outside behaves during it: the device opens or not, the write succeeds or
 not, and the waiting loop finds one thing after another.
 */
module BinderScript {
  import opened Bytes
  import opened ParcelLayout

  datatype Code = Ok | OpenFailed | TimedOut | Dead | Protocol | Remote | NoMemory | Invalid | NoService

  datatype Reply = Reply(pick: nat, size: nat, memory: bool, status: bool, found: Option<nat>, exception: Option<S32>)

  datatype Command = Nothing | CutShort | DeadReply | FailedReply | Incoming | Answer(reply: Reply)

  /** What one turn of the waiting loop finds; after the last one the deadline has passed. */
  datatype Event = PollInterrupted | PollTimedOut | PollFailed | ReadAgain | ReadFailed | Commands(list: seq<Command>)

  /** How the outside behaves during one transaction. */
  datatype Script = Script(opens: Code, written: bool, events: seq<Event>)

  /** No reply is among them. */
  predicate Silent(events: seq<Event>) {
    forall i :: 0 <= i < |events| && events[i].Commands? ==> NoAnswer(events[i].list)
  }

  predicate NoAnswer(list: seq<Command>) {
    forall i :: 0 <= i < |list| ==> !list[i].Answer?
  }

  /** Opening the device succeeds or fails in one of two ways. */
  predicate Plausible(s: Script) {
    s.opens in [Ok, OpenFailed, Protocol]
  }

  datatype Scripts = Scripts(lookup: Script, call: Script, lookupAgain: Script, callAgain: Script)

  predicate AllPlausible(s: Scripts) {
    Plausible(s.lookup) && Plausible(s.call) && Plausible(s.lookupAgain) && Plausible(s.callAgain)
  }

  const PATH_SIZE := 256

  /** What fits the stored path. */
  function Stored(path: string): string {
    if |path| < PATH_SIZE then path else path[..PATH_SIZE - 1]
  }

  /** The codes that say what a reply said. */
  predicate IsAnswer(rc: Code) {
    rc == Ok || rc == Remote || rc == NoService
  }

  // ---- what ends the wait ----

  /** The waiting loop goes on after the others. */
  predicate Ends(c: Command) {
    c.CutShort? || c.DeadReply? || c.FailedReply? || c.Answer?
  }

  predicate EndsWait(e: Event) {
    match e
    case PollInterrupted => false
    case ReadAgain => false
    case Commands(list) => exists k :: 0 <= k < |list| && Ends(list[k])
    case _ => true
  }

  /** The first event that ends the wait. */
  predicate FirstEnd(events: seq<Event>, i: int) {
    0 <= i < |events| && EndsWait(events[i]) && forall j :: 0 <= j < i ==> !EndsWait(events[j])
  }

  predicate FirstCommand(list: seq<Command>, k: int) {
    0 <= k < |list| && Ends(list[k]) && forall j :: 0 <= j < k ==> !Ends(list[j])
  }

  ghost predicate StopsBy(events: seq<Event>, e: Event) {
    exists i :: FirstEnd(events, i) && events[i] == e
  }

  ghost predicate StopsWith(events: seq<Event>, c: Command) {
    exists i, k ::
      FirstEnd(events, i) && events[i].Commands? && FirstCommand(events[i].list, k) && events[i].list[k] == c
  }

  predicate NeverStops(events: seq<Event>) {
    forall i :: 0 <= i < |events| ==> !EndsWait(events[i])
  }

  // ---- the same, found by walking ----

  datatype Ending = Late | Broken | Refused | Answered(reply: Reply)

  function InList(list: seq<Command>): Option<Command> {
    if list == [] then None else if Ends(list[0]) then Some(list[0]) else InList(list[1..])
  }

  function ByCommand(c: Command): Ending {
    match c
    case Answer(r) => Answered(r)
    case DeadReply => Broken
    case _ => Refused
  }

  function EndingOf(events: seq<Event>): Ending {
    if events == [] then Late
    else
      match events[0]
      case PollInterrupted => EndingOf(events[1..])
      case ReadAgain => EndingOf(events[1..])
      case PollTimedOut => Late
      case PollFailed => Broken
      case ReadFailed => Broken
      case Commands(list) => if InList(list).Some? then ByCommand(InList(list).value) else EndingOf(events[1..])
  }

  lemma {:induction false} InListMeans(list: seq<Command>)
    ensures InList(list).None? <==> forall k :: 0 <= k < |list| ==> !Ends(list[k])
    ensures InList(list).Some? ==> exists k :: FirstCommand(list, k) && list[k] == InList(list).value
  {
    if list != [] {
      if Ends(list[0]) {
        assert FirstCommand(list, 0);
      } else {
        InListMeans(list[1..]);
        assert forall k :: 0 < k < |list| ==> list[k] == list[1..][k - 1];
        if InList(list).Some? {
          var k :| FirstCommand(list[1..], k) && list[1..][k] == InList(list).value;
          assert FirstCommand(list, k + 1);
        }
      }
    }
  }

  lemma OnlyOneFirst(list: seq<Command>, k: int, m: int)
    requires FirstCommand(list, k) && FirstCommand(list, m)
    ensures k == m
  {
  }

  lemma FirstEndOfRest(events: seq<Event>)
    requires events != [] && !EndsWait(events[0])
    ensures forall i :: 0 < i < |events| ==> events[i] == events[1..][i - 1]
    ensures forall i {:trigger FirstEnd(events, i)} :: FirstEnd(events, i) ==> i > 0 && FirstEnd(events[1..], i - 1)
    ensures forall i {:trigger FirstEnd(events[1..], i)} :: FirstEnd(events[1..], i) ==> FirstEnd(events, i + 1)
  {
  }

  lemma StopsByRest(events: seq<Event>, e: Event)
    requires events != [] && !EndsWait(events[0])
    ensures StopsBy(events, e) <==> StopsBy(events[1..], e)
  {
    FirstEndOfRest(events);
    var rest := events[1..];
    if i :| FirstEnd(rest, i) && rest[i] == e { assert FirstEnd(events, i + 1) && events[i + 1] == e; }
    if i :| FirstEnd(events, i) && events[i] == e { assert FirstEnd(rest, i - 1) && rest[i - 1] == e; }
  }

  lemma StopsWithRest(events: seq<Event>, c: Command)
    requires events != [] && !EndsWait(events[0])
    ensures StopsWith(events, c) <==> StopsWith(events[1..], c)
  {
    FirstEndOfRest(events);
    var rest := events[1..];
    if i, k :| FirstEnd(rest, i) && rest[i].Commands? && FirstCommand(rest[i].list, k) && rest[i].list[k] == c {
      assert FirstEnd(events, i + 1) && events[i + 1].list[k] == c;
    }
    if i, k :| FirstEnd(events, i) && events[i].Commands? && FirstCommand(events[i].list, k) && events[i].list[k] == c {
      assert FirstEnd(rest, i - 1) && rest[i - 1].list[k] == c;
    }
  }

  /** Where the wait goes on, the rest decides. */
  lemma GoesOn(events: seq<Event>, e: Event, c: Command)
    requires events != [] && !EndsWait(events[0])
    ensures StopsBy(events, e) <==> StopsBy(events[1..], e)
    ensures StopsWith(events, c) <==> StopsWith(events[1..], c)
    ensures NeverStops(events) <==> NeverStops(events[1..])
  {
    StopsByRest(events, e);
    StopsWithRest(events, c);
    FirstEndOfRest(events);
  }

  lemma StopsHere(events: seq<Event>, e: Event, c: Command)
    requires events != [] && EndsWait(events[0])
    ensures StopsBy(events, e) <==> events[0] == e
    ensures StopsWith(events, c) <==> events[0].Commands? && InList(events[0].list) == Some(c)
    ensures !NeverStops(events)
  {
    assert FirstEnd(events, 0);
    assert forall i :: FirstEnd(events, i) ==> i == 0;
    if events[0].Commands? {
      InListMeans(events[0].list);
      var k :| FirstCommand(events[0].list, k) && events[0].list[k] == InList(events[0].list).value;
      forall m | FirstCommand(events[0].list, m) ensures m == k {
        OnlyOneFirst(events[0].list, k, m);
      }
    }
  }

  /** Walking finds what the wait stops by. */
  lemma {:induction false} EndingMeans(events: seq<Event>, r: Reply)
    ensures EndingOf(events) == Late <==> NeverStops(events) || StopsBy(events, PollTimedOut)
    ensures EndingOf(events) == Broken <==>
              StopsBy(events, PollFailed) || StopsBy(events, ReadFailed) || StopsWith(events, DeadReply)
    ensures EndingOf(events) == Refused <==> StopsWith(events, CutShort) || StopsWith(events, FailedReply)
    ensures EndingOf(events) == Answered(r) <==> StopsWith(events, Answer(r))
  {
    if events != [] {
      if events[0].Commands? {
        InListMeans(events[0].list);
      }
      if EndsWait(events[0]) {
        forall e, c ensures (StopsBy(events, e) <==> events[0] == e)
                        && (StopsWith(events, c) <==> events[0].Commands? && InList(events[0].list) == Some(c)) {
          StopsHere(events, e, c);
        }
        StopsHere(events, events[0], Nothing);
      } else {
        EndingMeans(events[1..], r);
        forall e, c ensures (StopsBy(events, e) <==> StopsBy(events[1..], e))
                        && (StopsWith(events, c) <==> StopsWith(events[1..], c)) {
          GoesOn(events, e, c);
        }
        GoesOn(events, events[0], Nothing);
      }
    }
  }

  // ---- one transaction ----

  /** What the client makes of a reply. */
  function ReplyCode(r: Reply): Code {
    if r.size > MAX_REPLY then Protocol
    else if r.size > 0 && !r.memory then NoMemory
    else if r.status then Protocol
    else Ok
  }

  function EndingCode(e: Ending): Code {
    match e
    case Late => TimedOut
    case Broken => Dead
    case Refused => Protocol
    case Answered(r) => ReplyCode(r)
  }

  /** The device is open, or can be opened. */
  predicate Opens(open: bool, path: string, s: Script) {
    open || (path != "" && s.opens == Ok)
  }

  /** The result of a transaction on a connection that is open or not. */
  function CodeOf(open: bool, path: string, bad: bool, s: Script): Code {
    if bad then Invalid
    else if !Opens(open, path, s) then (if path == "" then OpenFailed else s.opens)
    else if !s.written then Dead
    else EndingCode(EndingOf(s.events))
  }

  /** Whether the connection is open afterwards: only an answer leaves it so. */
  predicate OpenAfter(open: bool, path: string, bad: bool, s: Script) {
    if bad then open else Opens(open, path, s) && s.written && EndingOf(s.events).Answered?
  }

  ghost predicate GetsAnswer(s: Script, r: Reply) {
    s.written && StopsWith(s.events, Answer(r))
  }

  /** A reply that the client can take. */
  predicate Good(r: Reply) {
    r.size <= MAX_REPLY && (r.size == 0 || r.memory) && !r.status
  }

  ghost predicate GetsGoodAnswer(s: Script, r: Reply) {
    GetsAnswer(s, r) && Good(r)
  }

  lemma AnAnswer(s: Script)
    ensures s.written && EndingOf(s.events).Answered? <==> exists r :: GetsAnswer(s, r)
    ensures forall r, q :: GetsAnswer(s, r) && GetsAnswer(s, q) ==> r == q
    ensures forall r :: GetsAnswer(s, r) ==> EndingOf(s.events) == Answered(r)
  {
    forall r ensures EndingOf(s.events) == Answered(r) <==> StopsWith(s.events, Answer(r)) {
      EndingMeans(s.events, r);
    }
    if s.written && EndingOf(s.events).Answered? {
      assert GetsAnswer(s, EndingOf(s.events).reply);
    }
  }

  /** A transaction succeeds exactly when the request is good, the device is or can be opened, the request is written,
      and what ends the wait is a reply of a size that fits, in memory that is there, and not a bare status. */
  lemma OkIff(open: bool, path: string, bad: bool, s: Script)
    requires Plausible(s)
    ensures CodeOf(open, path, bad, s) == Ok <==> !bad && Opens(open, path, s) && exists r :: GetsGoodAnswer(s, r)
  {
    AnAnswer(s);
    if CodeOf(open, path, bad, s) == Ok {
      assert GetsGoodAnswer(s, EndingOf(s.events).reply);
    }
  }

  lemma TimedOutIff(open: bool, path: string, bad: bool, s: Script)
    requires Plausible(s)
    ensures CodeOf(open, path, bad, s) == TimedOut <==>
              !bad && Opens(open, path, s) && s.written && (NeverStops(s.events) || StopsBy(s.events, PollTimedOut))
  {
    EndingMeans(s.events, Reply(0, 0, false, false, None, None));
  }

  lemma DeadIff(open: bool, path: string, bad: bool, s: Script)
    requires Plausible(s)
    ensures CodeOf(open, path, bad, s) == Dead <==>
              !bad && Opens(open, path, s)
              && (!s.written || StopsBy(s.events, PollFailed) || StopsBy(s.events, ReadFailed)
                  || StopsWith(s.events, DeadReply))
  {
    EndingMeans(s.events, Reply(0, 0, false, false, None, None));
  }

  ghost predicate GetsTooMuch(s: Script, r: Reply) {
    GetsAnswer(s, r) && 0 < r.size <= MAX_REPLY && !r.memory
  }

  lemma NoMemoryIff(open: bool, path: string, bad: bool, s: Script)
    requires Plausible(s)
    ensures CodeOf(open, path, bad, s) == NoMemory <==> !bad && Opens(open, path, s) && exists r :: GetsTooMuch(s, r)
  {
    AnAnswer(s);
    if CodeOf(open, path, bad, s) == NoMemory {
      assert GetsTooMuch(s, EndingOf(s.events).reply);
    }
  }

  ghost predicate GetsNonsense(s: Script, r: Reply) {
    GetsAnswer(s, r) && (r.size > MAX_REPLY || ((r.size == 0 || r.memory) && r.status))
  }

  lemma ProtocolIff(open: bool, path: string, bad: bool, s: Script)
    requires Plausible(s)
    ensures CodeOf(open, path, bad, s) == Protocol <==>
              !bad && if Opens(open, path, s) then
                s.written && (StopsWith(s.events, CutShort) || StopsWith(s.events, FailedReply)
                              || exists r :: GetsNonsense(s, r))
              else path != "" && s.opens == Protocol
  {
    AnAnswer(s);
    EndingMeans(s.events, Reply(0, 0, false, false, None, None));
    if CodeOf(open, path, bad, s) == Protocol && EndingOf(s.events).Answered? && Opens(open, path, s) {
      assert GetsNonsense(s, EndingOf(s.events).reply);
    }
  }

  /** What the answer says. */
  function FoundIn(s: Script): Option<nat> {
    if EndingOf(s.events).Answered? then EndingOf(s.events).reply.found else None
  }

  function ExceptionIn(s: Script): Option<S32> {
    if EndingOf(s.events).Answered? then EndingOf(s.events).reply.exception else None
  }

  // ---- lookups and platform calls ----

  /** What the client has between two calls: its path, a connection or none, a cached handle or none. */
  datatype Client = Client(path: string, open: bool, have: bool)

  function Transacted(c: Client, bad: bool, s: Script): Client {
    var open := OpenAfter(c.open, c.path, bad, s);
    Client(c.path, open, c.have && open)
  }

  function LookupCode(c: Client, s: Script): Code {
    var rc := CodeOf(c.open, c.path, false, s);
    if rc == Ok && FoundIn(s).None? then NoService else rc
  }

  datatype Tried = Tried(rc: Code, client: Client, called: bool)

  /** A call whose handle is cached or has been found. */
  function Called(c: Client, bad: bool, call: Script): Tried {
    Tried(CodeOf(c.open, c.path, bad, call), Transacted(c, bad, call), true)
  }

  function Attempted(c: Client, bad: bool, lookup: Script, call: Script): Tried {
    if c.have then Called(c, bad, call)
    else if LookupCode(c, lookup) != Ok then Tried(LookupCode(c, lookup), Transacted(c, false, lookup), false)
    else Called(Transacted(c, false, lookup).(have := true), bad, call)
  }

  /** The exception code is the last word. */
  function Judged(rc: Code, call: Script): Code {
    if rc != Ok then rc
    else match ExceptionIn(call)
         case None => Protocol
         case Some(x) => if x == 0 then Ok else Remote
  }

  datatype Platformed = Platformed(rc: Code, client: Client, again: bool)

  function PlatformOf(c: Client, bad: bool, scripts: Scripts): Platformed {
    var first := Attempted(c, bad, scripts.lookup, scripts.call);
    if first.called && first.rc == Dead then
      var second := Attempted(first.client, bad, scripts.lookupAgain, scripts.callAgain);
      Platformed(Judged(second.rc, scripts.callAgain), second.client, true)
    else Platformed(Judged(first.rc, scripts.call), first.client, false)
  }

  // ---- what that means ----

  ghost predicate FindsIt(s: Script, r: Reply) {
    GetsGoodAnswer(s, r) && r.found.Some?
  }

  /** There is a handle: cached, or found by this lookup. */
  ghost predicate HasHandle(c: Client, lookup: Script) {
    c.have || (Opens(c.open, c.path, lookup) && exists r :: FindsIt(lookup, r))
  }

  lemma HasHandleIff(c: Client, bad: bool, lookup: Script, call: Script)
    requires Plausible(lookup) && Plausible(call)
    ensures Attempted(c, bad, lookup, call).called <==> HasHandle(c, lookup)
  {
    OkIff(c.open, c.path, false, lookup);
    AnAnswer(lookup);
    if !c.have && LookupCode(c, lookup) == Ok {
      assert FindsIt(lookup, EndingOf(lookup.events).reply);
    }
  }

  /** The request goes out and gets no more than that the other side, or the connection, is dead. */
  ghost predicate Dies(s: Script) {
    !s.written || StopsBy(s.events, PollFailed) || StopsBy(s.events, ReadFailed) || StopsWith(s.events, DeadReply)
  }

  /**
   A platform call is tried again exactly when there was a handle, cached on the open connection or just found, and
   the transaction with the request found the connection dead.
   */
  lemma TriedAgainIff(c: Client, bad: bool, scripts: Scripts)
    requires AllPlausible(scripts) && (c.have ==> c.open)
    ensures PlatformOf(c, bad, scripts).again <==> !bad && HasHandle(c, scripts.lookup) && Dies(scripts.call)
  {
    HasHandleIff(c, bad, scripts.lookup, scripts.call);
    DeadIff(true, c.path, bad, scripts.call);
    AnAnswer(scripts.lookup);
    OkIff(c.open, c.path, false, scripts.lookup);
  }

  ghost predicate Succeeds(s: Script, r: Reply) {
    GetsGoodAnswer(s, r) && r.exception == Some(0)
  }

  /** One attempt brings the result home. */
  ghost predicate WorksOut(c: Client, bad: bool, lookup: Script, call: Script) {
    !bad && HasHandle(c, lookup) && exists r :: Succeeds(call, r)
  }

  lemma WorksOutIff(c: Client, bad: bool, lookup: Script, call: Script)
    requires Plausible(lookup) && Plausible(call) && (c.have ==> c.open)
    ensures Judged(Attempted(c, bad, lookup, call).rc, call) == Ok && Attempted(c, bad, lookup, call).called
            <==> WorksOut(c, bad, lookup, call)
  {
    HasHandleIff(c, bad, lookup, call);
    OkIff(true, c.path, bad, call);
    AnAnswer(call);
    AnAnswer(lookup);
    OkIff(c.open, c.path, false, lookup);
    if CodeOf(true, c.path, bad, call) == Ok && ExceptionIn(call) == Some(0) {
      assert Succeeds(call, EndingOf(call.events).reply);
    }
  }

  /** A platform call succeeds exactly when the first attempt does, or the request found the connection dead and the
      second attempt, which has to open and look up anew, does. */
  lemma PlatformOkIff(c: Client, bad: bool, scripts: Scripts)
    requires AllPlausible(scripts) && (c.have ==> c.open)
    ensures PlatformOf(c, bad, scripts).rc == Ok <==>
              || WorksOut(c, bad, scripts.lookup, scripts.call)
              || (!bad && HasHandle(c, scripts.lookup) && Dies(scripts.call)
                  && WorksOut(Client(c.path, false, false), bad, scripts.lookupAgain, scripts.callAgain))
  {
    TriedAgainIff(c, bad, scripts);
    WorksOutIff(c, bad, scripts.lookup, scripts.call);
    WorksOutIff(Client(c.path, false, false), bad, scripts.lookupAgain, scripts.callAgain);
    var first := Attempted(c, bad, scripts.lookup, scripts.call);
    if first.called && first.rc == Dead {
      assert first.client == Client(c.path, false, false);
    }
  }
}
