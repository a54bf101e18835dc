/**
 Calls over a binder connection.  A reply carries no mark that says which request it answers, so a call
 that gives up must close the connection: otherwise its late reply would be taken for the next call's.

 The kernel is modelled by what it knows of the open connection: the transactions sent on it and not yet
 answered.  It replies to any one of those.  Everything else it does is a script of results.
 */
module BinderCall {
  import opened Bytes
  import opened ParcelLayout
  import opened BinderScript

  /** A remote object's handle means something only on the connection it came by; the service manager is
      handle 0 of every connection. */
  datatype Handle = Manager | Handle(conn: nat, number: nat)

  datatype What = Lookup | Platform(code: nat, payload: nat) | Other(payload: nat)

  /** One transaction given to the kernel. */
  datatype Sent = Sent(conn: nat, handle: Handle, what: What)

  /** `answers` is the place in the kernel's record of the transaction that the reply belongs to. */
  datatype Outcome = Outcome(rc: Code, answers: nat, found: Option<Handle>, exception: Option<S32>)

  /** A platform call goes to a handle that came by the connection it is sent on. */
  predicate OnItsOwn(s: Sent) {
    s.what.Platform? ==> s.handle.Handle? && s.handle.conn == s.conn
  }

  function Failure(rc: Code): Outcome {
    Outcome(rc, 0, None, None)
  }

  class Wdb {
    var path: string
    var open: bool
    var conn: nat              // how many connections there have been
    var havePlatform: bool
    var platform: Handle
    var waiting: seq<nat>      // the kernel's: transactions of the open connection without an answer
    var log: seq<Sent>         // the kernel's record

    function Look(): Client
      reads this
    {
      Client(path, open, havePlatform)
    }

    /** Between calls: closed, or nothing unanswered; and a cached handle is the open connection's. */
    ghost predicate Valid()
      reads this
    {
      && |path| < PATH_SIZE && (open ==> waiting == [])
      && (havePlatform ==> platform.Handle? && open && platform.conn == conn)
      && forall i :: 0 <= i < |log| ==> log[i].conn <= conn && OnItsOwn(log[i])
    }

    constructor (path: string)
      ensures Valid() && Look() == Client(Stored(path), false, false) && log == []
    {
      this.path := Stored(path);
      open, conn, havePlatform, platform, waiting, log := false, 0, false, Manager, [], [];
    }

    method Reset()
      modifies this`open, this`havePlatform, this`waiting
      ensures !open && !havePlatform
    {
      open, havePlatform, waiting := false, false, [];
    }

    method SetPath(to: string)
      requires Valid()
      modifies this`path, this`open, this`havePlatform, this`waiting
      ensures Valid() && path == Stored(to)
      ensures if old(path) == to then open == old(open) && havePlatform == old(havePlatform) else !open && !havePlatform
    {
      if path == to {
        return;
      }
      Reset();
      path := Stored(to);
    }

    method Connect(opens: Code) returns (rc: Code)
      requires Valid() && opens in [Ok, OpenFailed, Protocol]
      modifies this`open, this`conn, this`waiting
      ensures Valid() && old(conn) <= conn && (rc == Ok <==> open) && rc in [Ok, OpenFailed, Protocol]
      ensures old(open) ==> open && conn == old(conn)
      ensures !old(open) && open ==> conn == old(conn) + 1
      ensures open <==> old(open) || (path != "" && opens == Ok)
      ensures !open ==> rc == if path == "" then OpenFailed else opens
    {
      if open {
        return Ok;
      }
      if path == "" {
        return OpenFailed;
      }
      if opens != Ok {
        return opens;
      }
      open, conn, waiting := true, conn + 1, [];
      rc := Ok;
    }

    /** The outcome is what the ending of the wait says. */
    predicate Settled(out: Outcome, e: Ending, wantHandle: bool)
      reads this
    {
      && out.rc == EndingCode(e)
      && (out.found.Some? ==> e.Answered? && wantHandle && e.reply.found.Some?
                              && out.found.value == Handle(conn, e.reply.found.value))
      && (out.rc == Ok ==> e.Answered? && (out.found.Some? <==> wantHandle && e.reply.found.Some?)
                           && out.exception == e.reply.exception)
    }

    /** A BR_REPLY: to whichever unanswered transaction the kernel picks. */
    method TakeReply(r: Reply, wantHandle: bool) returns (out: Outcome)
      requires open && waiting != []
      modifies this`waiting
      ensures exists i :: 0 <= i < |old(waiting)| && waiting == old(waiting)[..i] + old(waiting)[i + 1..]
                          && (out.rc == Ok ==> out.answers == old(waiting)[i])
      ensures out.rc == ReplyCode(r)
      ensures out.found.Some? ==> wantHandle && r.found.Some? && out.found.value == Handle(conn, r.found.value)
      ensures out.rc == Ok ==> (out.found.Some? <==> wantHandle && r.found.Some?) && out.exception == r.exception
    {
      var i := r.pick % |waiting|;
      var answers := waiting[i];
      waiting := waiting[..i] + waiting[i + 1..];
      if r.size > MAX_REPLY {
        return Failure(Protocol);
      }
      if r.size > 0 && !r.memory {
        return Failure(NoMemory);
      }
      var found := if wantHandle && r.found.Some? then Some(Handle(conn, r.found.value)) else None;
      out := Outcome(if r.status then Protocol else Ok, answers, found, r.exception);
    }

    /** The commands of one read; `done` says that the call is over. */
    method TakeCommands(list: seq<Command>, wantHandle: bool, ghost mine: nat) returns (done: bool, out: Outcome)
      requires open && waiting == [mine]
      modifies this`open, this`havePlatform, this`waiting
      ensures !done ==> open && waiting == [mine] && havePlatform == old(havePlatform)
      ensures open ==> havePlatform == old(havePlatform)
      ensures !open ==> !havePlatform
      ensures done && open ==> waiting == []
      ensures done && out.rc == Ok ==> open && out.answers == mine && !NoAnswer(list)
      ensures done && out.rc == Dead ==> !open
      ensures done == InList(list).Some?
      ensures done ==> Settled(out, ByCommand(InList(list).value), wantHandle) && (open <==> InList(list).value.Answer?)
    {
      done, out := true, Failure(Protocol);
      for i := 0 to |list|
        invariant open && waiting == [mine] && havePlatform == old(havePlatform)
        invariant out == Failure(Protocol) && InList(list) == InList(list[i..])
      {
        assert list[i..][1..] == list[i + 1..];
        match list[i] {
          case CutShort =>
            Reset();
            return;
          case DeadReply =>
            Reset();
            return true, Failure(Dead);
          case FailedReply =>
            Reset();
            return;
          case Answer(r) =>
            out := TakeReply(r, wantHandle);
            return;
          case Nothing =>
          case Incoming =>
        }
      }
      done := false;
    }

    /** The waiting loop. */
    method Await(events: seq<Event>, wantHandle: bool, ghost mine: nat) returns (out: Outcome)
      requires open && waiting == [mine]
      modifies this`open, this`havePlatform, this`waiting
      ensures open ==> waiting == [] && havePlatform == old(havePlatform)
      ensures !open ==> !havePlatform
      ensures out.rc == Ok ==> open && out.answers == mine && !Silent(events)
      ensures out.rc == Dead ==> !open
      ensures Settled(out, EndingOf(events), wantHandle) && (open <==> EndingOf(events).Answered?)
    {
      for i := 0 to |events|
        invariant open && waiting == [mine] && havePlatform == old(havePlatform)
        invariant EndingOf(events) == EndingOf(events[i..])
      {
        assert events[i..][1..] == events[i + 1..];
        match events[i] {
          case PollInterrupted =>
          case ReadAgain =>
          case PollTimedOut =>
            Reset();
            return Failure(TimedOut);
          case PollFailed =>
            Reset();
            return Failure(Dead);
          case ReadFailed =>
            Reset();
            return Failure(Dead);
          case Commands(list) =>
            var done;
            done, out := TakeCommands(list, wantHandle, mine);
            if done {
              return;
            }
        }
      }
      Reset();
      out := Failure(TimedOut);
    }

    /**
     One call.  However it ends, it leaves the connection closed or with nothing unanswered; a success is
     the answer to what this very call sent.
     */
    method Transact(handle: Handle, what: What, bad: bool, wantHandle: bool, s: Script) returns (out: Outcome)
      requires Valid() && Plausible(s)
      requires what.Platform? ==> havePlatform && handle == platform
      modifies this
      ensures Valid() && path == old(path)
      ensures log == old(log) || log == old(log) + [Sent(conn, handle, what)]
      ensures old(conn) <= conn && (old(open) ==> conn == old(conn))
      ensures !old(open) && log != old(log) ==> old(conn) < conn
      ensures out.rc == Ok ==> open && |log| == |old(log)| + 1 && out.answers == |old(log)| && !Silent(s.events)
      ensures out.rc == CodeOf(old(open), path, bad, s) && Look() == Transacted(old(Look()), bad, s)
      ensures out.rc == Ok ==> (out.found.Some? <==> wantHandle && FoundIn(s).Some?) && out.exception == ExceptionIn(s)
      ensures out.found.Some? ==>
                open && wantHandle && FoundIn(s).Some? && out.found.value == Handle(conn, FoundIn(s).value)
      ensures havePlatform ==> platform == old(platform)
    {
      if bad {
        return Failure(Invalid);
      }
      var rc := Connect(s.opens);
      if rc != Ok {
        return Failure(rc);
      }
      if !s.written {
        Reset();
        return Failure(Dead);
      }
      ghost var mine := |log|;
      waiting := waiting + [|log|];
      log := log + [Sent(conn, handle, what)];
      out := Await(s.events, wantHandle, mine);
    }

    /** A name's handle from the service manager, which every connection knows. */
    method GetService(bad: bool, s: Script) returns (out: Outcome)
      requires Valid() && Plausible(s)
      modifies this
      ensures Valid() && path == old(path)
      ensures log == old(log) || log == old(log) + [Sent(conn, Manager, Lookup)]
      ensures old(conn) <= conn && (old(open) ==> conn == old(conn))
      ensures !old(open) && log != old(log) ==> old(conn) < conn
      ensures out.rc == Ok || out.rc == NoService ==>
                open && |log| == |old(log)| + 1 && out.answers == |old(log)| && !Silent(s.events)
      ensures !bad ==> out.rc == LookupCode(old(Look()), s)
      ensures Look() == Transacted(old(Look()), bad, s)
      ensures out.rc == Ok ==> out.found.Some?
      ensures out.rc == Dead ==> !open
      ensures out.rc != Remote
      ensures out.found.Some? ==> open && FoundIn(s).Some? && out.found.value == Handle(conn, FoundIn(s).value)
      ensures havePlatform ==> platform == old(platform)
    {
      out := Transact(Manager, Lookup, bad, true, s);
      if out.rc == Ok && out.found.None? {
        out := out.(rc := NoService);
      }
    }

    /** The handle of the platform service, cached if it is found. */
    method FindPlatform(lookup: Script) returns (out: Outcome)
      requires Valid() && Plausible(lookup) && !havePlatform
      modifies this
      ensures Valid() && path == old(path)
      ensures log == old(log) || log == old(log) + [Sent(conn, Manager, Lookup)]
      ensures old(conn) <= conn && (old(open) ==> conn == old(conn))
      ensures !old(open) && log != old(log) ==> old(conn) < conn
      ensures out.rc == LookupCode(old(Look()), lookup)
      ensures Look() == Transacted(old(Look()), false, lookup).(have := out.rc == Ok)
      ensures out.rc == Ok || out.rc == NoService ==>
                open && |log| == |old(log)| + 1 && out.answers == |old(log)| && !Silent(lookup.events)
      ensures out.rc == Dead ==> !open
      ensures out.rc != Remote
    {
      out := GetService(false, lookup);
      if out.found.Some? {
        platform := out.found.value;
      }
      if out.rc == Ok {
        havePlatform := true;
      }
    }

    /** One attempt of a platform call: the handle, unless it is cached, and then the call, if there is a handle. */
    method Attempt(code: nat, payload: nat, bad: bool, lookup: Script, call: Script)
      returns (out: Outcome, called: bool)
      requires Valid() && Plausible(lookup) && Plausible(call)
      modifies this
      ensures Valid() && path == old(path) && old(log) <= log
      ensures OneCall(log[|old(log)|..], code, payload)
      ensures forall i :: |old(log)| <= i < |log| ==>
                old(conn) <= log[i].conn && (!old(open) ==> old(conn) < log[i].conn)
      ensures called ==> old(havePlatform) || !Silent(lookup.events)
      ensures !called ==> out.rc != Ok && (log == old(log) || log == old(log) + [Sent(conn, Manager, Lookup)])
      ensures out.rc == Ok || out.rc == NoService ==>
                open && |old(log)| < |log| == out.answers + 1
                && log[out.answers].what == if out.rc == NoService then Lookup else Platform(code, payload)
      ensures Tried(out.rc, Look(), called) == Attempted(old(Look()), bad, lookup, call)
      ensures out.rc == Ok ==> out.exception == ExceptionIn(call)
      ensures out.rc == Dead ==> !open
      ensures out.rc != Remote
    {
      if !havePlatform {
        out := FindPlatform(lookup);
        if out.rc != Ok {
          LookupThenCall(old(log), log, log, code, payload);
          return out, false;
        }
      }
      ghost var looked := log;
      out := Transact(platform, Platform(code, payload), bad, false, call);
      called := true;
      LookupThenCall(old(log), looked, log, code, payload);
    }

    /**
     A platform call.  The request is sent at most twice: again only when the connection was found dead with
     the request, and then on a new connection, with a handle looked up there.  A lookup that gets no answer
     ends the call.
     */
    method PlatformCall(code: nat, payload: nat, bad: bool, scripts: Scripts)
      returns (out: Outcome, again: bool)
      requires Valid() && AllPlausible(scripts)
      modifies this
      ensures Valid() && path == old(path) && old(log) <= log
      ensures exists k :: |old(log)| <= k <= |log| && OneCall(log[|old(log)|..k], code, payload)
                          && OneCall(log[k..], code, payload)
                          && forall i, j :: |old(log)| <= i < k <= j < |log| ==> log[i].conn < log[j].conn
      ensures !old(havePlatform) && Silent(scripts.lookup.events) ==>
                out.rc != Ok && (log == old(log) || log == old(log) + [Sent(conn, Manager, Lookup)])
      ensures IsAnswer(out.rc) ==>
                |old(log)| < |log| == out.answers + 1
                && log[out.answers].what == if out.rc == NoService then Lookup else Platform(code, payload)
      ensures Platformed(out.rc, Look(), again) == PlatformOf(old(Look()), bad, scripts)
      ensures out.rc == Ok ==> out.exception == Some(0)
      ensures out.rc == Remote ==> out.exception.Some? && out.exception.value != 0
    {
      var called;
      out, called := Attempt(code, payload, bad, scripts.lookup, scripts.call);
      ghost var k, between := |log|, conn;
      ghost var first := log;
      again := called && out.rc == Dead;
      if again {
        out, called := Attempt(code, payload, bad, scripts.lookupAgain, scripts.callAgain);
        assert log[|old(log)|..k] == first[|old(log)|..];
      } else {
        assert log[|old(log)|..k] == log[|old(log)|..];
        assert log[k..] == [];
      }
      if out.rc == Ok {
        if out.exception.None? {
          out := out.(rc := Protocol);
        } else if out.exception.value != 0 {
          out := out.(rc := Remote);
        }
      }
    }
  }

  /** Some lookups, and at most one transaction that carries the request. */
  predicate OneCall(more: seq<Sent>, code: nat, payload: nat) {
    || (forall i :: 0 <= i < |more| ==> more[i].what.Lookup?)
    || (more != [] && more[|more| - 1].what == Platform(code, payload)
        && forall i :: 0 <= i < |more| - 1 ==> more[i].what.Lookup?)
  }

  lemma LookupThenCall(before: seq<Sent>, looked: seq<Sent>, after: seq<Sent>, code: nat, payload: nat)
    requires looked == before || (|looked| == |before| + 1 && before <= looked && looked[|before|].what.Lookup?)
    requires after == looked
             || (|after| == |looked| + 1 && looked <= after && after[|looked|].what == Platform(code, payload))
    ensures before <= after && OneCall(after[|before|..], code, payload)
  {
    var more := after[|before|..];
    assert forall i :: 0 <= i < |more| ==> more[i] == after[|before| + i];
  }

  // ---- any number of calls on one connection object ----

  datatype Call =
    | Raw(handle: Handle, payload: nat, bad: bool, script: Script)
    | Find(script: Script)
    | OnPlatform(code: nat, payload: nat, bad: bool, scripts: Scripts)
    | Repath(path: string)
    | Drop

  predicate CallOk(c: Call) {
    match c
    case Raw(_, _, _, s) => Plausible(s)
    case Find(s) => Plausible(s)
    case OnPlatform(_, _, _, ss) => AllPlausible(ss)
    case _ => true
  }

  function Request(c: Call): What {
    match c
    case Raw(_, payload, _, _) => Other(payload)
    case OnPlatform(code, payload, _, _) => Platform(code, payload)
    case _ => Lookup
  }

  datatype Made = Made(rc: Code, client: Client)

  /** The result of a call, and what the client has afterwards. */
  function Make(client: Client, c: Call): Made {
    match c
    case Raw(_, _, bad, s) => Made(CodeOf(client.open, client.path, bad, s), Transacted(client, bad, s))
    case Find(s) => Made(LookupCode(client, s), Transacted(client, false, s))
    case OnPlatform(_, _, bad, ss) =>
      Made(PlatformOf(client, bad, ss).rc, PlatformOf(client, bad, ss).client)
    case Repath(path) => Made(Invalid, if client.path == path then client else Client(Stored(path), false, false))
    case Drop => Made(Invalid, Client(client.path, false, false))
  }

  /** What the client has after a series of calls. */
  function ClientAfter(path: string, calls: seq<Call>): Client {
    if calls == [] then Client(Stored(path), false, false)
    else Make(ClientAfter(path, calls[..|calls| - 1]), calls[|calls| - 1]).client
  }

  /**
   A reply that is returned answers the last of the transactions from `from` to `to`: the one with the request, or
   the lookup if there is no such service.
   */
  predicate OwnReply(out: Outcome, c: Call, log: seq<Sent>, from: nat, to: nat) {
    IsAnswer(out.rc) ==>
      from < to <= |log| && out.answers == to - 1
      && log[out.answers].what == if out.rc == NoService then Lookup else Request(c)
  }

  method Do(b: Wdb, c: Call) returns (out: Outcome)
    requires b.Valid() && CallOk(c)
    modifies b
    ensures b.Valid() && old(b.log) <= b.log
    ensures OwnReply(out, c, b.log, |old(b.log)|, |b.log|)
    ensures Made(out.rc, b.Look()) == Make(old(b.Look()), c)
  {
    out := Failure(Invalid);
    match c {
      case Raw(handle, payload, bad, s) => out := b.Transact(handle, Other(payload), bad, false, s);
      case Find(s) => out := b.GetService(false, s);
      case OnPlatform(code, payload, bad, ss) => var again; out, again := b.PlatformCall(code, payload, bad, ss);
      case Repath(path) => b.SetPath(path);
      case Drop => b.Reset();
    }
  }

  /**
   Over any series of calls, however each of them fails.  `starts[i]` and `starts[i + 1]` bound what call i
   sent: every reply that is returned, be it a result, an exception or that there is no such service, answers the
   last transaction of the very call that returns it, which carries that call's request or lookup.  Whatever goes to
   the platform goes to a handle of the connection it is sent on.  Which calls succeed, and how the others fail,
   follows from how the outside behaves during each of them.
   */
  method Session(path: string, calls: seq<Call>) returns (outs: seq<Outcome>, log: seq<Sent>, starts: seq<nat>)
    requires forall i :: 0 <= i < |calls| ==> CallOk(calls[i])
    ensures |outs| == |calls| && |starts| == |calls| + 1 && starts[0] == 0 && starts[|calls|] == |log|
    ensures forall i, j :: 0 <= i <= j < |starts| ==> starts[i] <= starts[j]
    ensures forall i :: 0 <= i < |outs| ==> OwnReply(outs[i], calls[i], log, starts[i], starts[i + 1])
    ensures forall i :: 0 <= i < |outs| ==> outs[i].rc == CodeAt(path, calls, i)
    ensures forall k :: 0 <= k < |log| ==> OnItsOwn(log[k])
  {
    var b := new Wdb(path);
    outs, starts := [], [0];
    for n := 0 to |calls|
      invariant b.Valid() && fresh(b) && |outs| == n && b.Look() == ClientAfter(path, calls[..n])
      invariant Bounds(starts, n, |b.log|) && Foretold(path, calls, outs) && OwnReplies(outs, calls, b.log, starts)
    {
      ghost var before := b.log;
      var out := Do(b, calls[n]);
      OneMoreCall(path, calls, outs, out);
      ClientThen(path, calls, n);
      OneMoreReply(outs, calls, before, b.log, starts, out);
      outs, starts := outs + [out], starts + [|b.log|];
    }
    log := b.log;
  }

  /** Where the calls' transactions begin. */
  predicate Bounds(starts: seq<nat>, n: nat, len: nat) {
    |starts| == n + 1 && starts[0] == 0 && starts[n] == len
    && forall i, j :: 0 <= i <= j < |starts| ==> starts[i] <= starts[j]
  }

  predicate OwnReplies(outs: seq<Outcome>, calls: seq<Call>, log: seq<Sent>, starts: seq<nat>) {
    && |outs| <= |calls| && |starts| == |outs| + 1
    && forall i :: 0 <= i < |outs| ==> OwnReply(outs[i], calls[i], log, starts[i], starts[i + 1])
  }

  /** What call i comes to, after the calls before it. */
  function CodeAt(path: string, calls: seq<Call>, i: nat): Code
    requires i < |calls|
  {
    Make(ClientAfter(path, calls[..i]), calls[i]).rc
  }

  predicate Foretold(path: string, calls: seq<Call>, outs: seq<Outcome>) {
    |outs| <= |calls| && forall i :: 0 <= i < |outs| ==> outs[i].rc == CodeAt(path, calls, i)
  }

  lemma OneMoreCall(path: string, calls: seq<Call>, outs: seq<Outcome>, out: Outcome)
    requires |outs| < |calls| && Foretold(path, calls, outs) && out.rc == CodeAt(path, calls, |outs|)
    ensures Foretold(path, calls, outs + [out])
  {
  }

  lemma ClientThen(path: string, calls: seq<Call>, n: nat)
    requires n < |calls|
    ensures ClientAfter(path, calls[..n + 1]) == Make(ClientAfter(path, calls[..n]), calls[n]).client
  {
    assert calls[..n + 1][..n] == calls[..n];
  }

  lemma OneMoreReply(outs: seq<Outcome>, calls: seq<Call>, before: seq<Sent>, log: seq<Sent>, starts: seq<nat>,
                     out: Outcome)
    requires |outs| < |calls| && OwnReplies(outs, calls, before, starts) && before <= log
    requires Bounds(starts, |outs|, |before|) && OwnReply(out, calls[|outs|], log, |before|, |log|)
    ensures OwnReplies(outs + [out], calls, log, starts + [|log|]) && Bounds(starts + [|log|], |outs| + 1, |log|)
  {
    var outs1, starts1 := outs + [out], starts + [|log|];
    forall i | 0 <= i < |outs1| ensures OwnReply(outs1[i], calls[i], log, starts1[i], starts1[i + 1]) {
      if i < |outs| {
        assert OwnReply(outs[i], calls[i], before, starts[i], starts[i + 1]);
      }
    }
  }
}
