/**
 Which of Android's task windows (toplevels) are ACTIVATED.  Activation follows the OHOS window in front,
 and a hand-over must not pass through a moment with nothing activated: Android's display would go to sleep.
 */
module Activation {

  type Id = nat

  datatype Toplevel = Toplevel(appId: string, home: bool, activated: bool)

  type Table = map<Id, Toplevel>

  const APP_ID_PREFIX := "waydroid."

  function PackageOf(appId: string): string {
    if APP_ID_PREFIX <= appId then appId[|APP_ID_PREFIX|..] else ""
  }

  /** The package is what follows the prefix, and no other name has one. */
  lemma PackageIs(package: string, appId: string)
    ensures PackageOf("waydroid." + package) == package
    ensures PackageOf(appId) != "" ==> appId == "waydroid." + PackageOf(appId)
  {
    assert APP_ID_PREFIX <= "waydroid." + package;
  }

  /** Android's HOME, which is never shown. */
  predicate IsHome(package: string) {
    package == "org.lineageos.setupwizard" || package == "com.android.launcher3"
  }

  predicate Named(t: Toplevel) {
    t.appId != ""
  }

  /** Whether a named toplevel is to be activated while `active` is in front; "*" is whatever is on top. */
  predicate Want(t: Toplevel, active: string) {
    var package := PackageOf(t.appId);
    package == "" || (!t.home && (active == "*" || package == active))
  }

  /** The table once every named toplevel is as wanted. */
  function Mirrored(tops: Table, active: string): Table {
    map id | id in tops :: if Named(tops[id]) then tops[id].(activated := Want(tops[id], active)) else tops[id]
  }

  function Lit(tops: Table): set<Id> {
    set id | id in tops && tops[id].activated
  }

  // ---- what the client is told ----

  datatype Configure = Configure(id: Id, on: bool)

  /** The toplevels the client takes to be activated, after a series of configure events. */
  function Sees(lit: set<Id>, out: seq<Configure>): set<Id>
    decreases |out|
  {
    if out == [] then lit else Sees(Told(lit, out[0]), out[1..])
  }

  function Told(lit: set<Id>, c: Configure): set<Id> {
    if c.on then lit + {c.id} else lit - {c.id}
  }

  /** At no moment is nothing activated. */
  predicate NeverDark(lit: set<Id>, out: seq<Configure>)
    decreases |out|
  {
    lit != {} && (out == [] || NeverDark(Told(lit, out[0]), out[1..]))
  }

  /** The same, said of every prefix. */
  lemma {:induction false} NeverDarkMeans(lit: set<Id>, out: seq<Configure>)
    ensures NeverDark(lit, out) <==> forall k :: 0 <= k <= |out| ==> Sees(lit, out[..k]) != {}
    decreases |out|
  {
    if out == [] {
      assert out[..0] == [];
    } else {
      var next := Told(lit, out[0]);
      NeverDarkMeans(next, out[1..]);
      assert out[..0] == [];
      assert forall k :: 0 < k <= |out| ==> out[..k][1..] == out[1..][..k - 1];
      assert forall k :: 0 < k <= |out| ==> Sees(lit, out[..k]) == Sees(next, out[1..][..k - 1]);
      assert forall k :: 0 <= k <= |out[1..]| ==> Sees(next, out[1..][..k]) == Sees(lit, out[..k + 1]);
    }
  }

  lemma {:induction false} SeesAppend(lit: set<Id>, a: seq<Configure>, b: seq<Configure>)
    ensures Sees(lit, a + b) == Sees(Sees(lit, a), b)
    ensures NeverDark(lit, a + b) <==> NeverDark(lit, a) && NeverDark(Sees(lit, a), b)
    decreases |a|
  {
    if a == [] {
      assert a + b == b;
    } else {
      assert (a + b)[1..] == a[1..] + b;
      SeesAppend(Told(lit, a[0]), a[1..], b);
    }
  }

  // ---- one hand-over ----

  function Of(ids: seq<Id>, on: bool): seq<Configure> {
    seq(|ids|, i requires 0 <= i < |ids| => Configure(ids[i], on))
  }

  /** Off and on again, to make the client present once more. */
  function Pulses(ids: seq<Id>): seq<Configure> {
    if ids == [] then [] else [Configure(ids[0], false), Configure(ids[0], true)] + Pulses(ids[1..])
  }

  lemma InOrder<T>(a: seq<T>, b: seq<T>, c: seq<T>, d: seq<T>)
    ensures a + b + c + d == a + (b + c + d) && (a + b + c + d)[|a|..] == b + c + d
  {
  }

  datatype Plan = Plan(ons: seq<Id>, offs: seq<Id>, pulse: seq<Id>)

  function Commands(p: Plan): seq<Configure> {
    Of(p.ons, true) + Of(p.offs, false) + Pulses(p.pulse)
  }

  predicate Wanted(tops: Table, active: string, id: Id) {
    id in tops && Named(tops[id]) && Want(tops[id], active)
  }

  predicate Unwanted(tops: Table, active: string, id: Id) {
    id in tops && Named(tops[id]) && !Want(tops[id], active)
  }

  /** What is to change among the toplevels `seen`. */
  ghost predicate IsPlan(p: Plan, tops: Table, active: string, edge: bool, seen: set<Id>) {
    && (forall id :: id in p.ons <==> id in seen && Wanted(tops, active, id) && !tops[id].activated)
    && (forall id :: id in p.offs <==> id in seen && Unwanted(tops, active, id) && tops[id].activated)
    && (forall id :: id in p.pulse <==>
          id in seen && edge && Wanted(tops, active, id) && tops[id].activated && PackageOf(tops[id].appId) != "")
  }

  function Ids(s: seq<Id>): set<Id> {
    set id | id in s
  }

  lemma {:induction false} SeesOns(lit: set<Id>, ids: seq<Id>)
    ensures Sees(lit, Of(ids, true)) == lit + Ids(ids)
    ensures NeverDark(lit, Of(ids, true)) <==> lit != {}
    decreases |ids|
  {
    if ids != [] {
      assert Of(ids, true)[1..] == Of(ids[1..], true);
      SeesOns(lit + {ids[0]}, ids[1..]);
      assert Ids(ids) == {ids[0]} + Ids(ids[1..]);
    } else {
      assert Of(ids, true) == [];
    }
  }

  lemma {:induction false} SeesOffs(lit: set<Id>, ids: seq<Id>)
    ensures Sees(lit, Of(ids, false)) == lit - Ids(ids)
    ensures NeverDark(lit, Of(ids, false)) <==> lit - Ids(ids) != {}
    decreases |ids|
  {
    if ids != [] {
      assert Of(ids, false)[1..] == Of(ids[1..], false);
      SeesOffs(lit - {ids[0]}, ids[1..]);
      assert Ids(ids) == {ids[0]} + Ids(ids[1..]);
      assert lit - {ids[0]} - Ids(ids[1..]) == lit - Ids(ids);
    } else {
      assert Of(ids, false) == [];
    }
  }

  lemma OnePulse(lit: set<Id>, id: Id)
    requires id in lit
    ensures Sees(lit, [Configure(id, false), Configure(id, true)]) == lit
    ensures NeverDark(lit, [Configure(id, false), Configure(id, true)]) <==> lit - {id} != {}
  {
    var pair := [Configure(id, false), Configure(id, true)];
    var off := lit - {id};
    assert Told(lit, pair[0]) == off && Told(off, pair[1]) == lit;
    assert pair[1..][0] == pair[1] && pair[1..][1..] == [];
    assert Sees(off, pair[1..]) == Sees(lit, []);
    assert NeverDark(off, pair[1..]) <==> off != {} && NeverDark(lit, []);
  }

  lemma {:induction false} SeesPulses(lit: set<Id>, ids: seq<Id>)
    requires Ids(ids) <= lit
    ensures Sees(lit, Pulses(ids)) == lit
    ensures NeverDark(lit, Pulses(ids)) <==> lit != {} && forall id :: id in ids ==> lit != {id}
    decreases |ids|
  {
    if ids != [] {
      var pair := [Configure(ids[0], false), Configure(ids[0], true)];
      assert ids[0] in Ids(ids) && Ids(ids[1..]) <= Ids(ids);
      SeesAppend(lit, pair, Pulses(ids[1..]));
      OnePulse(lit, ids[0]);
      assert lit - {ids[0]} == {} <==> lit == {ids[0]};
      SeesPulses(lit, ids[1..]);
    }
  }

  /** After the hand-over the client takes exactly the wanted toplevels to be activated. */
  lemma ClientSeesTheTable(p: Plan, tops: Table, active: string, edge: bool)
    requires IsPlan(p, tops, active, edge, tops.Keys)
    ensures Sees(Lit(tops), Commands(p)) == Lit(Mirrored(tops, active))
    ensures Ids(p.pulse) <= Lit(Mirrored(tops, active))
    ensures Lit(tops) + Ids(p.ons) - Ids(p.offs) == Lit(Mirrored(tops, active))
  {
    var after := Lit(Mirrored(tops, active));
    assert Lit(tops) + Ids(p.ons) - Ids(p.offs) == after;
    assert Ids(p.pulse) <= after;
    SeesOns(Lit(tops), p.ons);
    SeesOffs(Lit(tops) + Ids(p.ons), p.offs);
    SeesAppend(Lit(tops), Of(p.ons, true), Of(p.offs, false));
    SeesAppend(Lit(tops), Of(p.ons, true) + Of(p.offs, false), Pulses(p.pulse));
    SeesPulses(after, p.pulse);
  }

  /**
   A hand-over never passes through a moment with nothing activated, exactly when something is activated
   before it and after it, and no pulse is given to the only activated toplevel.
   */
  lemma HandOverIsNeverDark(p: Plan, tops: Table, active: string, edge: bool)
    requires IsPlan(p, tops, active, edge, tops.Keys)
    ensures NeverDark(Lit(tops), Commands(p)) <==>
              && Lit(tops) != {} && Lit(Mirrored(tops, active)) != {}
              && forall id :: id in p.pulse ==> Lit(Mirrored(tops, active)) != {id}
  {
    ClientSeesTheTable(p, tops, active, edge);
    SeesOns(Lit(tops), p.ons);
    SeesOffs(Lit(tops) + Ids(p.ons), p.offs);
    SeesAppend(Lit(tops), Of(p.ons, true), Of(p.offs, false));
    SeesAppend(Lit(tops), Of(p.ons, true) + Of(p.offs, false), Pulses(p.pulse));
    SeesPulses(Lit(Mirrored(tops, active)), p.pulse);
  }

  /** Without `edge` there is no pulse, so a hand-over between two non-empty states is never dark. */
  lemma PlainHandOverIsNeverDark(p: Plan, tops: Table, active: string)
    requires IsPlan(p, tops, active, false, tops.Keys)
    requires Lit(tops) != {} && Lit(Mirrored(tops, active)) != {}
    ensures NeverDark(Lit(tops), Commands(p))
  {
    HandOverIsNeverDark(p, tops, active, false);
  }
}

/** The server's side of it: the toplevel table, the windows, and what the client is sent. */
module ActivationServer {
  import opened Activation
  import opened Presence
  import opened Sequences

  class Server {
    var toplevels: Table
    var surfaces: set<Id>            // the toplevels that have a surface
    var entered: set<Id>             // those whose surface is on an output
    var windows: map<Id, string>     // each window's package
    var activePackage: string
    var sent: seq<Message>

    function Surfaced(): set<Id>
      reads this
    {
      surfaces * toplevels.Keys
    }

    method SendSurfaceOnOutput(id: Id, shown: bool)
      modifies this`entered, this`sent
      ensures entered == if shown then old(entered) + {id} * Surfaced() else old(entered) - {id} * Surfaced()
      ensures sent == old(sent) + if shown then Show(id, Surfaced(), old(entered))
                                  else Hide(id, Surfaced(), old(entered))
    {
      if id !in toplevels || id !in surfaces || (id in entered) == shown {
        return;
      }
      entered := if shown then entered + {id} else entered - {id};
      sent := sent + [if shown then Enter(id) else Leave(id)];
    }

    method Send(id: Id, on: bool)
      modifies this`sent
      ensures sent == old(sent) + [Config(Configure(id, on))]
    {
      sent := sent + [Config(Configure(id, on))];
    }

    method SwitchOn(ids: seq<Id>)
      modifies this`entered, this`sent
      ensures sent == old(sent) + Ons(ids, Surfaced(), old(entered))
      ensures entered == old(entered) + Ids(ids) * Surfaced()
    {
      var i := 0;
      while i < |ids|
        invariant 0 <= i <= |ids|
        invariant sent + Ons(ids[i..], Surfaced(), entered) == old(sent) + Ons(ids, Surfaced(), old(entered))
        invariant entered + Ids(ids[i..]) * Surfaced() == old(entered) + Ids(ids) * Surfaced()
      {
        ghost var was, said := entered, sent;
        SendSurfaceOnOutput(ids[i], true);
        Send(ids[i], true);
        assert ids[i..][1..] == ids[i + 1..];
        FirstOf(ids[i..], Surfaced());
        Assoc(said, Show(ids[i], Surfaced(), was), [Config(Configure(ids[i], true))]);
        Assoc(said, OnOne(ids[i], Surfaced(), was), Ons(ids[i + 1..], Surfaced(), entered));
        i := i + 1;
      }
    }

    method SwitchOff(ids: seq<Id>)
      modifies this`entered, this`sent
      ensures sent == old(sent) + Offs(ids, Surfaced(), old(entered))
      ensures entered == old(entered) - Ids(ids) * Surfaced()
    {
      var i := 0;
      while i < |ids|
        invariant 0 <= i <= |ids|
        invariant sent + Offs(ids[i..], Surfaced(), entered) == old(sent) + Offs(ids, Surfaced(), old(entered))
        invariant entered - Ids(ids[i..]) * Surfaced() == old(entered) - Ids(ids) * Surfaced()
      {
        ghost var was, said := entered, sent;
        Send(ids[i], false);
        SendSurfaceOnOutput(ids[i], false);
        assert ids[i..][1..] == ids[i + 1..];
        FirstOf(ids[i..], Surfaced());
        Assoc(said, [Config(Configure(ids[i], false))], Hide(ids[i], Surfaced(), was));
        Assoc(said, OffOne(ids[i], Surfaced(), was), Offs(ids[i + 1..], Surfaced(), entered));
        i := i + 1;
      }
    }

    method PulseAll(ids: seq<Id>)
      modifies this`entered, this`sent
      ensures sent == old(sent) + ShownPulses(ids, Surfaced(), old(entered))
      ensures entered == old(entered) + Ids(ids) * Surfaced()
    {
      var i := 0;
      while i < |ids|
        invariant 0 <= i <= |ids|
        invariant sent + ShownPulses(ids[i..], Surfaced(), entered)
                  == old(sent) + ShownPulses(ids, Surfaced(), old(entered))
        invariant entered + Ids(ids[i..]) * Surfaced() == old(entered) + Ids(ids) * Surfaced()
      {
        ghost var was, said := entered, sent;
        PulseAgain(ids[i]);
        assert ids[i..][1..] == ids[i + 1..];
        FirstOf(ids[i..], Surfaced());
        Assoc(said, PulseOne(ids[i], Surfaced(), was), ShownPulses(ids[i + 1..], Surfaced(), entered));
        i := i + 1;
      }
    }

    method PulseAgain(id: Id)
      modifies this`entered, this`sent
      ensures sent == old(sent) + PulseOne(id, Surfaced(), old(entered))
      ensures entered == old(entered) + {id} * Surfaced()
    {
      SendSurfaceOnOutput(id, true);
      Send(id, false);
      Send(id, true);
    }

    /** One pass over the table, in any order, which also sets what changes. */
    method Scan(active: string, edge: bool) returns (p: Plan)
      modifies this`toplevels
      ensures toplevels == Mirrored(old(toplevels), active)
      ensures IsPlan(p, old(toplevels), active, edge, old(toplevels).Keys)
    {
      ghost var was := toplevels;
      p := Plan([], [], []);
      var todo := toplevels.Keys;
      while todo != {}
        invariant todo <= was.Keys && toplevels.Keys == was.Keys
        invariant forall id :: id in todo ==> toplevels[id] == was[id]
        invariant forall id :: id in was.Keys - todo ==> toplevels[id] == Mirrored(was, active)[id]
        invariant IsPlan(p, was, active, edge, was.Keys - todo)
        decreases todo
      {
        var id :| id in todo;
        ghost var seen := was.Keys - todo;
        todo := todo - {id};
        assert was.Keys - todo == seen + {id};
        p := Consider(id, active, edge, p, was, seen);
      }
    }

    /** The loop body, for one toplevel. */
    method Consider(id: Id, active: string, edge: bool, p0: Plan, ghost was: Table, ghost seen: set<Id>)
      returns (p: Plan)
      requires id in toplevels && id in was && toplevels[id] == was[id] && id !in seen
      requires IsPlan(p0, was, active, edge, seen)
      modifies this`toplevels
      ensures toplevels == old(toplevels)[id := Mirrored(was, active)[id]]
      ensures IsPlan(p, was, active, edge, seen + {id})
    {
      p := p0;
      var rec := toplevels[id];
      var package := PackageOf(rec.appId);
      var want := true;
      if package != "" {
        want := !rec.home && (active == "*" || package == active);
      } else if rec.appId == "" {
        return;
      }
      if want && edge && rec.activated && package != "" {
        p := p.(pulse := p.pulse + [id]);
      } else if want != rec.activated {
        toplevels := toplevels[id := rec.(activated := want)];
        p := if want then p.(ons := p.ons + [id]) else p.(offs := p.offs + [id]);
      }
    }

    /** The toplevel in front is put on an output and activated before the others go off. */
    method ApplyActivation(edge: bool) returns (p: Plan)
      modifies this`toplevels, this`entered, this`sent
      ensures toplevels == Mirrored(old(toplevels), activePackage)
      ensures IsPlan(p, old(toplevels), activePackage, edge, old(toplevels).Keys)
      ensures sent == old(sent) + Messages(p, old(Surfaced()), old(entered))
      ensures Hears(View(Lit(old(toplevels)), old(entered)), sent[|old(sent)|..]) == View(Lit(toplevels), entered)
    {
      ghost var was, before, shown := toplevels, sent, entered;
      p := Scan(activePackage, edge);
      assert Surfaced() == old(Surfaced());
      SwitchOn(p.ons);
      ghost var on1 := entered;
      SwitchOff(p.offs);
      ghost var on2 := entered;
      PulseAll(p.pulse);
      InOrder(before, Ons(p.ons, Surfaced(), shown), Offs(p.offs, Surfaced(), on1),
              ShownPulses(p.pulse, Surfaced(), on2));
      ShownHandOverIsNeverDark(p, was, activePackage, edge, Surfaced(), shown);
    }

    /**
     Where a toplevel's frames go: to a window of its own package if there is one, else to a window for
     whatever is on top, else nowhere; HOME goes nowhere.
     */
    method OutputFor(id: Id) returns (found: bool, window: Id)
      ensures id in toplevels && toplevels[id].home ==> !found
      ensures found ==> window in windows
      ensures !(id in toplevels && toplevels[id].home) ==>
                var package := if id in toplevels then PackageOf(toplevels[id].appId) else "";
                && (package != "" && package in windows.Values ==> found && windows[window] == package)
                && (package == "" || package !in windows.Values ==>
                      (found <==> "" in windows.Values) && (found ==> windows[window] == ""))
    {
      found, window := false, 0;
      var package := "";
      if id in toplevels {
        if toplevels[id].home {
          return;
        }
        package := PackageOf(toplevels[id].appId);
      }
      var todo := windows.Keys;
      while todo != {}
        invariant todo <= windows.Keys
        invariant forall w :: w in windows.Keys - todo ==> package == "" || windows[w] != package
        invariant found ==> window in windows && windows[window] == ""
        invariant !found ==> forall w :: w in windows.Keys - todo ==> windows[w] != ""
        decreases todo
      {
        var w :| w in todo;
        todo := todo - {w};
        if package != "" && windows[w] == package {
          return true, w;
        }
        if windows[w] == "" {
          found, window := true, w;
        }
      }
      assert forall w :: w in windows ==> w in windows.Keys - todo;
    }
  }
}
