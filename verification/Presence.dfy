/**
 Which toplevels the client takes to be on an output, beside which it takes to be activated.  It lets Android's
 display sleep unless some toplevel is both, so that is what a hand-over must not interrupt.
 */
module Presence {
  import opened Activation
  import opened Sequences

  /** wl_surface.enter, wl_surface.leave, and a configure. */
  datatype Message = Enter(id: Id) | Leave(id: Id) | Config(c: Configure)

  /** What the client has been told: the toplevels that are activated, and those that are on an output. */
  datatype View = View(lit: set<Id>, on: set<Id>)

  predicate Awake(v: View) {
    v.lit * v.on != {}
  }

  function Heard(v: View, m: Message): View {
    match m
    case Enter(id) => v.(on := v.on + {id})
    case Leave(id) => v.(on := v.on - {id})
    case Config(c) => v.(lit := Told(v.lit, c))
  }

  function Hears(v: View, out: seq<Message>): View
    decreases |out|
  {
    if out == [] then v else Hears(Heard(v, out[0]), out[1..])
  }

  /** At every moment some toplevel is shown and activated. */
  predicate StaysAwake(v: View, out: seq<Message>)
    decreases |out|
  {
    Awake(v) && (out == [] || StaysAwake(Heard(v, out[0]), out[1..]))
  }

  lemma {:induction false} HearsAppend(v: View, a: seq<Message>, b: seq<Message>)
    ensures Hears(v, a + b) == Hears(Hears(v, a), b)
    ensures StaysAwake(v, a + b) <==> StaysAwake(v, a) && StaysAwake(Hears(v, a), b)
    decreases |a|
  {
    if a == [] {
      assert a + b == b;
    } else {
      assert (a + b)[1..] == a[1..] + b;
      HearsAppend(Heard(v, a[0]), a[1..], b);
    }
  }

  lemma HearsOne(v: View, m: Message)
    ensures Hears(v, [m]) == Heard(v, m) && (StaysAwake(v, [m]) <==> Awake(v) && Awake(Heard(v, m)))
  {
    assert [m][1..] == [];
  }

  // ---- what a plan sends ----

  /** Only a toplevel with a surface can enter, and only if it has not. */
  function Show(id: Id, surfaced: set<Id>, on: set<Id>): seq<Message> {
    if id in surfaced && id !in on then [Enter(id)] else []
  }

  function Hide(id: Id, surfaced: set<Id>, on: set<Id>): seq<Message> {
    if id in surfaced && id in on then [Leave(id)] else []
  }

  function OnOne(id: Id, surfaced: set<Id>, on: set<Id>): seq<Message> {
    Show(id, surfaced, on) + [Config(Configure(id, true))]
  }

  function OffOne(id: Id, surfaced: set<Id>, on: set<Id>): seq<Message> {
    [Config(Configure(id, false))] + Hide(id, surfaced, on)
  }

  function PulseOne(id: Id, surfaced: set<Id>, on: set<Id>): seq<Message> {
    Show(id, surfaced, on) + [Config(Configure(id, false))] + [Config(Configure(id, true))]
  }

  /** First on an output, then activated. */
  function Ons(ids: seq<Id>, surfaced: set<Id>, on: set<Id>): seq<Message>
    decreases |ids|
  {
    if ids == [] then []
    else OnOne(ids[0], surfaced, on) + Ons(ids[1..], surfaced, on + {ids[0]} * surfaced)
  }

  /** First deactivated, then off the output. */
  function Offs(ids: seq<Id>, surfaced: set<Id>, on: set<Id>): seq<Message>
    decreases |ids|
  {
    if ids == [] then []
    else OffOne(ids[0], surfaced, on) + Offs(ids[1..], surfaced, on - {ids[0]} * surfaced)
  }

  function ShownPulses(ids: seq<Id>, surfaced: set<Id>, on: set<Id>): seq<Message>
    decreases |ids|
  {
    if ids == [] then []
    else PulseOne(ids[0], surfaced, on) + ShownPulses(ids[1..], surfaced, on + {ids[0]} * surfaced)
  }

  function Messages(p: Plan, surfaced: set<Id>, on: set<Id>): seq<Message> {
    var on1 := on + Ids(p.ons) * surfaced;
    Ons(p.ons, surfaced, on) + Offs(p.offs, surfaced, on1)
    + ShownPulses(p.pulse, surfaced, on1 - Ids(p.offs) * surfaced)
  }

  // ---- its configures are those of the plan ----

  function ConfigureIn(m: Message): seq<Configure> {
    if m.Config? then [m.c] else []
  }

  function Configures(out: seq<Message>): seq<Configure>
    decreases |out|
  {
    if out == [] then [] else ConfigureIn(out[0]) + Configures(out[1..])
  }

  lemma {:induction false} ConfiguresAppend(a: seq<Message>, b: seq<Message>)
    ensures Configures(a + b) == Configures(a) + Configures(b)
    decreases |a|
  {
    if a == [] {
      assert a + b == b;
    } else {
      assert (a + b)[1..] == a[1..] + b;
      ConfiguresAppend(a[1..], b);
      Assoc(ConfigureIn(a[0]), Configures(a[1..]), Configures(b));
    }
  }

  lemma ConfiguresOfSingle(m: Message)
    ensures Configures([m]) == ConfigureIn(m)
  {
    assert [m][1..] == [];
  }

  lemma ConfiguresOfOne(id: Id, surfaced: set<Id>, on: set<Id>)
    ensures Configures(OnOne(id, surfaced, on)) == [Configure(id, true)]
    ensures Configures(OffOne(id, surfaced, on)) == [Configure(id, false)]
    ensures Configures(PulseOne(id, surfaced, on)) == [Configure(id, false), Configure(id, true)]
  {
    var off, lit := [Config(Configure(id, false))], [Config(Configure(id, true))];
    ConfiguresOfSingle(Enter(id));
    ConfiguresOfSingle(Leave(id));
    ConfiguresOfSingle(off[0]);
    ConfiguresOfSingle(lit[0]);
    ConfiguresAppend(Show(id, surfaced, on), lit);
    ConfiguresAppend(off, Hide(id, surfaced, on));
    ConfiguresAppend(Show(id, surfaced, on), off);
    ConfiguresAppend(Show(id, surfaced, on) + off, lit);
  }

  lemma OfFirst(ids: seq<Id>, on: bool)
    requires ids != []
    ensures Of(ids, on) == [Configure(ids[0], on)] + Of(ids[1..], on)
  {
  }

  lemma {:induction false} ConfiguresOfOns(ids: seq<Id>, surfaced: set<Id>, on: set<Id>)
    ensures Configures(Ons(ids, surfaced, on)) == Of(ids, true)
    decreases |ids|
  {
    if ids != [] {
      var on1 := on + {ids[0]} * surfaced;
      ConfiguresOfOne(ids[0], surfaced, on);
      ConfiguresAppend(OnOne(ids[0], surfaced, on), Ons(ids[1..], surfaced, on1));
      ConfiguresOfOns(ids[1..], surfaced, on1);
      OfFirst(ids, true);
    }
  }

  lemma {:induction false} ConfiguresOfOffs(ids: seq<Id>, surfaced: set<Id>, on: set<Id>)
    ensures Configures(Offs(ids, surfaced, on)) == Of(ids, false)
    decreases |ids|
  {
    if ids != [] {
      var on1 := on - {ids[0]} * surfaced;
      ConfiguresOfOne(ids[0], surfaced, on);
      ConfiguresAppend(OffOne(ids[0], surfaced, on), Offs(ids[1..], surfaced, on1));
      ConfiguresOfOffs(ids[1..], surfaced, on1);
      OfFirst(ids, false);
    }
  }

  lemma {:induction false} ConfiguresOfPulses(ids: seq<Id>, surfaced: set<Id>, on: set<Id>)
    ensures Configures(ShownPulses(ids, surfaced, on)) == Pulses(ids)
    decreases |ids|
  {
    if ids != [] {
      var on1 := on + {ids[0]} * surfaced;
      ConfiguresOfOne(ids[0], surfaced, on);
      ConfiguresAppend(PulseOne(ids[0], surfaced, on), ShownPulses(ids[1..], surfaced, on1));
      ConfiguresOfPulses(ids[1..], surfaced, on1);
    }
  }

  /** Among the messages of a hand-over, the configures are those of the plan, in that order. */
  lemma ConfiguresOfMessages(p: Plan, surfaced: set<Id>, on: set<Id>)
    ensures Configures(Messages(p, surfaced, on)) == Commands(p)
  {
    var on1 := on + Ids(p.ons) * surfaced;
    var on2 := on1 - Ids(p.offs) * surfaced;
    var a, b, c := Ons(p.ons, surfaced, on), Offs(p.offs, surfaced, on1), ShownPulses(p.pulse, surfaced, on2);
    ConfiguresAppend(a, b);
    ConfiguresAppend(a + b, c);
    ConfiguresOfOns(p.ons, surfaced, on);
    ConfiguresOfOffs(p.offs, surfaced, on1);
    ConfiguresOfPulses(p.pulse, surfaced, on2);
  }

  // ---- when the client stays awake ----

  lemma HearsShow(v: View, id: Id, surfaced: set<Id>)
    ensures Hears(v, Show(id, surfaced, v.on)) == v.(on := v.on + {id} * surfaced)
    ensures StaysAwake(v, Show(id, surfaced, v.on)) <==> Awake(v)
  {
    if id in surfaced && id !in v.on {
      HearsOne(v, Enter(id));
      assert v.on + {id} == v.on + {id} * surfaced;
      assert v.lit * v.on <= v.lit * (v.on + {id});
    } else {
      assert v.on == v.on + {id} * surfaced;
    }
  }

  lemma HearsHide(v: View, id: Id, surfaced: set<Id>)
    requires id !in v.lit
    ensures Hears(v, Hide(id, surfaced, v.on)) == v.(on := v.on - {id} * surfaced)
    ensures StaysAwake(v, Hide(id, surfaced, v.on)) <==> Awake(v)
  {
    if id in surfaced && id in v.on {
      HearsOne(v, Leave(id));
      assert v.on - {id} == v.on - {id} * surfaced;
      assert v.lit * v.on == v.lit * (v.on - {id});
    } else {
      assert v.on == v.on - {id} * surfaced;
    }
  }

  lemma HearsOn(v: View, id: Id, surfaced: set<Id>)
    ensures Hears(v, OnOne(id, surfaced, v.on)) == View(v.lit + {id}, v.on + {id} * surfaced)
    ensures StaysAwake(v, OnOne(id, surfaced, v.on)) <==> Awake(v)
  {
    var w := v.(on := v.on + {id} * surfaced);
    HearsShow(v, id, surfaced);
    HearsOne(w, Config(Configure(id, true)));
    HearsAppend(v, Show(id, surfaced, v.on), [Config(Configure(id, true))]);
    assert v.lit * v.on <= w.lit * w.on <= (w.lit + {id}) * w.on;
  }

  lemma HearsOff(v: View, id: Id, surfaced: set<Id>)
    ensures Hears(v, OffOne(id, surfaced, v.on)) == View(v.lit - {id}, v.on - {id} * surfaced)
    ensures StaysAwake(v, OffOne(id, surfaced, v.on)) <==> (v.lit - {id}) * v.on != {}
  {
    var w := v.(lit := v.lit - {id});
    HearsOne(v, Config(Configure(id, false)));
    HearsHide(w, id, surfaced);
    HearsAppend(v, [Config(Configure(id, false))], Hide(id, surfaced, v.on));
    assert w.lit * w.on <= v.lit * v.on;
  }

  lemma HearsPulse(v: View, id: Id, surfaced: set<Id>)
    requires id in v.lit
    ensures Hears(v, PulseOne(id, surfaced, v.on)) == v.(on := v.on + {id} * surfaced)
    ensures StaysAwake(v, PulseOne(id, surfaced, v.on)) <==> Awake(v) && v.lit * v.on - {id} != {}
  {
    var w := v.(on := v.on + {id} * surfaced);
    var dip := w.(lit := w.lit - {id});
    HearsShow(v, id, surfaced);
    HearsOne(w, Config(Configure(id, false)));
    HearsOne(dip, Config(Configure(id, true)));
    HearsAppend(v, Show(id, surfaced, v.on), [Config(Configure(id, false))]);
    HearsAppend(v, Show(id, surfaced, v.on) + [Config(Configure(id, false))], [Config(Configure(id, true))]);
    assert dip.lit + {id} == w.lit;
    assert dip.lit * dip.on == v.lit * v.on - {id};
    assert v.lit * v.on <= w.lit * w.on;
  }

  lemma FirstOf(ids: seq<Id>, surfaced: set<Id>)
    requires ids != []
    ensures Ids(ids) == {ids[0]} + Ids(ids[1..])
    ensures Ids(ids) * surfaced == {ids[0]} * surfaced + Ids(ids[1..]) * surfaced
  {
  }

  lemma {:induction false} HearsOns(v: View, ids: seq<Id>, surfaced: set<Id>)
    ensures Hears(v, Ons(ids, surfaced, v.on)) == View(v.lit + Ids(ids), v.on + Ids(ids) * surfaced)
    ensures StaysAwake(v, Ons(ids, surfaced, v.on)) <==> Awake(v)
    decreases |ids|
  {
    if ids == [] {
      assert v == View(v.lit + Ids(ids), v.on + Ids(ids) * surfaced);
    } else {
      var w := View(v.lit + {ids[0]}, v.on + {ids[0]} * surfaced);
      HearsOn(v, ids[0], surfaced);
      HearsAppend(v, OnOne(ids[0], surfaced, v.on), Ons(ids[1..], surfaced, w.on));
      HearsOns(w, ids[1..], surfaced);
      FirstOf(ids, surfaced);
      assert w.lit + Ids(ids[1..]) == v.lit + Ids(ids);
      assert w.on + Ids(ids[1..]) * surfaced == v.on + Ids(ids) * surfaced;
      assert v.lit * v.on <= w.lit * w.on;
    }
  }

  lemma {:induction false} HearsOffs(v: View, ids: seq<Id>, surfaced: set<Id>)
    ensures Hears(v, Offs(ids, surfaced, v.on)) == View(v.lit - Ids(ids), v.on - Ids(ids) * surfaced)
    ensures StaysAwake(v, Offs(ids, surfaced, v.on)) <==> (v.lit - Ids(ids)) * v.on != {}
    decreases |ids|
  {
    if ids == [] {
      assert v == View(v.lit - Ids(ids), v.on - Ids(ids) * surfaced);
    } else {
      var w := View(v.lit - {ids[0]}, v.on - {ids[0]} * surfaced);
      HearsOff(v, ids[0], surfaced);
      HearsAppend(v, OffOne(ids[0], surfaced, v.on), Offs(ids[1..], surfaced, w.on));
      HearsOffs(w, ids[1..], surfaced);
      FirstOf(ids, surfaced);
      assert w.lit - Ids(ids[1..]) == v.lit - Ids(ids);
      assert w.on - Ids(ids[1..]) * surfaced == v.on - Ids(ids) * surfaced;
      assert (w.lit - Ids(ids[1..])) * w.on == (v.lit - Ids(ids)) * v.on;
      assert (v.lit - Ids(ids)) * v.on <= (v.lit - {ids[0]}) * v.on;
    }
  }

  /** Besides the k-th to be pulsed, some toplevel is shown and activated by then. */
  predicate Another(v: View, ids: seq<Id>, surfaced: set<Id>, k: nat)
    requires k < |ids|
  {
    v.lit * (v.on + Ids(ids[..k]) * surfaced) - {ids[k]} != {}
  }

  lemma AnotherOfRest(v: View, ids: seq<Id>, surfaced: set<Id>, k: nat)
    requires 0 < k < |ids|
    ensures Another(v, ids, surfaced, k) <==> Another(v.(on := v.on + {ids[0]} * surfaced), ids[1..], surfaced, k - 1)
  {
    assert ids[..k][1..] == ids[1..][..k - 1];
    FirstOf(ids[..k], surfaced);
    assert v.on + Ids(ids[..k]) * surfaced == v.on + {ids[0]} * surfaced + Ids(ids[1..][..k - 1]) * surfaced;
  }

  lemma {:induction false} HearsPulses(v: View, ids: seq<Id>, surfaced: set<Id>)
    requires Ids(ids) <= v.lit
    ensures Hears(v, ShownPulses(ids, surfaced, v.on)) == v.(on := v.on + Ids(ids) * surfaced)
    ensures StaysAwake(v, ShownPulses(ids, surfaced, v.on)) <==>
              Awake(v) && forall k :: 0 <= k < |ids| ==> Another(v, ids, surfaced, k)
    decreases |ids|
  {
    if ids == [] {
      assert v.on == v.on + Ids(ids) * surfaced;
    } else {
      var w := v.(on := v.on + {ids[0]} * surfaced);
      FirstOf(ids, surfaced);
      assert ids[0] in Ids(ids);
      HearsPulse(v, ids[0], surfaced);
      HearsAppend(v, PulseOne(ids[0], surfaced, v.on), ShownPulses(ids[1..], surfaced, w.on));
      HearsPulses(w, ids[1..], surfaced);
      assert w.on + Ids(ids[1..]) * surfaced == v.on + Ids(ids) * surfaced;
      PulsesOneByOne(v, ids, surfaced);
      assert v.lit * v.on <= w.lit * w.on;
    }
  }

  lemma PulsesOneByOne(v: View, ids: seq<Id>, surfaced: set<Id>)
    requires ids != []
    ensures var w := v.(on := v.on + {ids[0]} * surfaced);
            (forall k :: 0 <= k < |ids| ==> Another(v, ids, surfaced, k)) <==>
              v.lit * v.on - {ids[0]} != {} && forall k :: 0 <= k < |ids[1..]| ==> Another(w, ids[1..], surfaced, k)
  {
    var w := v.(on := v.on + {ids[0]} * surfaced);
    assert ids[..0] == [] && v.on + Ids(ids[..0]) * surfaced == v.on;
    assert Another(v, ids, surfaced, 0) <==> v.lit * v.on - {ids[0]} != {};
    forall k | 0 < k < |ids| ensures Another(v, ids, surfaced, k) <==> Another(w, ids[1..], surfaced, k - 1) {
      AnotherOfRest(v, ids, surfaced, k);
    }
    if forall k :: 0 <= k < |ids| ==> Another(v, ids, surfaced, k) {
      forall k | 0 <= k < |ids[1..]| ensures Another(w, ids[1..], surfaced, k) {
        assert Another(v, ids, surfaced, k + 1);
      }
    }
  }

  /** What the client takes to be shown and activated once the others are off, before any pulse. */
  function Settled(p: Plan, tops: Table, active: string, surfaced: set<Id>, on: set<Id>): View {
    View(Lit(Mirrored(tops, active)), on + Ids(p.ons) * surfaced - Ids(p.offs) * surfaced)
  }

  /**
   A hand-over never passes through a moment in which no toplevel is both shown and activated, exactly when one
   is before it, one is once the others are off, and besides each toplevel that is pulsed there is another.
   */
  lemma ShownHandOverIsNeverDark(p: Plan, tops: Table, active: string, edge: bool, surfaced: set<Id>, on: set<Id>)
    requires IsPlan(p, tops, active, edge, tops.Keys)
    ensures var v := View(Lit(tops), on);
            var settled := Settled(p, tops, active, surfaced, on);
            && Hears(v, Messages(p, surfaced, on)) == settled.(on := settled.on + Ids(p.pulse) * surfaced)
            && (StaysAwake(v, Messages(p, surfaced, on)) <==>
                  && Awake(v) && Awake(settled)
                  && forall k :: 0 <= k < |p.pulse| ==> Another(settled, p.pulse, surfaced, k))
  {
    var v := View(Lit(tops), on);
    var lit := View(v.lit + Ids(p.ons), on + Ids(p.ons) * surfaced);
    var settled := Settled(p, tops, active, surfaced, on);
    var a, b := Ons(p.ons, surfaced, on), Offs(p.offs, surfaced, lit.on);
    ClientSeesTheTable(p, tops, active, edge);
    HearsOns(v, p.ons, surfaced);
    HearsOffs(lit, p.offs, surfaced);
    HearsAppend(v, a, b);
    HearsPulses(settled, p.pulse, surfaced);
    HearsAppend(v, a + b, ShownPulses(p.pulse, surfaced, settled.on));
    assert (lit.lit - Ids(p.offs)) * lit.on == settled.lit * settled.on;
  }

  /** Whoever is switched on is shown by then, so without `edge` it is enough that the one in front has a surface. */
  lemma PlainShownHandOver(p: Plan, tops: Table, active: string, surfaced: set<Id>, on: set<Id>, front: Id)
    requires IsPlan(p, tops, active, false, tops.Keys)
    requires Awake(View(Lit(tops), on)) && front in p.ons && front in surfaced
    ensures StaysAwake(View(Lit(tops), on), Messages(p, surfaced, on))
  {
    ShownHandOverIsNeverDark(p, tops, active, false, surfaced, on);
    ClientSeesTheTable(p, tops, active, false);
    var settled := Settled(p, tops, active, surfaced, on);
    assert front in settled.lit * settled.on;
  }
}
