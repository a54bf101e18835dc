/**
 A tablet's pointer turned into a touchscreen: what the two event streams mean, each by a reader of its own
 that knows nothing of the translation.
 */
module TouchMeaning {

  datatype In = InX(v: int) | InY(v: int) | Left(v: int) | Right(v: int) | Report | Other

  datatype Out = TrackingId(v: int) | MtX(v: int) | MtY(v: int) | OutX(v: int) | OutY(v: int)
               | Touch(v: int) | Finger(v: int) | Back(v: int) | Syn

  // ---- the tablet ----

  datatype Pointer = Pointer(x: int, y: int, left: bool, right: bool)

  /** `now` as the events arrive, `shown` as of the last report. */
  datatype Tablet = Tablet(now: Pointer, shown: Pointer)

  /** Value 2 of a button is autorepeat. */
  function Feel(t: Tablet, e: In): Tablet {
    match e
    case InX(v) => t.(now := t.now.(x := v))
    case InY(v) => t.(now := t.now.(y := v))
    case Left(v) => t.(now := t.now.(left := v != 0))
    case Right(v) => if v == 2 then t else t.(now := t.now.(right := v != 0))
    case Report => t.(shown := t.now)
    case Other => t
  }

  function Felt(evs: seq<In>): Tablet {
    if evs == [] then Tablet(Pointer(0, 0, false, false), Pointer(0, 0, false, false))
    else Feel(Felt(evs[..|evs| - 1]), evs[|evs| - 1])
  }

  // ---- the touchscreen ----

  datatype Screen = Screen(id: int, mtX: int, mtY: int, x: int, y: int, touch: bool, finger: bool, back: bool)

  datatype Reader = Reader(now: Screen, shown: Screen)

  function Watch(r: Reader, e: Out): Reader {
    match e
    case TrackingId(v) => r.(now := r.now.(id := v))
    case MtX(v) => r.(now := r.now.(mtX := v))
    case MtY(v) => r.(now := r.now.(mtY := v))
    case OutX(v) => r.(now := r.now.(x := v))
    case OutY(v) => r.(now := r.now.(y := v))
    case Touch(v) => r.(now := r.now.(touch := v != 0))
    case Finger(v) => r.(now := r.now.(finger := v != 0))
    case Back(v) => r.(now := r.now.(back := v != 0))
    case Syn => r.(shown := r.now)
  }

  function Blank(): Screen {
    Screen(-1, 0, 0, 0, 0, false, false, false)
  }

  /** The screen shows what the tablet does: finger and Back always, the position while the finger is down. */
  predicate Shows(p: Pointer, s: Screen) {
    && (s.id >= 0 <==> p.left) && s.touch == p.left && s.finger == p.left && s.back == p.right
    && (p.left ==> s.mtX == p.x && s.mtY == p.y && s.x == p.x && s.y == p.y)
  }

  // ---- contacts and frames ----

  const TRACKING_ID_MAX := 65535

  /** Contacts begin and end in turn, with ids in range that differ from one contact to the next; -1 is an end. */
  predicate Alternate(c: seq<int>) {
    && (forall i :: 0 <= i < |c| && i % 2 == 0 ==> 0 <= c[i] <= TRACKING_ID_MAX)
    && (forall i :: 0 <= i < |c| && i % 2 == 1 ==> c[i] == -1)
    && (forall i, j :: 0 <= i < |c| && j == i + 2 < |c| && i % 2 == 0 ==> c[i] != c[j])
  }

  /** No frame is empty, and nothing follows the last one. */
  predicate Framed(out: seq<Out>) {
    && (forall i :: 0 <= i < |out| && out[i].Syn? ==> i > 0 && !out[i - 1].Syn?)
    && (out != [] ==> out[|out| - 1].Syn?)
  }

  /** All that a stream says: what a reader makes of it, the tracking ids in it, and how it is cut into frames. */
  datatype Log = Log(reader: Reader, contacts: seq<int>, closed: bool, neat: bool)

  function Note(l: Log, e: Out): Log {
    Log(Watch(l.reader, e), if e.TrackingId? then l.contacts + [e.v] else l.contacts,
        e.Syn?, l.neat && (e.Syn? ==> !l.closed))
  }

  function Logged(out: seq<Out>): Log {
    if out == [] then Log(Reader(Blank(), Blank()), [], true, true) else Note(Logged(out[..|out| - 1]), out[|out| - 1])
  }

  lemma {:induction false} NeatMeansFramed(out: seq<Out>)
    ensures Logged(out).closed <==> out == [] || out[|out| - 1].Syn?
    ensures Logged(out).neat <==> forall i :: 0 <= i < |out| && out[i].Syn? ==> i > 0 && !out[i - 1].Syn?
  {
    if out != [] {
      var n := |out| - 1;
      NeatMeansFramed(out[..n]);
      assert forall i :: 0 <= i < n ==> out[..n][i] == out[i];
    }
  }

  /** What the translation promises. */
  predicate Faithful(evs: seq<In>, out: seq<Out>) {
    Shows(Felt(evs).shown, Logged(out).reader.shown) && Alternate(Logged(out).contacts) && Framed(out)
  }
}

module TouchTranslator {
  import opened TouchMeaning

  /** A stand-in for Logged. */
  ghost predicate IsLogged(logged: seq<Out> -> Log) {
    forall out: seq<Out> {:trigger Logged(out)} :: logged(out) == Logged(out)
  }

  /** The translator's ids against those in the stream. */
  predicate IdsOk(c: seq<int>, down: bool, trackingId: int) {
    && Alternate(c) && -1 <= trackingId <= TRACKING_ID_MAX
    && (down <==> |c| % 2 == 1)
    && (down ==> c[|c| - 1] == trackingId)
    && (!down && |c| > 0 ==> c[|c| - 2] == trackingId)
  }

  lemma NextId(c: seq<int>, id: int, next: int)
    requires IdsOk(c, false, id) && next == (id + 1) % (TRACKING_ID_MAX + 1)
    ensures IdsOk(c + [next], true, next)
  {
  }

  lemma EndId(c: seq<int>, id: int)
    requires IdsOk(c, true, id)
    ensures IdsOk(c + [-1], false, id)
  {
  }

  class Translator {
    var x: int
    var y: int
    var down: bool
    var wantDown: bool
    var moved: bool
    var back: int
    var trackingId: int
    var out: seq<Out>
    ghost var seen: seq<In>
    ghost var tablet: Tablet         // Felt(seen)
    ghost var log: Log               // Logged(out)
    ghost const logged: seq<Out> -> Log

    ghost predicate Tied()
      reads this
    {
      IsLogged(logged) && log == logged(out) && log.neat
    }

    /** The fields against the tablet. */
    ghost predicate Fields()
      reads this
    {
      && x == tablet.now.x && y == tablet.now.y && wantDown == tablet.now.left && down == tablet.shown.left
      && (!moved ==> x == tablet.shown.x && y == tablet.shown.y)
      && -1 <= back <= 1 && tablet.now.right == (if back < 0 then tablet.shown.right else back == 1)
    }

    ghost predicate Core()
      reads this
    {
      && Fields() && Tied() && IdsOk(log.contacts, down, trackingId) && log.closed
      && log.reader.now == log.reader.shown && Shows(tablet.shown, log.reader.shown)
    }

    ghost predicate Valid()
      reads this
    {
      tablet == Felt(seen) && Core()
    }

    constructor ()
      ensures Valid() && seen == [] && out == []
    {
      x, y, down, wantDown, moved, back, trackingId := 0, 0, false, false, false, -1, -1;
      out, seen := [], [];
      logged := o => Logged(o);
      tablet, log := Felt([]), Logged([]);
    }

    method Emit(e: Out)
      requires Tied() && (e.Syn? ==> !log.closed)
      modifies this`out, this`log
      ensures Tied() && log == Note(old(log), e) && old(out) <= out
    {
      assert (out + [e])[..|out|] == out;
      assert Logged(out + [e]) == Note(Logged(out), e);
      out := out + [e];
      log := Note(log, e);
    }

    method EmitPosition()
      requires Tied()
      modifies this`out, this`log
      ensures Tied() && log.contacts == old(log.contacts) && !log.closed && old(out) <= out
      ensures log.reader == old(log.reader).(now := old(log.reader.now).(mtX := x, mtY := y, x := x, y := y))
    {
      Emit(MtX(x));
      Emit(MtY(y));
      Emit(OutX(x));
      Emit(OutY(y));
    }

    method EmitContact(v: int)
      requires Tied()
      modifies this`out, this`log
      ensures Tied() && log.contacts == old(log.contacts) && !log.closed && old(out) <= out
      ensures log.reader == old(log.reader).(now := old(log.reader.now).(touch := v != 0, finger := v != 0))
    {
      Emit(Touch(v));
      Emit(Finger(v));
    }

    method Begin()
      requires Tied() && IdsOk(log.contacts, false, trackingId) && !down
      modifies this`out, this`log, this`trackingId, this`down
      ensures Tied() && IdsOk(log.contacts, true, trackingId) && down && !log.closed && old(out) <= out
      ensures log.reader == old(log.reader).(now := Screen(trackingId, x, y, x, y, true, true, old(log.reader.now.back)))
      ensures 0 <= trackingId
    {
      NextId(log.contacts, trackingId, (trackingId + 1) % (TRACKING_ID_MAX + 1));
      trackingId := (trackingId + 1) % (TRACKING_ID_MAX + 1);
      Emit(TrackingId(trackingId));
      EmitPosition();
      EmitContact(1);
      down := true;
    }

    method End()
      requires Tied() && IdsOk(log.contacts, true, trackingId) && down
      modifies this`out, this`log, this`down
      ensures Tied() && IdsOk(log.contacts, false, trackingId) && !down && !log.closed && old(out) <= out
      ensures log.reader.shown == old(log.reader.shown) && log.reader.now.id == -1
      ensures !log.reader.now.touch && !log.reader.now.finger && log.reader.now.back == old(log.reader.now.back)
    {
      EndId(log.contacts, trackingId);
      if moved {
        EmitPosition();
      }
      Emit(TrackingId(-1));
      EmitContact(0);
      down := false;
    }

    /** The finger's part of a frame. */
    method FlushFinger() returns (sync: bool)
      requires Core()
      modifies this`out, this`log, this`trackingId, this`down
      ensures Tied() && IdsOk(log.contacts, down, trackingId) && old(out) <= out && down == wantDown
      ensures sync == !log.closed && (!sync ==> log == old(log))
      ensures log.reader.shown == old(log.reader.shown)
      ensures Shows(tablet.now.(right := tablet.shown.right), log.reader.now)
    {
      sync := false;
      if wantDown && !down {
        Begin();
        sync := true;
      } else if down && !wantDown {
        End();
        sync := true;
      } else if down && moved {
        EmitPosition();
        sync := true;
      }
    }

    /** Turns one tablet frame into one touchscreen frame. */
    method Flush()
      requires Core()
      modifies this`out, this`log, this`trackingId, this`down, this`back, this`moved
      ensures Tied() && IdsOk(log.contacts, down, trackingId) && log.closed && old(out) <= out
      ensures log.reader.now == log.reader.shown && Shows(tablet.now, log.reader.shown)
      ensures down == wantDown && back == -1 && !moved
    {
      var sync := FlushFinger();
      if back >= 0 {
        Emit(Back(back));
        back := -1;
        sync := true;
      }
      if sync {
        Emit(Syn);
      }
      moved := false;
    }

    method Dispatch(e: In)
      requires Core()
      modifies this
      ensures Core() && tablet == Feel(old(tablet), e) && seen == old(seen) && old(out) <= out
    {
      match e {
        case InX(v) =>
          x, moved := v, true;
        case InY(v) =>
          y, moved := v, true;
        case Left(v) =>
          wantDown := v != 0;
        case Right(v) =>
          if v != 2 {
            back := if v != 0 then 1 else 0;
          }
        case Report =>
          Flush();
        case Other =>
      }
      tablet := Feel(tablet, e);
    }

    method Handle(e: In)
      requires Valid()
      modifies this
      ensures Valid() && seen == old(seen) + [e] && old(out) <= out
    {
      Dispatch(e);
      assert (seen + [e])[..|seen|] == seen;
      seen := seen + [e];
    }
  }

  /** For every series of tablet events the touchscreen's stream says the same. */
  method Translate(evs: seq<In>) returns (out: seq<Out>)
    ensures Faithful(evs, out)
  {
    var t := new Translator();
    for i := 0 to |evs|
      invariant t.Valid() && fresh(t) && t.seen == evs[..i]
    {
      t.Handle(evs[i]);
    }
    assert evs[..|evs|] == evs;
    out := t.out;
    NeatMeansFramed(out);
  }
}
