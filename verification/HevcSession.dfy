/**
 The HEVC decoder session: a deep hardware pipeline behind an interface that takes one sample and gives at
 most one picture per call.

 The codec is a first-in, first-out pipeline of any depth: each time it is asked, it gives up as many of
 the oldest pictures as it likes.  Every picture it gives converts.
 */
module HevcSession {
  import opened Bytes
  import opened Sequences

  type Unit = nat    // an access unit, and the picture it decodes to

  /** A sample as the caller passes it; address 0 is null. */
  datatype Sample = Sample(address: nat, len: nat, unit: Unit)

  datatype Result = Picture | NoPicture | Drained | Error

  const INPUT_TRIES := 50

  /** How the codec behaves while something is queued: how many pictures it gives up at each try without a
      free input buffer, whether the unit fits the buffer, and whether it is accepted. */
  datatype Entry = Entry(misses: seq<nat>, fits: bool, accepted: bool)

  /** How the codec behaves during one Decode; `end` as below. */
  datatype Turn = Turn(rearms: bool, entry: Entry, gives: nat, end: bool)

  /** One wait of Flush: how many pictures come, and whether the end of the stream does once there are none left. */
  datatype Wait = Wait(gives: nat, end: bool)

  /** No picture comes while it waits for a free input buffer. */
  predicate NoneFreed(e: Entry) {
    forall k :: 0 <= k < |e.misses| && k < INPUT_TRIES ==> e.misses[k] == 0
  }

  /** However many pictures there are, the next comes; and once there are none, the end does. */
  predicate Delivers(waits: seq<Wait>) {
    (exists k :: 0 <= k < |waits| && waits[k].gives > 0) && exists k :: 0 <= k < |waits| && waits[k].end
  }

  predicate AllDeliver(waits: seq<seq<Wait>>, n: nat) {
    n <= |waits| && forall k :: 0 <= k < n ==> Delivers(waits[k])
  }

  predicate BringsNone(waits: seq<Wait>) {
    forall k :: 0 <= k < |waits| ==> waits[k].gives == 0
  }

  /** It goes in. */
  predicate Taken(e: Entry) {
    |e.misses| < INPUT_TRIES && e.fits && e.accepted
  }

  /** The unit goes in at the first try. */
  predicate Smooth(t: Turn) {
    t.entry == Entry([], true, true)
  }

  class Session {
    var ready: seq<Unit>
    var pendingData: nat
    var pendingLen: nat
    var queuedSinceRearm: nat
    var eosQueued: bool
    var eosSeen: bool
    var inside: seq<Unit>       // the codec's
    var codecEos: bool          // the codec's: it has been told of the end
    var ended: bool             // the codec's: it has given its end of stream
    ghost var queued: seq<Unit> // since the last rearm
    ghost var handed: seq<Unit> // since the last rearm

    /** Nothing is lost, duplicated or reordered. */
    ghost predicate Valid()
      reads this
    {
      && handed + ready + inside == queued
      && |queued| == queuedSinceRearm
      && (codecEos <==> eosQueued) && (ended ==> inside == [] && eosSeen && eosQueued)
    }

    constructor ()
      ensures Valid() && queued == [] && handed == [] && ready == [] && pendingData == 0 && !eosQueued && !eosSeen
    {
      ready, pendingData, pendingLen, queuedSinceRearm, eosQueued, eosSeen := [], 0, 0, 0, false, false;
      inside, codecEos, queued, handed, ended := [], false, [], [], false;
    }

    /** Collects the pictures that the codec gives up. */
    method Drain(gives: nat, end: bool)
      requires Valid()
      modifies this`ready, this`inside, this`eosSeen, this`ended
      ensures Valid() && |ready| + |inside| == |old(ready)| + |old(inside)| && old(ready) <= ready
      ensures |ready| == |old(ready)| + Min(gives, |old(inside)|)
      ensures !codecEos ==> eosSeen == old(eosSeen) && ended == old(ended)
      ensures codecEos && end && inside == [] ==> ended
      ensures old(eosSeen) ==> eosSeen
      ensures old(ended) ==> ended
      ensures eosSeen ==> old(eosSeen) || ended
    {
      var n := Min(gives, |inside|);
      for i := 0 to n
        invariant |inside| == |old(inside)| - i && Valid()
        invariant eosSeen == old(eosSeen) && ended == old(ended)
        invariant |ready| == |old(ready)| + i && old(ready) <= ready
      {
        ComesOut(handed, ready, inside);
        ready, inside := ready + [inside[0]], inside[1..];
      }
      if codecEos && end && inside == [] {
        eosSeen, ended := true, true;
      }
    }

    /** The oldest ready picture goes to the caller. */
    method Hand() returns (picture: bool, unit: Unit)
      requires Valid()
      modifies this`ready, this`handed
      ensures Valid() && picture == (old(ready) != [])
      ensures picture ==> unit == old(ready)[0] && ready == old(ready)[1..] && handed == old(handed) + [unit]
      ensures !picture ==> ready == old(ready) && handed == old(handed)
    {
      picture, unit := false, 0;
      if ready != [] {
        unit := ready[0];
        GoesOut(handed, ready, inside);
        ready, handed := ready[1..], handed + [ready[0]];
        picture := true;
      }
    }

    /** After the end of the stream, back to the running state. */
    method Rearm(ok: bool) returns (done: bool)
      requires Valid()
      modifies this
      ensures Valid() && pendingData == old(pendingData) && pendingLen == old(pendingLen)
      ensures !old(eosQueued) && !old(eosSeen) ==>
                done && queued == old(queued) && handed == old(handed) && ready == old(ready) && inside == old(inside)
      ensures old(eosQueued) || old(eosSeen) ==>
                done == ok && (done ==> queued == [] && handed == [] && ready == [] && inside == [])
      ensures done ==> !eosQueued && !eosSeen
      ensures !done ==> eosQueued == old(eosQueued) && eosSeen == old(eosSeen)
      ensures !done ==> queued == old(queued) && handed == old(handed) && ready == old(ready) && inside == old(inside)
    {
      if !eosQueued && !eosSeen {
        return true;
      }
      if !ok {
        return false;
      }
      ready, inside, codecEos := [], [], false;
      eosQueued, eosSeen, queuedSinceRearm := false, false, 0;
      queued, handed, ended := [], [], false;
      done := true;
    }

    /** Up to INPUT_TRIES attempts at a free input buffer, collecting pictures to make room. */
    method FreeInput(misses: seq<nat>) returns (got: bool)
      requires Valid() && !codecEos
      modifies this`ready, this`inside, this`eosSeen, this`ended
      ensures Valid() && |ready| + |inside| == |old(ready)| + |old(inside)| && old(ready) <= ready
      ensures eosSeen == old(eosSeen) && got == (|misses| < INPUT_TRIES)
      ensures misses == [] ==> ready == old(ready) && inside == old(inside)
      ensures ready == old(ready) <==>
                old(inside) == [] || forall k :: 0 <= k < |misses| && k < INPUT_TRIES ==> misses[k] == 0
    {
      got := false;
      var i := 0;
      while i < INPUT_TRIES && !got
        invariant Valid() && |ready| + |inside| == |old(ready)| + |old(inside)| && old(ready) <= ready
        invariant eosSeen == old(eosSeen) && 0 <= i <= INPUT_TRIES
        invariant got ==> |misses| < INPUT_TRIES
        invariant !got ==> i <= |misses|
        invariant misses == [] ==> ready == old(ready) && inside == old(inside)
        invariant ready == old(ready) <==>
                    old(inside) == [] || forall k :: 0 <= k < |misses| && k < i ==> misses[k] == 0
        invariant got ==> |misses| < i
        decreases INPUT_TRIES - i
      {
        if i < |misses| {
          Drain(misses[i], false);
        } else {
          got := true;
        }
        i := i + 1;
      }
    }

    method QueueUnit(unit: Unit, e: Entry) returns (ok: bool)
      requires Valid() && !codecEos
      modifies this`ready, this`inside, this`eosSeen, this`ended, this`queued, this`queuedSinceRearm
      ensures Valid() && old(ready) <= ready && eosSeen == old(eosSeen)
      ensures ok == Taken(e)
      ensures queued == if ok then old(queued) + [unit] else old(queued)
      ensures |ready| + |inside| == |old(ready)| + |old(inside)| + if ok then 1 else 0
      ensures e.misses == [] ==> ready == old(ready)
    {
      ok := FreeInput(e.misses);
      if !ok || !e.fits || !e.accepted {
        return false;
      }
      ComesIn(handed, ready, inside, unit);
      inside, queued, queuedSinceRearm := inside + [unit], queued + [unit], queuedSinceRearm + 1;
    }

    method QueueEnd(e: Entry) returns (ok: bool)
      requires Valid() && !codecEos && !eosQueued
      modifies this`ready, this`inside, this`eosSeen, this`ended, this`codecEos, this`eosQueued
      ensures Valid() && old(ready) <= ready && eosSeen == old(eosSeen) && eosQueued == ok == Taken(e)
      ensures |ready| + |inside| == |old(ready)| + |old(inside)|
      ensures ready == old(ready) <==> old(inside) == [] || NoneFreed(e)
    {
      ok := FreeInput(e.misses);
      if !ok || !e.fits || !e.accepted {
        return false;
      }
      codecEos, eosQueued := true, true;
    }

    /** Whether Decode takes the sample for one it has already queued. */
    predicate Repeated(s: Sample)
      reads this
    {
      s.address == pendingData && s.len == pendingLen
    }

    predicate AtEnd()
      reads this
    {
      eosQueued || eosSeen
    }

    /** The codec is at the end of its stream and does not come back from there. */
    predicate Stuck(t: Turn)
      reads this
    {
      AtEnd() && !t.rearms
    }

    /** A new unit into the codec, which is restarted first if it is at the end of its stream. */
    method TakeIn(s: Sample, t: Turn) returns (ok: bool)
      requires Valid()
      modifies this
      ensures Valid() && ok == (!old(Stuck(t)) && Taken(t.entry))
      ensures old(Stuck(t)) ==> queued == old(queued) && handed == old(handed) && ready == old(ready)
      ensures old(Stuck(t)) ==> eosSeen == old(eosSeen) && AtEnd()
      ensures !old(Stuck(t)) ==>
                && queued == (if old(AtEnd()) then [] else old(queued)) + (if ok then [s.unit] else [])
                && handed == (if old(AtEnd()) then [] else old(handed)) && !AtEnd()
      ensures ok ==> pendingData == s.address && pendingLen == s.len
      ensures !ok ==> pendingData == old(pendingData) && pendingLen == old(pendingLen)
      ensures ok && !old(AtEnd()) && t.entry.misses == [] ==>
                && |ready| == |old(ready)| + Min(t.gives, |old(inside)| + 1)
                && |ready| + |inside| == |old(ready)| + |old(inside)| + 1
    {
      ok := Rearm(t.rearms);
      if ok {
        ok := QueueUnit(s.unit, t.entry);
      }
      if ok {
        pendingData, pendingLen := s.address, s.len;
        Drain(t.gives, t.end);
      }
    }

    /** The end of a call: a picture if there is one, and the verdict on the sample. */
    method Reply(s: Sample) returns (rc: Result, consumed: nat, unit: Unit)
      requires Valid()
      requires s.address != 0 && s.len > 0 ==> Repeated(s)
      modifies this`ready, this`handed, this`pendingData, this`pendingLen
      ensures Valid() && rc == (if old(ready) != [] then Picture else NoPicture)
      ensures handed == (if rc == Picture then old(handed) + [unit] else old(handed))
      ensures |ready| == |old(ready)| - if rc == Picture then 1 else 0
      ensures s.address != 0 && s.len > 0 ==>
                if ready == [] then consumed == s.len && pendingData == 0 && pendingLen == 0
                else consumed == 0 && rc == Picture && pendingData == s.address && pendingLen == s.len
    {
      var picture;
      consumed := 0;
      picture, unit := Hand();
      if s.address != 0 && s.len > 0 && (!picture || ready == []) {
        consumed := s.len;
        pendingData, pendingLen := 0, 0;
      }
      rc := if picture then Picture else NoPicture;
    }

    /**
     One call.  A sample is queued exactly when its address and length are not those of the pending one;
     it is consumed exactly when it leaves no picture waiting.
     */
    method Decode(s: Sample, t: Turn) returns (rc: Result, consumed: nat, unit: Unit)
      requires Valid()
      modifies this
      ensures Valid() && rc != Drained
      ensures rc == Error <==> s.address != 0 && s.len > 0 && !old(Repeated(s)) && (old(Stuck(t)) || !Taken(t.entry))
      ensures rc == Error ==> consumed == 0 && pendingData == old(pendingData) && pendingLen == old(pendingLen)
      ensures rc == Error && old(Stuck(t)) ==>
                && queued == old(queued) && handed == old(handed) && ready == old(ready)
                && eosSeen == old(eosSeen) && AtEnd()
      ensures rc == Error && !old(Stuck(t)) ==>
                && queued == (if old(AtEnd()) then [] else old(queued))
                && handed == (if old(AtEnd()) then [] else old(handed)) && !AtEnd()
      ensures rc != Error ==>
                var unseen := s.address != 0 && s.len > 0 && !old(Repeated(s));
                var q := if unseen && old(AtEnd()) then [] else old(queued);
                var h := if unseen && old(AtEnd()) then [] else old(handed);
                && queued == (if unseen then q + [s.unit] else q)
                && handed == (if rc == Picture then h + [unit] else h)
                && (!unseen ==> |ready| + |inside| == |old(ready)| + |old(inside)| - if rc == Picture then 1 else 0)
                && (AtEnd() <==> !unseen && old(AtEnd()))
      ensures s.address != 0 && s.len > 0 && !old(Repeated(s)) && !old(AtEnd()) && Smooth(t) ==>
                var n := |old(ready)| + Min(t.gives, |old(inside)| + 1);
                && rc == (if n > 0 then Picture else NoPicture) && |ready| == (if n > 0 then n - 1 else 0)
                && |ready| + |inside| == |old(ready)| + |old(inside)| + 1 - (if n > 0 then 1 else 0)
      ensures rc != Error && s.address != 0 && s.len > 0 ==>
                if ready == [] then consumed == s.len && pendingData == 0 && pendingLen == 0
                else consumed == 0 && rc == Picture && pendingData == s.address && pendingLen == s.len
    {
      if s.address != 0 && s.len > 0 && !Repeated(s) {
        var ok := TakeIn(s, t);
        if !ok {
          return Error, 0, 0;
        }
      } else {
        Drain(t.gives, t.end);
      }
      rc, consumed, unit := Reply(s);
    }

    /** The codec has been fed, and not been told of the end yet. */
    predicate Telling()
      reads this
    {
      !AtEnd() && queuedSinceRearm > 0
    }

    /** Tells the codec of the end, unless it was never fed; whoever cannot tell it gives up. */
    method Tell(e: Entry)
      requires Valid()
      modifies this
      ensures Valid() && queued == old(queued) && handed == old(handed) && old(ready) <= ready
      ensures pendingData == old(pendingData) && pendingLen == old(pendingLen)
      ensures queuedSinceRearm == old(queuedSinceRearm)
      ensures |ready| + |inside| == |old(ready)| + |old(inside)|
      ensures eosQueued == (old(eosQueued) || (old(Telling()) && Taken(e)))
      ensures old(AtEnd()) ==> ended == old(ended)
      ensures eosSeen == (old(eosSeen) || (!old(AtEnd()) && !(old(Telling()) && Taken(e))))
      ensures ready == old(ready) <==> old(inside) == [] || !old(Telling()) || NoneFreed(e)
    {
      if !eosQueued && !eosSeen {
        if queuedSinceRearm == 0 {
          eosSeen := true;
        } else {
          var ok := QueueEnd(e);
          if !ok {
            eosSeen := true;
          }
        }
      }
    }

    /** Waits for a picture, or the end. */
    method WaitForOne(waits: seq<Wait>)
      requires Valid()
      modifies this`ready, this`inside, this`eosSeen, this`ended
      ensures Valid() && |ready| + |inside| == |old(ready)| + |old(inside)| && old(ready) <= ready
      ensures old(eosSeen) ==> eosSeen && ready == old(ready)
      ensures eosSeen ==> old(eosSeen) || ended
      ensures old(ended) ==> ended
      ensures ready == [] <==> old(ready) == [] && (old(inside) == [] || old(eosSeen) || BringsNone(waits))
      ensures old(ready) == [] && old(inside) == [] && eosQueued && (exists k :: 0 <= k < |waits| && waits[k].end) ==>
                eosSeen
    {
      var i := 0;
      while ready == [] && !eosSeen && i < |waits|
        invariant Valid() && 0 <= i <= |waits|
        invariant |ready| + |inside| == |old(ready)| + |old(inside)| && old(ready) <= ready
        invariant old(eosSeen) ==> eosSeen && ready == old(ready)
        invariant eosSeen ==> old(eosSeen) || ended
        invariant old(ended) ==> ended
        invariant ready != [] ==> old(ready) != [] || (!old(eosSeen) && old(inside) != [] && !BringsNone(waits))
        invariant ready == [] && old(inside) != [] && !old(eosSeen) ==>
                    !eosSeen && forall k :: 0 <= k < i ==> waits[k].gives == 0
        invariant ready == [] && old(inside) == [] && eosQueued && !eosSeen ==> forall k :: 0 <= k < i ==> !waits[k].end
      {
        Drain(waits[i].gives, waits[i].end);
        i := i + 1;
      }
    }

    /**
     One call at the end of the stream.  It reports the end exactly when no picture is ready and none comes: there is
     none left, or none came while the codec was being told and then the end had been seen, or could not be told,
     or the waits bring none.
     */
    method Flush(e: Entry, waits: seq<Wait>) returns (rc: Result, unit: Unit)
      requires Valid()
      modifies this
      ensures Valid() && queued == old(queued) && (rc == Picture || rc == Drained) && (rc == Drained ==> eosSeen)
      ensures pendingData == old(pendingData) && pendingLen == old(pendingLen)
      ensures queuedSinceRearm == old(queuedSinceRearm)
      ensures rc == Picture ==> handed == old(handed) + [unit]
                                && |ready| + |inside| == |old(ready)| + |old(inside)| - 1
      ensures rc == Drained <==>
                old(ready) == []
                && (old(inside) == []
                    || ((old(Telling()) ==> NoneFreed(e))
                        && (old(eosSeen) || (old(Telling()) && !Taken(e)) || BringsNone(waits))))
      ensures rc == Drained ==> handed == old(handed) && ready == [] && (ended ==> handed == queued)
      ensures eosQueued == (old(eosQueued) || (old(Telling()) && Taken(e)))
      ensures eosQueued && (old(eosSeen) ==> old(ended)) && Delivers(waits) ==> (eosSeen ==> ended)
    {
      Tell(e);
      WaitForOne(waits);
      var picture;
      picture, unit := Hand();
      if picture {
        return Picture, unit;
      }
      if !eosSeen {
        eosSeen := true;
      }
      rc := Drained;
    }

    // ---- the caller ----

    /**
     A caller that repeats a sample until it is consumed, or refused.  Every repeat hands out one picture, so it
     ends.  The access unit went in once, unless it was refused; at the end of a stream the codec starts anew.
     */
    method Present(s: Sample, t: Turn, gives: seq<nat>) returns (ok: bool, pics: seq<Unit>)
      requires Valid() && s.address != 0 && s.len > 0 && pendingData == 0
      modifies this
      ensures Valid() && pendingData == 0 && ok == (!old(Stuck(t)) && Taken(t.entry))
      ensures ok ==> ready == []
      ensures old(Stuck(t)) ==> queued == old(queued) && handed == old(handed) && ready == old(ready) && pics == []
      ensures old(Stuck(t)) ==> eosSeen == old(eosSeen) && AtEnd()
      ensures !old(Stuck(t)) ==>
                && queued == (if old(AtEnd()) then [] else old(queued)) + (if ok then [s.unit] else [])
                && handed == (if old(AtEnd()) then [] else old(handed)) + pics && !AtEnd()
    {
      var rc, consumed, unit := Decode(s, t);
      pics := if rc == Picture then [unit] else [];
      if rc == Error {
        return false, [];
      }
      ghost var before := if old(AtEnd()) then [] else old(handed);
      ghost var all := queued;
      var k := 0;
      while consumed == 0
        invariant Valid() && rc != Error && !AtEnd() && k >= 0
        invariant queued == all && handed == before + pics
        invariant if consumed == 0 then pendingData == s.address && pendingLen == s.len && ready != []
                  else pendingData == 0 && ready == []
        decreases consumed == 0, |ready| + |inside|
      {
        var g := if k < |gives| then gives[k] else 0;
        rc, consumed, unit := Decode(s, t.(gives := g));
        Assoc(before, pics, [unit]);
        pics := if rc == Picture then pics + [unit] else pics;
        k := k + 1;
      }
      ok := true;
    }

    /** A caller that flushes until nothing is left. */
    method FlushAll(e: Entry, waits: seq<seq<Wait>>) returns (pics: seq<Unit>)
      requires Valid()
      modifies this
      ensures Valid() && queued == old(queued) && handed == old(handed) + pics && ready == [] && eosSeen
      ensures pendingData == old(pendingData)
      ensures ended ==> handed == queued
      ensures old(eosSeen) && old(ready) == [] ==> pics == []
      ensures queuedSinceRearm == old(queuedSinceRearm)
      ensures old(Telling()) && Taken(e) && AllDeliver(waits, |old(ready)| + |old(inside)| + 1) ==> ended
    {
      pics := [];
      var k := 0;
      var rc, unit := Flush(e, if k < |waits| then waits[k] else []);
      while rc == Picture
        invariant Valid() && queued == old(queued) && k >= 0 && pendingData == old(pendingData)
        invariant rc == Picture || rc == Drained
        invariant handed == old(handed) + if rc == Picture then pics + [unit] else pics
        invariant rc == Drained ==> ready == [] && eosSeen && (ended ==> handed == queued)
        invariant old(eosSeen) && old(ready) == [] ==> rc == Drained && pics == []
        invariant queuedSinceRearm == old(queuedSinceRearm)
        invariant rc == Picture ==> |ready| + |inside| + k + 1 == |old(ready)| + |old(inside)|
        invariant old(Telling()) && Taken(e) && AllDeliver(waits, |old(ready)| + |old(inside)| + 1) ==>
                    eosQueued && (eosSeen ==> ended)
        decreases rc == Picture, |ready| + |inside|
      {
        pics := pics + [unit];
        k := k + 1;
        rc, unit := Flush(e, if k < |waits| then waits[k] else []);
        if rc == Picture {
          Assoc(old(handed), pics, [unit]);
        }
      }
    }

    /** Between two streams: nothing has gone in yet, or the end has been reported. */
    ghost predicate Between()
      reads this
    {
      Valid() && pendingData == 0 && ready == [] && if AtEnd() then eosSeen else queued == [] && handed == []
    }
  }

  /** A stream as it is played: its samples, and how the codec behaves at each of them and at the flush. */
  datatype Stream = Stream(
    samples: seq<Sample>,
    turns: seq<Turn>,
    gives: seq<seq<nat>>,
    entry: Entry,
    waits: seq<seq<Wait>>)

  predicate WellFormed(st: Stream) {
    |st.turns| == |st.samples| == |st.gives|
    && forall i :: 0 <= i < |st.samples| ==> st.samples[i].address != 0 && st.samples[i].len > 0
  }

  /** The codec runs, from the start or since it was restarted for one of the first n samples. */
  predicate Running(st: Stream, atEnd: bool, n: nat)
    requires n <= |st.turns|
  {
    !atEnd || exists i :: 0 <= i < n && st.turns[i].rearms
  }

  /** Those of the first n samples that go in: the codec runs, and takes them. */
  function Entering(st: Stream, atEnd: bool, n: nat): seq<Unit>
    requires WellFormed(st) && n <= |st.samples|
  {
    if n == 0 then []
    else Entering(st, atEnd, n - 1)
         + if Running(st, atEnd, n) && Taken(st.turns[n - 1].entry) then [st.samples[n - 1].unit] else []
  }

  function UnitsOf(samples: seq<Sample>): seq<Unit> {
    seq(|samples|, i requires 0 <= i < |samples| => samples[i].unit)
  }

  /** If the codec restarts at once and refuses nothing, all of them do. */
  lemma {:induction false} AllEnter(st: Stream, atEnd: bool, n: nat)
    requires WellFormed(st) && n <= |st.samples|
    requires forall i :: 0 <= i < n ==> Taken(st.turns[i].entry)
    requires atEnd && st.turns != [] ==> st.turns[0].rearms
    ensures Entering(st, atEnd, n) == UnitsOf(st.samples[..n])
  {
    if n > 0 {
      AllEnter(st, atEnd, n - 1);
      assert Running(st, atEnd, n);
      assert UnitsOf(st.samples[..n]) == UnitsOf(st.samples[..n - 1]) + [st.samples[n - 1].unit];
    }
  }

  /** The codec runs, is told of the end and gives up everything that went in, and then the end. */
  predicate PlaysOut(st: Stream, atEnd: bool)
    requires WellFormed(st)
  {
    Running(st, atEnd, |st.samples|) && Taken(st.entry)
    && AllDeliver(st.waits, |Entering(st, atEnd, |st.samples|)| + 1)
  }

  /** One stream, by a caller that goes on to the next sample when one is refused, and flushes at the end. */
  method PlayOne(s: Session, st: Stream) returns (pics: seq<Unit>, complete: bool)
    requires s.Between() && WellFormed(st)
    modifies s
    ensures s.Between() && s.AtEnd()
    ensures pics <= Entering(st, old(s.AtEnd()), |st.samples|)
    ensures complete ==> pics == Entering(st, old(s.AtEnd()), |st.samples|)
    ensures PlaysOut(st, old(s.AtEnd())) ==> complete
  {
    pics := [];
    ghost var atEnd := s.AtEnd();
    for n := 0 to |st.samples|
      invariant s.Valid() && s.pendingData == 0 && s.AtEnd() == !Running(st, atEnd, n)
      invariant if s.AtEnd() then s.Between() && pics == [] == Entering(st, atEnd, n)
                else s.queued == Entering(st, atEnd, n) && s.handed == pics
    {
      var ok, more := s.Present(st.samples[n], st.turns[n], st.gives[n]);
      pics := pics + more;
    }
    assert s.handed + s.ready + s.inside == s.queued;
    var rest := s.FlushAll(st.entry, st.waits);
    pics := pics + rest;
    complete := s.ended || s.queuedSinceRearm == 0;
    assert s.handed + s.ready + s.inside == s.queued;
  }

  /**
   Over any number of streams on one decoder, each flushed before the next (as a seek does), whatever the
   codec's depth, however often it makes the caller wait and whatever it refuses: the pictures of each stream are
   those of its samples that went in, in order, none twice and none of another stream's; and all of them, if the
   codec came to the end of that stream, which it does if it is told of the end and gives up what it holds.
   */
  method Play(streams: seq<Stream>) returns (shown: seq<seq<Unit>>, complete: seq<bool>)
    requires forall i :: 0 <= i < |streams| ==> WellFormed(streams[i])
    ensures |shown| == |complete| == |streams|
    ensures forall i :: 0 <= i < |streams| ==>
              var entered := Entering(streams[i], i > 0, |streams[i].samples|);
              shown[i] <= entered && (complete[i] ==> shown[i] == entered)
    ensures forall i :: 0 <= i < |streams| && PlaysOut(streams[i], i > 0) ==> complete[i]
  {
    var s := new Session();
    shown, complete := [], [];
    for n := 0 to |streams|
      invariant fresh(s) && s.Between() && (s.AtEnd() <==> n > 0) && |shown| == |complete| == n
      invariant forall i :: 0 <= i < n ==>
                  var entered := Entering(streams[i], i > 0, |streams[i].samples|);
                  shown[i] <= entered && (complete[i] ==> shown[i] == entered)
      invariant forall i :: 0 <= i < n && PlaysOut(streams[i], i > 0) ==> complete[i]
    {
      var pics, all := PlayOne(s, streams[n]);
      shown, complete := shown + [pics], complete + [all];
    }
  }

  /**
   A caller that abandons an unconsumed sample.  The second of two samples comes back with a picture and
   unconsumed; instead of repeating it the caller flushes to the end, and then passes a new unit at the same
   address with the same length.  It is reported consumed, but it was not queued, and the codec was not
   restarted: only the first two units ever went in.
   */
  method AbandonedSampleSwallowsTheNext(a: Sample, b: Sample, c: Sample)
    returns (rc: Result, consumed: nat, queued: nat, restarted: bool)
    requires a.address != 0 && a.len > 0 && b.address != 0 && b.len > 0 && c.address == b.address && c.len == b.len
    requires a.address != b.address || a.len != b.len
    ensures rc == NoPicture && consumed == c.len && queued == 2 && !restarted
  {
    var smooth := Entry([], true, true);
    var s := new Session();
    var unit;
    rc, consumed, unit := s.Decode(a, Turn(true, smooth, 0, false));
    rc, consumed, unit := s.Decode(b, Turn(true, smooth, 2, false));
    assert consumed == 0;
    rc, unit := s.Flush(smooth, [Wait(0, true)]);
    assert rc == Picture;
    rc, unit := s.Flush(smooth, [Wait(0, true)]);
    assert rc == Drained;
    rc, consumed, unit := s.Decode(c, Turn(true, smooth, 0, false));
    queued, restarted := s.queuedSinceRearm, !s.AtEnd();
  }
}
