/**
 The compositor's books about the buffers it owes to the container: which are in flight on which window,
 and which the render service has given back but the client has not been told about yet.
 */
module BufferBooks {

  type WlBuffer = nat        // a wl_buffer resource
  type SurfaceBuffer = nat   // its imported SurfaceBuffer
  type Window = nat

  datatype InFlight = InFlight(wl: WlBuffer, window: Window)

  datatype Books = Books(inFlight: map<SurfaceBuffer, InFlight>, releasedPending: seq<WlBuffer>)

  function Track(b: Books, sb: SurfaceBuffer, wl: WlBuffer, window: Window): Books {
    b.(inFlight := b.inFlight[sb := InFlight(wl, window)])
  }

  function Untrack(b: Books, sb: SurfaceBuffer): Books {
    b.(inFlight := b.inFlight - {sb})
  }

  /** What the render thread's report does. */
  function Report(b: Books, sb: SurfaceBuffer): Books {
    if sb in b.inFlight then
      Books(b.inFlight - {sb}, b.releasedPending + [b.inFlight[sb].wl])
    else b
  }

  function WithoutWindow(b: Books, window: Window): Books {
    b.(inFlight := map sb | sb in b.inFlight && b.inFlight[sb].window != window :: b.inFlight[sb])
  }

  /** The wl_buffers in flight on a window. */
  function OnWindow(b: Books, window: Window): set<WlBuffer> {
    set sb | sb in b.inFlight && b.inFlight[sb].window == window :: b.inFlight[sb].wl
  }

  function AllInFlight(b: Books): set<WlBuffer> {
    set sb | sb in b.inFlight :: b.inFlight[sb].wl
  }

  function Without(s: seq<WlBuffer>, wl: WlBuffer): (r: seq<WlBuffer>)
    ensures forall x :: x in r <==> x in s && x != wl
    ensures NoDup(s) ==> NoDup(r)
  {
    if s == [] then []
    else
      var rest := Without(s[1..], wl);
      assert NoDup(s) ==> s[0] !in s[1..];
      if s[0] == wl then rest else [s[0]] + rest
  }

  function Forget(b: Books, wl: WlBuffer): Books {
    Books(map sb | sb in b.inFlight && b.inFlight[sb].wl != wl :: b.inFlight[sb], Without(b.releasedPending, wl))
  }

  predicate NoDup(s: seq<WlBuffer>) {
    forall i, j :: 0 <= i < j < |s| ==> s[i] != s[j]
  }

  /** A list of the members of a set, each once; the order of an unordered_map is not specified. */
  ghost predicate Enumerates(s: seq<WlBuffer>, all: set<WlBuffer>) {
    NoDup(s) && forall x :: x in s <==> x in all
  }

  /** No wl_buffer is in flight as two SurfaceBuffers. */
  predicate Injective(b: Books) {
    forall x, y :: x in b.inFlight && y in b.inFlight && b.inFlight[x].wl == b.inFlight[y].wl ==> x == y
  }
}

/** The server object that keeps the books, and the wl_buffer.release events it sends. */
module BufferServer {
  import opened BufferBooks

  class Server {
    var inFlight: map<SurfaceBuffer, InFlight>
    var releasedPending: seq<WlBuffer>
    var released: seq<WlBuffer>    // every wl_buffer.release sent

    function View(): Books
      reads this
    {
      Books(inFlight, releasedPending)
    }

    method TrackInFlight(sb: SurfaceBuffer, wl: WlBuffer, window: Window)
      modifies this`inFlight
      ensures View() == Track(old(View()), sb, wl, window)
    {
      inFlight := inFlight[sb := InFlight(wl, window)];
    }

    method UntrackInFlight(sb: SurfaceBuffer)
      modifies this`inFlight
      ensures View() == Untrack(old(View()), sb)
    {
      inFlight := inFlight - {sb};
    }

    /** Render service thread. */
    method OnBufferReleased(sb: SurfaceBuffer)
      modifies this`inFlight, this`releasedPending
      ensures View() == Report(old(View()), sb)
    {
      if sb !in inFlight {
        return;
      }
      releasedPending := releasedPending + [inFlight[sb].wl];
      inFlight := inFlight - {sb};
    }

    method SendReleases(resources: seq<WlBuffer>)
      modifies this`released
      ensures released == old(released) + resources
    {
      for i := 0 to |resources|
        invariant released == old(released) + resources[..i]
      {
        released := released + [resources[i]];
      }
    }

    /** Gives back everything in flight on one window, in some order, each buffer once. */
    method ReleaseInFlightOf(window: Window) returns (resources: seq<WlBuffer>)
      requires Injective(View())
      modifies this`inFlight, this`released
      ensures View() == WithoutWindow(old(View()), window)
      ensures Enumerates(resources, OnWindow(old(View()), window)) && released == old(released) + resources
    {
      resources := [];
      ghost var books := View();
      var todo := inFlight.Keys;
      while todo != {}
        invariant todo <= books.inFlight.Keys
        invariant releasedPending == books.releasedPending && released == old(released)
        invariant forall sb :: sb in inFlight <==>
                    sb in books.inFlight && (sb in todo || books.inFlight[sb].window != window)
        invariant forall sb :: sb in inFlight ==> inFlight[sb] == books.inFlight[sb]
        invariant NoDup(resources)
        invariant forall wl :: wl in resources <==>
                    exists sb :: sb in books.inFlight && sb !in todo
                                 && books.inFlight[sb] == InFlight(wl, window)
        decreases todo
      {
        var sb :| sb in todo;
        todo := todo - {sb};
        if inFlight[sb].window == window {
          resources := resources + [inFlight[sb].wl];
          inFlight := inFlight - {sb};
        }
      }
      assert inFlight == WithoutWindow(books, window).inFlight;
      SendReleases(resources);
    }

    method DrainReleases()
      modifies this`releasedPending, this`released
      ensures releasedPending == [] && released == old(released) + old(releasedPending)
    {
      var pending := releasedPending;
      releasedPending := [];
      SendReleases(pending);
    }

    /** The critical section of ForgetBuffer. */
    method ForgetBuffer(wl: WlBuffer)
      modifies this`inFlight, this`releasedPending
      ensures View() == Forget(old(View()), wl)
    {
      inFlight := map sb | sb in inFlight && inFlight[sb].wl != wl :: inFlight[sb];
      releasedPending := Without(releasedPending, wl);
    }

    /**
     The frame path of SurfaceCommit for a buffer that has an output: `flushed` says whether the first
     and the second Flush succeed.  Returns what was handed back.
     */
    method ShowBuffer(sb: SurfaceBuffer, wl: WlBuffer, window: Window, flushed: (bool, bool))
      returns (back: seq<WlBuffer>)
      requires Injective(View()) && sb !in inFlight && wl !in AllInFlight(View())
      modifies this`inFlight, this`released
      ensures released == old(released) + back
      ensures flushed.0 ==> View() == Track(old(View()), sb, wl, window) && back == []
      ensures !flushed.0 && flushed.1 ==>
                && View() == Track(WithoutWindow(old(View()), window), sb, wl, window)
                && Enumerates(back, OnWindow(old(View()), window))
      ensures !flushed.0 && !flushed.1 ==>
                && View() == WithoutWindow(old(View()), window)
                && Enumerates(back, OnWindow(old(View()), window) + {wl})
    {
      ghost var before := View();
      back := [];
      TrackInFlight(sb, wl, window);
      if !flushed.0 {
        UntrackInFlight(sb);
        assert View() == before;
        back := ReleaseInFlightOf(window);
        TrackInFlight(sb, wl, window);
        if !flushed.1 {
          UntrackInFlight(sb);
          assert View() == WithoutWindow(before, window);
          SendReleases([wl]);
          assert wl !in back;
          back := back + [wl];
        }
      }
    }
  }
}
