/**
 * ScrollManager: the header's "scrolled" state, recomputed at most once per
 * rendered frame from the most recent scroll offset seen by the scroll
 * listener.
 */
module Scroll {
  import Frames

  /** The header is "scrolled" once the page is scrolled strictly past this many pixels. */
  const ScrollThreshold := 50

  predicate IsScrolled(lastScrollY: int) {
    lastScrollY > ScrollThreshold
  }

  /** The manager's state: the last offset captured, its frame flag, and the header's "scrolled" class. */
  datatype ScrollState = ScrollState(lastScrollY: int, frame: Frames.Flag, headerScrolled: bool)

  /** The scroll listener: capture the offset, then requestTick(). */
  function Scrolled(st: ScrollState, scrollY: int): (r: ScrollState)
    ensures r.lastScrollY == scrollY && r.headerScrolled == st.headerScrolled
    ensures Frames.Coalesced(st.frame) ==> r.frame == Frames.Flag(true, 1)
  {
    st.(lastScrollY := scrollY, frame := Frames.Requested(st.frame))
  }

  /** A burst of scroll events, in order. */
  function ScrolledAll(st: ScrollState, ys: seq<int>): ScrollState
    decreases |ys|
  {
    if |ys| == 0 then st else ScrolledAll(Scrolled(st, ys[0]), ys[1..])
  }

  /** A frame is rendered: each queued callback runs updateHeaderShadow() with the captured offset. */
  function Rendered(st: ScrollState): (r: (ScrollState, nat))
    ensures r.1 == st.frame.pending
    ensures r.0.lastScrollY == st.lastScrollY
    ensures r.1 > 0 ==> r.0.frame == Frames.Idle && r.0.headerScrolled == IsScrolled(st.lastScrollY)
    ensures r.1 == 0 ==> r.0 == st
  {
    var (frame, updates) := Frames.Rendered(st.frame);
    var headerScrolled := if updates > 0 then IsScrolled(st.lastScrollY) else st.headerScrolled;
    (ScrollState(st.lastScrollY, frame, headerScrolled), updates)
  }

  lemma {:induction false} ScrolledAllFacts(st: ScrollState, ys: seq<int>)
    requires Frames.Coalesced(st.frame) && |ys| > 0
    ensures ScrolledAll(st, ys).lastScrollY == ys[|ys| - 1]
    ensures ScrolledAll(st, ys).frame == Frames.Flag(true, 1)
    decreases |ys|
  {
    if |ys| > 1 {
      ScrolledAllFacts(Scrolled(st, ys[0]), ys[1..]);
    }
  }

  /**
   * Any number of scroll events within one frame interval lead to exactly one
   * header update when the frame is rendered, and that update uses the offset
   * of the last event.
   */
  lemma BurstThenFrame(st: ScrollState, ys: seq<int>)
    requires Frames.Coalesced(st.frame) && |ys| > 0
    ensures var (after, updates) := Rendered(ScrolledAll(st, ys));
            updates == 1 && after.frame == Frames.Idle &&
            after.headerScrolled == IsScrolled(ys[|ys| - 1])
  {
    ScrolledAllFacts(st, ys);
  }

  /** Without a scroll event in between, the frame after an update changes nothing and updates nothing. */
  lemma NoUpdateWithoutScroll(st: ScrollState)
    requires Frames.Coalesced(st.frame)
    ensures Rendered(Rendered(st).0) == (Rendered(st).0, 0)
  {
  }

  class ScrollManager {
    var lastScrollY: int
    var ticking: bool
    /** Callbacks handed to requestAnimationFrame that have not run yet. */
    var pendingFrames: nat
    /** Whether the header carries the "scrolled" class. */
    var headerScrolled: bool

    function State(): ScrollState
      reads this
    {
      ScrollState(lastScrollY, Frames.Flag(ticking, pendingFrames), headerScrolled)
    }

    ghost predicate Valid()
      reads this
    {
      Frames.Coalesced(State().frame)
    }

    /** Captures the offset at construction and makes the initial header update. */
    constructor (scrollY: int)
      ensures Valid()
      ensures State() == ScrollState(scrollY, Frames.Idle, IsScrolled(scrollY))
    {
      lastScrollY := scrollY;
      ticking := false;
      pendingFrames := 0;
      headerScrolled := false;
      new;
      UpdateHeaderShadow();
    }

    /** The passive scroll listener. */
    method OnScroll(scrollY: int)
      requires Valid()
      modifies this
      ensures Valid()
      ensures State() == Scrolled(old(State()), scrollY)
    {
      lastScrollY := scrollY;
      RequestTick();
    }

    method RequestTick()
      requires Valid()
      modifies this
      ensures Valid()
      ensures State() == old(State()).(frame := Frames.Requested(old(State()).frame))
    {
      if !ticking {
        pendingFrames := pendingFrames + 1;
        ticking := true;
      }
    }

    /** The browser renders a frame: the queued callback, if any, updates the header and clears `ticking`. */
    method RunFrame() returns (updates: nat)
      requires Valid()
      modifies this
      ensures Valid()
      ensures (State(), updates) == Rendered(old(State()))
    {
      updates := 0;
      if pendingFrames > 0 {
        pendingFrames := 0;
        UpdateHeaderShadow();
        ticking := false;
        updates := 1;
      }
    }

    method UpdateHeaderShadow()
      modifies this
      ensures headerScrolled == IsScrolled(lastScrollY)
      ensures lastScrollY == old(lastScrollY) && ticking == old(ticking) && pendingFrames == old(pendingFrames)
    {
      var scrollThreshold := ScrollThreshold;
      var isScrolled := lastScrollY > scrollThreshold;
      headerScrolled := isScrolled;
    }
  }
}
