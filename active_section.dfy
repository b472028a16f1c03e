/**
 * ActiveSectionManager: which `section[id]` of the page is highlighted in the
 * navigation, chosen from the scroll position, and the notification sent to
 * setActiveLink when that choice changes. The element list is captured once,
 * but each section's offsetTop and offsetHeight are read again on every
 * update. Sections are identified by their
 * index in document order (the order querySelectorAll returns them in), so
 * comparing two choices compares the elements themselves, not their ids.
 */
module ActiveSection {
  import opened Wrappers
  import Frames

  /** A section element as laid out at one update: its id, offsetTop and offsetHeight in pixels. */
  datatype Section = Section(id: string, top: int, height: int)

  /**
   * The values read from the window at each update: scrollY, innerHeight and
   * the document's scrollHeight. The sections' geometry is read at the same
   * moment and passed beside it.
   */
  datatype Viewport = Viewport(scrollY: int, windowHeight: int, documentHeight: int)

  /** How close to the bottom of the document counts as "at the bottom". */
  const BottomMargin := 100

  /** A section becomes active this many pixels before its top reaches the top of the window. */
  const HeaderOffset := 100

  predicate AtBottom(v: Viewport) {
    v.scrollY + v.windowHeight >= v.documentHeight - BottomMargin
  }

  /** The section's range, shifted up by the header offset, contains scrollY. */
  predicate Contains(s: Section, scrollY: int) {
    var sectionTop := s.top - HeaderOffset;
    scrollY >= sectionTop && scrollY < sectionTop + s.height
  }

  /** The last section, in document order, whose shifted range contains scrollY. */
  function LastContaining(sections: seq<Section>, scrollY: int): (r: Option<nat>)
    ensures r.Some? ==> r.value < |sections| && Contains(sections[r.value], scrollY)
    ensures r.Some? ==> forall j :: r.value < j < |sections| ==> !Contains(sections[j], scrollY)
    ensures r.None? ==> forall j :: 0 <= j < |sections| ==> !Contains(sections[j], scrollY)
  {
    if |sections| == 0 then None
    else if Contains(sections[|sections| - 1], scrollY) then Some(|sections| - 1)
    else LastContaining(sections[..|sections| - 1], scrollY)
  }

  /**
   * The section the update selects: the last one near the bottom of the page
   * (none if there are no sections), otherwise the last one containing scrollY.
   */
  function Choose(sections: seq<Section>, v: Viewport): (r: Option<nat>)
    ensures r.Some? ==> r.value < |sections|
    ensures |sections| == 0 ==> r.None?
    ensures AtBottom(v) && |sections| > 0 ==> r == Some(|sections| - 1)
    ensures !AtBottom(v) && r.Some? ==>
      Contains(sections[r.value], v.scrollY) &&
      forall j :: r.value < j < |sections| ==> !Contains(sections[j], v.scrollY)
    ensures !AtBottom(v) ==>
      (r.None? <==> forall j :: 0 <= j < |sections| ==> !Contains(sections[j], v.scrollY))
  {
    if AtBottom(v) then
      if |sections| > 0 then Some(|sections| - 1) else None
    else
      LastContaining(sections, v.scrollY)
  }

  /** The outcome of one update: the new currentActive and the id handed to setActiveLink, if any. */
  datatype Update = Update(currentActive: Option<nat>, notified: Option<string>)

  /** One update starting from the stored choice `current`. */
  function Evaluate(sections: seq<Section>, current: Option<nat>, v: Viewport): (u: Update)
    ensures u.notified.Some? <==> Choose(sections, v).Some? && Choose(sections, v) != current
    ensures u.notified.Some? ==>
      u.currentActive == Choose(sections, v) &&
      u.notified.value == sections[Choose(sections, v).value].id
    ensures u.notified.None? ==> u.currentActive == current
  {
    var chosen := Choose(sections, v);
    if chosen.Some? && chosen != current then
      Update(chosen, Some(sections[chosen.value].id))
    else
      Update(current, None)
  }

  /**
   * The selection loop of updateActiveSection: the bottom-of-page test, then a
   * scan over every section in which a later match overwrites an earlier one.
   */
  method ChooseActive(sections: seq<Section>, v: Viewport) returns (activeSection: Option<nat>)
    ensures activeSection == Choose(sections, v)
  {
    activeSection := None;
    if v.scrollY + v.windowHeight >= v.documentHeight - BottomMargin {
      // sections[length - 1] is undefined when there are no sections
      if |sections| > 0 {
        activeSection := Some(|sections| - 1);
      }
    } else {
      var i := 0;
      while i < |sections|
        invariant 0 <= i <= |sections|
        invariant activeSection == LastContaining(sections[..i], v.scrollY)
      {
        var sectionTop := sections[i].top - HeaderOffset;
        var sectionHeight := sections[i].height;
        if v.scrollY >= sectionTop && v.scrollY < sectionTop + sectionHeight {
          activeSection := Some(i);
        }
        assert sections[..i + 1][..i] == sections[..i];
        i := i + 1;
      }
      assert sections[..|sections|] == sections;
    }
  }

  /** Running the update a second time with the same inputs notifies nothing and changes nothing. */
  lemma EvaluateIdempotent(sections: seq<Section>, current: Option<nat>, v: Viewport)
    ensures var once := Evaluate(sections, current, v);
            Evaluate(sections, once.currentActive, v) == Update(once.currentActive, None)
  {
  }

  /** When the shifted range of exactly one section holds scrollY, away from the bottom, that section is chosen. */
  lemma SingleMatchIsChosen(sections: seq<Section>, v: Viewport, i: nat)
    requires i < |sections| && !AtBottom(v)
    requires Contains(sections[i], v.scrollY)
    requires forall j :: 0 <= j < |sections| && j != i ==> !Contains(sections[j], v.scrollY)
    ensures Choose(sections, v) == Some(i)
  {
  }

  /** A section of zero or negative height is never chosen away from the bottom of the page. */
  lemma FlatSectionNeverChosen(sections: seq<Section>, v: Viewport, i: nat)
    requires i < |sections| && sections[i].height <= 0 && !AtBottom(v)
    ensures Choose(sections, v) != Some(i)
  {
  }

  /** Sections follow one another without overlapping, in document order. */
  predicate Ordered(sections: seq<Section>) {
    (forall k :: 0 <= k < |sections| ==> sections[k].height >= 0) &&
    (forall k :: 0 <= k < |sections| - 1 ==> sections[k].top + sections[k].height <= sections[k + 1].top)
  }

  lemma {:induction false} EndsBefore(sections: seq<Section>, j: nat, i: nat)
    requires Ordered(sections) && j < i < |sections|
    ensures sections[j].top + sections[j].height <= sections[i].top
    decreases i - j
  {
    if j + 1 < i {
      EndsBefore(sections, j + 1, i);
      assert sections[j].top + sections[j].height <= sections[j + 1].top;
    }
  }

  /**
   * Scrolling down never selects an earlier section: for ordered sections and
   * a fixed window and document height, a larger scrollY chooses a section at
   * least as far down the page.
   */
  lemma ScrollingDownNeverGoesBack(sections: seq<Section>, v1: Viewport, v2: Viewport)
    requires Ordered(sections)
    requires v1.windowHeight == v2.windowHeight && v1.documentHeight == v2.documentHeight
    requires v1.scrollY <= v2.scrollY
    requires Choose(sections, v1).Some? && Choose(sections, v2).Some?
    ensures Choose(sections, v1).value <= Choose(sections, v2).value
  {
    var i, j := Choose(sections, v1).value, Choose(sections, v2).value;
    if !AtBottom(v2) && j < i {
      EndsBefore(sections, j, i);
    }
  }

  /** Two sections, about (0, 500) and skills (500, 800), in a 2000-pixel document with an 800-pixel window. */
  lemma AboutSkillsExample()
    ensures var sections := [Section("about", 0, 500), Section("skills", 500, 800)];
            Choose(sections, Viewport(0, 800, 2000)) == Some(0) &&
            Choose(sections, Viewport(600, 800, 2000)) == Some(1) &&
            Choose(sections, Viewport(1250, 800, 2000)) == Some(1)
  {
    var sections := [Section("about", 0, 500), Section("skills", 500, 800)];
    assert sections[..1] == [Section("about", 0, 500)];
  }

  /**
   * The bottom rule hides a section: a section other than the last whose top
   * lies within one window height of the document's end is never chosen,
   * because every offset its shifted range holds already counts as the bottom.
   */
  lemma BottomRuleHidesSection(sections: seq<Section>, i: nat, windowHeight: int, documentHeight: int, scrollY: int)
    requires i < |sections| - 1
    requires sections[i].top + windowHeight >= documentHeight
    ensures Choose(sections, Viewport(scrollY, windowHeight, documentHeight)) != Some(i)
  {
    var v := Viewport(scrollY, windowHeight, documentHeight);
    if !AtBottom(v) {
      assert !Contains(sections[i], scrollY);
    }
  }

  /**
   * Three sections tiling a 2000-pixel page, a (0, 1300), b (1300, 200) and
   * c (1500, 500), with an 800-pixel window: scrolling down jumps from a
   * straight to c, and b is chosen at no offset at all.
   */
  lemma TilingSkipsMiddleSection(scrollY: int)
    ensures var sections := [Section("a", 0, 1300), Section("b", 1300, 200), Section("c", 1500, 500)];
            Ordered(sections) &&
            sections[0].top + sections[0].height == sections[1].top &&
            sections[1].top + sections[1].height == sections[2].top &&
            sections[2].top + sections[2].height == 2000 &&
            Choose(sections, Viewport(1099, 800, 2000)) == Some(0) &&
            Choose(sections, Viewport(1100, 800, 2000)) == Some(2) &&
            Choose(sections, Viewport(scrollY, 800, 2000)) != Some(1)
  {
    var sections := [Section("a", 0, 1300), Section("b", 1300, 200), Section("c", 1500, 500)];
    BottomRuleHidesSection(sections, 1, 800, 2000, scrollY);
  }

  class ActiveSectionManager {
    /** The ids of the `section[id]` elements, captured once in document order. */
    const ids: seq<string>
    var currentActive: Option<nat>
    var ticking: bool
    /** Callbacks handed to requestAnimationFrame that have not run yet. */
    var pendingFrames: nat

    function Frame(): Frames.Flag
      reads this
    {
      Frames.Flag(ticking, pendingFrames)
    }

    /**
     * `sections` is the captured element list as laid out now: the same
     * elements in the same order, with their current offsetTop and offsetHeight.
     */
    predicate SameElements(sections: seq<Section>)
    {
      |sections| == |ids| && forall i :: 0 <= i < |ids| ==> sections[i].id == ids[i]
    }

    /** The stored choice is one of the sections. */
    ghost predicate ChoiceValid()
      reads this
    {
      currentActive.Some? ==> currentActive.value < |ids|
    }

    ghost predicate Valid()
      reads this
    {
      ChoiceValid() && Frames.Coalesced(Frame())
    }

    /** The element list is captured once, when the manager is built. */
    constructor (ids: seq<string>)
      ensures Valid()
      ensures this.ids == ids && currentActive == None && Frame() == Frames.Idle
    {
      this.ids := ids;
      currentActive := None;
      ticking := false;
      pendingFrames := 0;
    }

    /** init(): the update the source constructor makes, with the layout and window at that moment. */
    method Init(sections: seq<Section>, v: Viewport) returns (notified: Option<string>)
      requires Valid() && SameElements(sections)
      modifies this
      ensures Valid() && Frame() == old(Frame())
      ensures Update(currentActive, notified) == Evaluate(sections, old(currentActive), v)
    {
      notified := UpdateActiveSection(sections, v);
    }

    /** The scroll listener's requestTick(). */
    method RequestTick()
      requires Valid()
      modifies this
      ensures Valid() && currentActive == old(currentActive)
      ensures Frame() == Frames.Requested(old(Frame()))
    {
      if !ticking {
        pendingFrames := pendingFrames + 1;
        ticking := true;
      }
    }

    /**
     * The browser renders a frame with the sections laid out as `sections`
     * and the window in state `v`: the queued callback, if any, runs one
     * update and clears `ticking`.
     */
    method RunFrame(sections: seq<Section>, v: Viewport) returns (updates: nat, notified: Option<string>)
      requires Valid() && SameElements(sections)
      modifies this
      ensures Valid()
      ensures (Frame(), updates) == Frames.Rendered(old(Frame()))
      ensures updates > 0 ==> Update(currentActive, notified) == Evaluate(sections, old(currentActive), v)
      ensures updates == 0 ==> currentActive == old(currentActive) && notified == None
    {
      updates, notified := 0, None;
      if pendingFrames > 0 {
        pendingFrames := 0;
        notified := UpdateActiveSection(sections, v);
        ticking := false;
        updates := 1;
      }
    }

    /**
     * updateActiveSection(): with every section's offsetTop and offsetHeight
     * read afresh, choose, then store and notify only on a change.
     */
    method UpdateActiveSection(sections: seq<Section>, v: Viewport) returns (notified: Option<string>)
      requires ChoiceValid() && SameElements(sections)
      modifies this
      ensures ChoiceValid() && Frame() == old(Frame())
      ensures Update(currentActive, notified) == Evaluate(sections, old(currentActive), v)
    {
      var activeSection := ChooseActive(sections, v);
      notified := None;
      if activeSection.Some? && activeSection != currentActive {
        currentActive := activeSection;
        notified := Some(sections[activeSection.value].id);
      }
    }
  }
}
