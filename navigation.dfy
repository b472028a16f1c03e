/**
 * NavigationManager: the responsive menu's open/closed state, the events
 * that close it, and the keyboard focus trap over its links. The links are
 * numbered 0 .. linkCount - 1 in document order; a focus move is returned as
 * the index of the link (or the menu button) that receives focus.
 */
module Navigation {
  import opened Wrappers

  /** Above this window width the menu is not the responsive one and is closed on resize. */
  const DesktopWidth := 768

  /** The link focused when the menu opens: the first one, if there is one. */
  function FirstLink(linkCount: nat): Option<nat> {
    if linkCount > 0 then Some(0) else None
  }

  /**
   * The Tab handler on link `index` of an open menu: Shift-Tab on the first
   * link wraps to the last, Tab on the last link wraps to the first, and any
   * other Tab is left to the browser.
   */
  function WrapTarget(index: nat, linkCount: nat, shiftKey: bool): (r: Option<nat>)
    requires index < linkCount
    ensures shiftKey && index == 0 ==> r == Some(linkCount - 1)
    ensures !shiftKey && index == linkCount - 1 ==> r == Some(0)
    ensures r.Some? ==> (shiftKey && index == 0) || (!shiftKey && index == linkCount - 1)
  {
    if shiftKey && index == 0 then Some(linkCount - 1)
    else if !shiftKey && index == linkCount - 1 then Some(0)
    else None
  }

  /**
   * Where focus lands after Tab on link `index`: the handler's target, or
   * else the browser's default move to the neighbouring link.
   */
  function FocusAfterTab(index: nat, linkCount: nat, shiftKey: bool): nat
    requires index < linkCount
  {
    match WrapTarget(index, linkCount, shiftKey)
    case Some(target) => target
    case None => if shiftKey then index - 1 else index + 1
  }

  /** With the menu open, Tab and Shift-Tab cycle through the links and never leave the menu. */
  lemma TabCyclesWithinMenu(index: nat, linkCount: nat, shiftKey: bool)
    requires index < linkCount
    ensures FocusAfterTab(index, linkCount, shiftKey) < linkCount
    ensures FocusAfterTab(index, linkCount, shiftKey) ==
      if shiftKey then (index + linkCount - 1) % linkCount else (index + 1) % linkCount
  {
  }

  class NavigationManager {
    const linkCount: nat
    var isOpen: bool

    constructor (linkCount: nat)
      ensures this.linkCount == linkCount && !isOpen
    {
      this.linkCount := linkCount;
      isOpen := false;
    }

    /** The hamburger button: returns the link focused when it opens the menu. */
    method ToggleMenu() returns (focus: Option<nat>)
      modifies this
      ensures isOpen == !old(isOpen)
      ensures focus == if isOpen then FirstLink(linkCount) else None
    {
      focus := None;
      if isOpen {
        CloseMenu();
      } else {
        focus := OpenMenu();
      }
    }

    method OpenMenu() returns (focus: Option<nat>)
      modifies this
      ensures isOpen
      ensures focus == FirstLink(linkCount)
    {
      isOpen := true;
      focus := FirstLink(linkCount);
    }

    method CloseMenu()
      modifies this
      ensures !isOpen
    {
      isOpen := false;
    }

    /** A click on a nav link closes an open menu. */
    method OnLinkClick()
      modifies this
      ensures !isOpen
    {
      if isOpen {
        CloseMenu();
      }
    }

    /** A resize to a desktop width closes an open menu. */
    method OnResize(innerWidth: int)
      modifies this
      ensures isOpen == (old(isOpen) && innerWidth <= DesktopWidth)
    {
      if innerWidth > DesktopWidth && isOpen {
        CloseMenu();
      }
    }

    /** handleClickOutside(): a click outside both the menu and its button closes the menu. */
    method HandleClickOutside(insideMenu: bool, insideButton: bool)
      modifies this
      ensures isOpen == (old(isOpen) && (insideMenu || insideButton))
    {
      if !insideMenu && !insideButton {
        CloseMenu();
      }
    }

    /** The document keydown listener: Escape closes an open menu and returns focus to the menu button. */
    method OnDocumentKeyDown(key: string) returns (focusMenuButton: bool)
      modifies this
      ensures focusMenuButton <==> key == "Escape" && old(isOpen)
      ensures isOpen == (old(isOpen) && key != "Escape")
    {
      focusMenuButton := false;
      if key == "Escape" && isOpen {
        CloseMenu();
        focusMenuButton := true;
      }
    }

    /**
     * The keydown listener of link `index`: acts only on Tab with the menu
     * open, and returns the link it moves focus to (None: default browser behaviour).
     */
    method OnLinkKeyDown(index: nat, key: string, shiftKey: bool) returns (focus: Option<nat>)
      requires index < linkCount
      ensures focus.Some? ==> isOpen && key == "Tab"
      ensures isOpen && key == "Tab" ==> focus == WrapTarget(index, linkCount, shiftKey)
    {
      focus := None;
      if key == "Tab" && isOpen {
        if shiftKey && index == 0 {
          focus := Some(linkCount - 1);
        } else if !shiftKey && index == linkCount - 1 {
          focus := Some(0);
        }
      }
    }
  }
}
