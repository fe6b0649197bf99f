/** The site header: a fixed navigation bar that slides out of view while the
    page is scrolled down past a threshold, slides back in on any other scroll,
    and owns the open/closed state of the mobile navigation panel.

    Scroll events are coalesced: the first event arms a pending animation
    frame (the `ticking` flag) and later events are dropped until that frame
    has run and processed the window's offset at that moment. */
module HeaderScroll {

  /** Above this offset the `isScrolled` flag is set. The rendered header
      never reads the flag: its look does not change with it. */
  const ScrolledThreshold: int := 50
  /** The header may hide only once the offset is past this value. */
  const HideThreshold: int := 100
  /** Vertical translation of the header while it is hidden. */
  const HiddenOffset: int := -100

  /** The header's state fields, as one value. */
  datatype Snapshot = Snapshot(
    isScrolled: bool,
    isVisible: bool,
    lastScrollY: int,
    isMobileMenuOpen: bool)

  /** The state at page load. */
  const Initial: Snapshot := Snapshot(false, true, 0, false)

  /** Whether a frame that sees offset `y` after offset `previous` hides the header:
      the page moved down and is past the hide threshold. */
  predicate HidesOn(previous: int, y: int)
  {
    y > previous && y > HideThreshold
  }

  /** What one processed animation frame does to the state when the window
      is at offset `y`. */
  function Frame(s: Snapshot, y: int): Snapshot
  {
    if HidesOn(s.lastScrollY, y) then
      Snapshot(y > ScrolledThreshold, false, y, false)
    else
      Snapshot(y > ScrolledThreshold, true, y, s.isMobileMenuOpen)
  }

  /** The state after frames see the offsets `ys`, in order. */
  function Frames(s: Snapshot, ys: seq<int>): Snapshot
    decreases |ys|
  {
    if ys == [] then s else Frame(Frames(s, ys[..|ys| - 1]), ys[|ys| - 1])
  }

  /** The offset a frame at position `k` of `ys` compares against: the one
      processed just before it, or the starting state's for the first frame. */
  function PreviousOffset(s: Snapshot, ys: seq<int>, k: nat): int
    requires k < |ys|
  {
    if k == 0 then s.lastScrollY else ys[k - 1]
  }

  /** The header's vertical translation: on screen when visible, moved up
      out of view when hidden. */
  function Translation(s: Snapshot): (dy: int)
    ensures dy <= 0
    ensures dy == 0 <==> s.isVisible
    ensures !s.isVisible ==> dy == HiddenOffset
  {
    if s.isVisible then 0 else HiddenOffset
  }

  /** After any non-empty run of frames, the state is determined by the last
      offset and the one before it: the recorded offset is the last one, the
      `isScrolled` flag follows the last offset, and the header is hidden exactly
      when the last offset grew past the previous one and past 100. */
  lemma {:induction false} FramesLast(s: Snapshot, ys: seq<int>)
    requires ys != []
    ensures Frames(s, ys).lastScrollY == ys[|ys| - 1]
    ensures Frames(s, ys).isScrolled == (ys[|ys| - 1] > ScrolledThreshold)
    ensures !Frames(s, ys).isVisible <==>
              ys[|ys| - 1] > PreviousOffset(s, ys, |ys| - 1) && ys[|ys| - 1] > HideThreshold
    ensures !Frames(s, ys).isVisible ==> !Frames(s, ys).isMobileMenuOpen
  {
    var n := |ys|;
    var before := Frames(s, ys[..n - 1]);
    if n > 1 {
      FramesLast(s, ys[..n - 1]);
      assert before.lastScrollY == ys[n - 2];
    }
    assert before.lastScrollY == PreviousOffset(s, ys, n - 1);
  }

  /** Frames over a prefix extended by one offset are one more frame. */
  lemma FramesPrefix(s: Snapshot, ys: seq<int>, k: nat)
    requires 0 < k <= |ys|
    ensures Frames(s, ys[..k]) == Frame(Frames(s, ys[..k - 1]), ys[k - 1])
  {
    assert ys[..k][..k - 1] == ys[..k - 1];
  }

  /** The visibility rule along a whole run: after the k-th frame the header
      is hidden exactly when the k-th offset grew past the one before it and
      past 100, and a hidden header always has its mobile menu closed. */
  lemma {:induction false} VisibilityAlongRun(s: Snapshot, ys: seq<int>, k: nat)
    requires 0 < k <= |ys|
    ensures !Frames(s, ys[..k]).isVisible <==>
              ys[k - 1] > PreviousOffset(s, ys, k - 1) && ys[k - 1] > HideThreshold
    ensures !Frames(s, ys[..k]).isVisible ==> !Frames(s, ys[..k]).isMobileMenuOpen
  {
    var p := ys[..k];
    FramesLast(s, p);
    assert p[k - 1] == ys[k - 1];
    assert PreviousOffset(s, p, k - 1) == PreviousOffset(s, ys, k - 1);
  }

  /** Offsets that never exceed 100 (such as 0, 30, 20) keep the header
      visible throughout, whatever order they come in. */
  lemma {:induction false} NeverPastThresholdStaysVisible(s: Snapshot, ys: seq<int>)
    requires s.isVisible
    requires forall i :: 0 <= i < |ys| ==> ys[i] <= HideThreshold
    ensures forall k :: 0 <= k <= |ys| ==> Frames(s, ys[..k]).isVisible
  {
    forall k | 0 <= k <= |ys|
      ensures Frames(s, ys[..k]).isVisible
    {
      if k == 0 {
        assert ys[..0] == [];
      } else {
        FramesPrefix(s, ys, k);
      }
    }
  }

  /** A frame at an offset of 100 or less always shows the header, whatever
      the state before it: after every frame of a run that never exceeds 100,
      the header is visible, so one shallow frame brings a hidden header back. */
  lemma {:induction false} ShallowFrameShows(s: Snapshot, ys: seq<int>)
    requires forall i :: 0 <= i < |ys| ==> ys[i] <= HideThreshold
    ensures forall k :: 0 < k <= |ys| ==> Frames(s, ys[..k]).isVisible
  {
    forall k | 0 < k <= |ys|
      ensures Frames(s, ys[..k]).isVisible
    {
      FramesPrefix(s, ys, k);
    }
  }

  /** Scrolling steadily down past 100 keeps the header hidden and the mobile
      menu closed after every frame, even if the menu was open before. */
  lemma {:induction false} ScrollingDownStaysHidden(s: Snapshot, ys: seq<int>)
    requires forall i :: 0 <= i < |ys| ==> ys[i] > HideThreshold
    requires forall i :: 0 < i < |ys| ==> ys[i - 1] < ys[i]
    requires ys != [] ==> ys[0] > s.lastScrollY
    ensures forall k :: 0 < k <= |ys| ==>
              !Frames(s, ys[..k]).isVisible && !Frames(s, ys[..k]).isMobileMenuOpen
  {
    forall k | 0 < k <= |ys|
      ensures !Frames(s, ys[..k]).isVisible && !Frames(s, ys[..k]).isMobileMenuOpen
    {
      VisibilityAlongRun(s, ys, k);
    }
  }

  /** The two inputs the scroll listener reacts to. */
  datatype Event =
    | ScrollEvent               // the browser reports a scroll
    | AnimationFrame(y: int)    // the next repaint, with the window's offset then

  /** The header state together with the listener's pending-frame flag. */
  datatype Listener = Listener(header: Snapshot, ticking: bool)

  /** One event: a scroll arms a frame unless one is pending; a frame runs the
      pending update, if any, and clears the flag. */
  function Dispatch(m: Listener, e: Event): Listener
  {
    match e
    case ScrollEvent => if m.ticking then m else m.(ticking := true)
    case AnimationFrame(y) => if m.ticking then Listener(Frame(m.header, y), false) else m
  }

  /** Whether the event asks the browser for an animation frame. */
  predicate Requests(m: Listener, e: Event)
  {
    e.ScrollEvent? && !m.ticking
  }

  /** Whether the event runs a header update. */
  predicate Processes(m: Listener, e: Event)
  {
    e.AnimationFrame? && m.ticking
  }

  /** The listener after the events `es`, in order. */
  function Replay(m: Listener, es: seq<Event>): Listener
    decreases |es|
  {
    if es == [] then m else Replay(Dispatch(m, es[0]), es[1..])
  }

  /** How many animation frames the events `es` request. */
  function Requested(m: Listener, es: seq<Event>): nat
    decreases |es|
  {
    if es == [] then 0
    else (if Requests(m, es[0]) then 1 else 0) + Requested(Dispatch(m, es[0]), es[1..])
  }

  /** How many header updates the events `es` run. */
  function Processed(m: Listener, es: seq<Event>): nat
    decreases |es|
  {
    if es == [] then 0
    else (if Processes(m, es[0]) then 1 else 0) + Processed(Dispatch(m, es[0]), es[1..])
  }

  function Pending(m: Listener): nat
  {
    if m.ticking then 1 else 0
  }

  /** Every requested frame is accounted for: it has either run exactly one
      update or is the single one still pending. So updates never outnumber
      requests, and at most one update is outstanding at any time. */
  lemma {:induction false} RequestsAccountedFor(m: Listener, es: seq<Event>)
    ensures Pending(m) + Requested(m, es) == Processed(m, es) + Pending(Replay(m, es))
    ensures Processed(m, es) <= Pending(m) + Requested(m, es)
    decreases |es|
  {
    if es != [] {
      RequestsAccountedFor(Dispatch(m, es[0]), es[1..]);
    }
  }

  /** The offsets that the events `es` actually process, in order: those of
      the frames that find an update pending. */
  function ProcessedOffsets(m: Listener, es: seq<Event>): seq<int>
    decreases |es|
  {
    if es == [] then []
    else (if Processes(m, es[0]) then [es[0].y] else []) + ProcessedOffsets(Dispatch(m, es[0]), es[1..])
  }

  /** Running one frame and then the offsets `ys` is running `[y] + ys`. */
  lemma {:induction false} FramesCons(s: Snapshot, y: int, ys: seq<int>)
    ensures Frames(s, [y] + ys) == Frames(Frame(s, y), ys)
    decreases |ys|
  {
    var zs := [y] + ys;
    if ys == [] {
      assert zs[..0] == [];
    } else {
      assert zs[..|zs| - 1] == [y] + ys[..|ys| - 1];
      FramesCons(s, y, ys[..|ys| - 1]);
    }
  }

  /** Coalescing only drops events: the header state after any mix of scroll
      events and frames is the state after the processed offsets alone, so
      every rule about runs of frames holds of runs of events too. */
  lemma {:induction false} ReplayIsFrames(m: Listener, es: seq<Event>)
    ensures Replay(m, es).header == Frames(m.header, ProcessedOffsets(m, es))
    decreases |es|
  {
    if es != [] {
      var next := Dispatch(m, es[0]);
      ReplayIsFrames(next, es[1..]);
      if Processes(m, es[0]) {
        FramesCons(m.header, es[0].y, ProcessedOffsets(next, es[1..]));
      } else {
        assert next.header == m.header;
        assert ProcessedOffsets(m, es) == ProcessedOffsets(next, es[1..]);
      }
    }
  }

  /** A burst of scroll events with no frame in between requests at most one
      frame, exactly one when none was pending, and leaves the header alone. */
  lemma {:induction false} BurstRequestsOnce(m: Listener, es: seq<Event>)
    requires forall i :: 0 <= i < |es| ==> es[i].ScrollEvent?
    ensures Requested(m, es) == (if !m.ticking && es != [] then 1 else 0)
    ensures Replay(m, es).header == m.header
    ensures Replay(m, es).ticking == (m.ticking || es != [])
    decreases |es|
  {
    if es != [] {
      var next := Dispatch(m, es[0]);
      assert next.ticking && next.header == m.header;
      BurstRequestsOnce(next, es[1..]);
    }
  }

  /** The in-place header component. */
  class HeaderController {
    var isScrolled: bool
    var isVisible: bool
    var lastScrollY: int
    var isMobileMenuOpen: bool
    /** Set while an animation frame is requested and has not run yet. */
    var ticking: bool

    /** The state fields as a value. */
    function State(): Snapshot
      reads this
    {
      Snapshot(isScrolled, isVisible, lastScrollY, isMobileMenuOpen)
    }

    function Listening(): Listener
      reads this
    {
      Listener(State(), ticking)
    }

    constructor ()
      ensures State() == Initial && !ticking
    {
      isScrolled, isVisible, lastScrollY, isMobileMenuOpen := false, true, 0, false;
      ticking := false;
    }

    /** The body of an animation frame: the window is at offset `y`. */
    method ProcessScroll(y: int)
      modifies this
      ensures isScrolled == (y > ScrolledThreshold)
      ensures !isVisible <==> y > old(lastScrollY) && y > HideThreshold
      ensures !isVisible ==> !isMobileMenuOpen
      ensures isVisible ==> isMobileMenuOpen == old(isMobileMenuOpen)
      ensures lastScrollY == y
      ensures ticking == old(ticking)
      ensures State() == Frame(old(State()), y)
    {
      isScrolled := y > ScrolledThreshold;
      if y > lastScrollY && y > HideThreshold {
        isVisible := false;
        isMobileMenuOpen := false;
      } else {
        isVisible := true;
      }
      lastScrollY := y;
    }

    /** The scroll listener: arms a frame unless one is pending. */
    method OnScrollEvent() returns (requested: bool)
      modifies this
      ensures requested == !old(ticking)
      ensures ticking
      ensures State() == old(State())
      ensures Listening() == Dispatch(old(Listening()), ScrollEvent)
    {
      requested := !ticking;
      if !ticking {
        ticking := true;
      }
    }

    /** A repaint with the window at offset `y`: runs the pending update, if
        one was requested, and clears the flag; otherwise nothing happens. */
    method OnFrame(y: int) returns (processed: bool)
      modifies this
      ensures processed == old(ticking)
      ensures !ticking
      ensures State() == if processed then Frame(old(State()), y) else old(State())
      ensures Listening() == Dispatch(old(Listening()), AnimationFrame(y))
    {
      processed := ticking;
      if ticking {
        ProcessScroll(y);
        ticking := false;
      }
    }

    /** The mobile menu button: flips the menu open or closed. */
    method ToggleMenu()
      modifies this
      ensures isMobileMenuOpen == !old(isMobileMenuOpen)
      ensures isScrolled == old(isScrolled) && isVisible == old(isVisible)
      ensures lastScrollY == old(lastScrollY) && ticking == old(ticking)
    {
      isMobileMenuOpen := !isMobileMenuOpen;
    }

    /** The close button and the backdrop of the mobile panel. */
    method CloseMenu()
      modifies this
      ensures !isMobileMenuOpen
      ensures isScrolled == old(isScrolled) && isVisible == old(isVisible)
      ensures lastScrollY == old(lastScrollY) && ticking == old(ticking)
    {
      isMobileMenuOpen := false;
    }

    /** A click on a navigation link to `href`: closes the menu, then scrolls
        to the section when the document has it (`sections` holds the
        selectors that match an element). */
    method NavClick(href: string, sections: set<string>) returns (scrolled: bool)
      modifies this
      ensures !isMobileMenuOpen
      ensures scrolled <==> href in sections
      ensures isScrolled == old(isScrolled) && isVisible == old(isVisible)
      ensures lastScrollY == old(lastScrollY) && ticking == old(ticking)
    {
      isMobileMenuOpen := false;
      scrolled := href in sections;
    }
  }

  /** A navigation entry of the header. */
  datatype NavItem = NavItem(name: string, href: string)

  const NavItems: seq<NavItem> := [
    NavItem("About Us", "#about"),
    NavItem("Our Services", "#services"),
    NavItem("Contact Us", "#contact")
  ]

  /** The navigation targets that match an element of the page as written:
      of the linked sections, only services and contact carry an id. */
  const PageSections: set<string> := {"#services", "#contact"}

  /** The same page with the about section given the id its link targets. */
  const IntendedSections: set<string> := PageSections + {"#about"}

  /** As written, the "About Us" link targets no element, while the other two
      links do. */
  lemma AboutLinkHasNoTarget()
    ensures NavItems[0].name == "About Us"
    ensures NavItems[0].href !in PageSections
    ensures NavItems[1].href in PageSections && NavItems[2].href in PageSections
  {
  }

  /** With the about section's id in place, every navigation link targets an
      element, and the targeted sections are exactly the linked ones. */
  lemma {:induction false} EveryNavItemHasTarget()
    ensures forall i :: 0 <= i < |NavItems| ==> NavItems[i].href in IntendedSections
    ensures forall h :: h in IntendedSections ==> exists i :: 0 <= i < |NavItems| && NavItems[i].href == h
  {
    forall h | h in IntendedSections
      ensures exists i :: 0 <= i < |NavItems| && NavItems[i].href == h
    {
      if h == "#about" {
        assert NavItems[0].href == h;
      } else if h == "#services" {
        assert NavItems[1].href == h;
      } else {
        assert NavItems[2].href == h;
      }
    }
  }

  /** Clicking the header's links in order from the open mobile menu: each
      click closes the menu. On the page as written the about link does not
      scroll; the services and contact links do. */
  method NavClickScenario() returns (scrolled: seq<bool>, menuOpen: seq<bool>)
    ensures scrolled == [false, true, true]
    ensures menuOpen == [false, false, false]
  {
    var h := new HeaderController();
    scrolled, menuOpen := [], [];
    h.ToggleMenu();
    var moved := h.NavClick(NavItems[0].href, PageSections);
    scrolled, menuOpen := scrolled + [moved], menuOpen + [h.isMobileMenuOpen];
    h.ToggleMenu();
    moved := h.NavClick(NavItems[1].href, PageSections);
    scrolled, menuOpen := scrolled + [moved], menuOpen + [h.isMobileMenuOpen];
    h.ToggleMenu();
    moved := h.NavClick(NavItems[2].href, PageSections);
    scrolled, menuOpen := scrolled + [moved], menuOpen + [h.isMobileMenuOpen];
  }

  /** Scrolling through 0, 30 and 20 from page load: the header stays visible
      after every frame. */
  method ShallowScrollScenario() returns (visible: seq<bool>)
    ensures visible == [true, true, true]
  {
    var h := new HeaderController();
    visible := [];
    var requested := h.OnScrollEvent();
    var processed := h.OnFrame(0);
    visible := visible + [h.isVisible];
    requested := h.OnScrollEvent();
    processed := h.OnFrame(30);
    visible := visible + [h.isVisible];
    requested := h.OnScrollEvent();
    processed := h.OnFrame(20);
    visible := visible + [h.isVisible];
  }

  /** With the mobile menu open, scrolling down to 150 hides the header and
      closes the menu; scrolling back up to 120 shows the header again and
      leaves the menu closed. */
  method HideClosesMenuScenario() returns (visible: seq<bool>, menuOpen: seq<bool>)
    ensures visible == [false, true]
    ensures menuOpen == [false, false]
  {
    var h := new HeaderController();
    h.ToggleMenu();
    var requested := h.OnScrollEvent();
    var processed := h.OnFrame(150);
    visible, menuOpen := [h.isVisible], [h.isMobileMenuOpen];
    requested := h.OnScrollEvent();
    processed := h.OnFrame(120);
    visible, menuOpen := visible + [h.isVisible], menuOpen + [h.isMobileMenuOpen];
  }
}
