/** The navigation bar (src/components/Navigation.tsx): whether the mobile
    menu is open, and whether the page has been scrolled past 50 pixels, which
    the bar shows by turning from transparent to frosted. A single scroll
    listener on the window keeps `scrolled` up to date; it is added on mount and
    removed on unmount. Choosing a section closes the menu, whether or not the
    section's element is found. */
module Navigation {

  /** Pixels of vertical scroll past which the bar counts as scrolled. */
  const ScrollThreshold: int := 50

  /** handleScroll's test on `window.scrollY`; the comparison is strict. */
  predicate IsScrolled(scrollY: int)
  {
    scrollY > ScrollThreshold
  }

  /** The component's two state flags, the scroll listeners it has registered on the
      window, and whether it is mounted. */
  datatype State = State(isOpen: bool, scrolled: bool, scrollListeners: nat, mounted: bool)

  /** Exactly one scroll listener is registered while mounted, none afterwards. */
  ghost predicate Inv(s: State)
  {
    s.scrollListeners == if s.mounted then 1 else 0
  }

  /** The first render (both flags false) and the mount effect, which adds the listener. */
  function Mount(): (s: State)
    ensures Inv(s) && s.mounted
    ensures !s.isOpen && !s.scrolled && s.scrollListeners == 1
  {
    var rendered := State(false, false, 0, true);
    rendered.(scrollListeners := rendered.scrollListeners + 1)
  }

  /** A scroll of the window to `scrollY`, the menu button, a click on a section link
      (whether its element exists), and unmounting. */
  datatype Event = Scroll(scrollY: int) | MenuButton | NavItem(targetFound: bool) | Unmount

  /** One event. A scroll reaches the component only through a registered listener.
      The smooth scrolling to a found section is the browser's business and does not
      touch the state. */
  function Step(s: State, e: Event): (r: State)
    requires Inv(s)
    ensures Inv(r)
  {
    match e
    case Scroll(y) => if s.scrollListeners > 0 then s.(scrolled := IsScrolled(y)) else s
    case MenuButton => if s.mounted then s.(isOpen := !s.isOpen) else s
    case NavItem(_) => if s.mounted then s.(isOpen := false) else s
    case Unmount => if s.mounted then s.(scrollListeners := s.scrollListeners - 1, mounted := false) else s
  }

  /** A sequence of events, in order. */
  function Run(s: State, evs: seq<Event>): (r: State)
    requires Inv(s)
    ensures Inv(r)
    decreases |evs|
  {
    if evs == [] then s else Run(Step(s, evs[0]), evs[1..])
  }

  /** The background classes of the bar; they depend on `scrolled` alone. */
  function NavBackground(scrolled: bool): (classes: string)
  {
    if scrolled then "bg-white/80 dark:bg-gray-900/80 backdrop-blur-md shadow-lg" else "bg-transparent"
  }

  predicate HasScroll(evs: seq<Event>)
  {
    exists k | 0 <= k < |evs| :: evs[k].Scroll?
  }

  /** The offset of the last scroll event. */
  function LastScrollY(evs: seq<Event>): (y: int)
    requires HasScroll(evs)
    ensures exists k | 0 <= k < |evs| :: evs[k] == Scroll(y)
    decreases |evs|
  {
    if evs[|evs| - 1].Scroll? then evs[|evs| - 1].scrollY else LastScrollY(evs[..|evs| - 1])
  }

  /** The number of presses of the menu button. */
  function Presses(evs: seq<Event>): (p: nat)
    ensures p <= |evs|
  {
    if evs == [] then 0 else (if evs[0] == MenuButton then 1 else 0) + Presses(evs[1..])
  }

  /** The comparison is strict: 50 is not scrolled, 51 is, and a larger offset is
      scrolled whenever a smaller one is. */
  lemma ThresholdIsStrict(y1: int, y2: int)
    ensures !IsScrolled(50) && IsScrolled(51)
    ensures y1 <= y2 && IsScrolled(y1) ==> IsScrolled(y2)
  {
  }

  /** After a scroll, `scrolled` holds exactly when the offset is above 50; the menu
      and the listener stay as they were. */
  lemma ScrollSetsScrolled(s: State, y: int)
    requires Inv(s) && s.mounted
    ensures Step(s, Scroll(y)).scrolled <==> y > 50
    ensures Step(s, Scroll(y)).isOpen == s.isOpen
    ensures Step(s, Scroll(y)).scrollListeners == s.scrollListeners
    ensures NavBackground(Step(s, Scroll(y)).scrolled) == if y > 50 then NavBackground(true) else "bg-transparent"
  {
  }

  /** The menu button flips the menu and changes nothing else; pressing it twice undoes it. */
  lemma MenuButtonFlips(s: State)
    requires Inv(s) && s.mounted
    ensures Step(s, MenuButton) == s.(isOpen := !s.isOpen)
    ensures Step(Step(s, MenuButton), MenuButton) == s
  {
  }

  /** Choosing a section always closes the menu, found or not, and changes nothing else. */
  lemma NavItemCloses(s: State, found: bool)
    requires Inv(s) && s.mounted
    ensures !Step(s, NavItem(found)).isOpen
    ensures Step(s, NavItem(found)) == s.(isOpen := false)
    ensures Step(s, NavItem(found)) == Step(s, NavItem(!found))
  {
  }

  /** While mounted, `scrolled` reflects the last scroll event, or is unchanged if
      there was none. */
  lemma {:induction false} LastScrollDecides(s: State, evs: seq<Event>)
    requires Inv(s) && s.mounted
    requires forall k | 0 <= k < |evs| :: evs[k] != Unmount
    ensures Run(s, evs).mounted
    ensures Run(s, evs).scrolled == if HasScroll(evs) then IsScrolled(LastScrollY(evs)) else s.scrolled
    decreases |evs|
  {
    if evs != [] {
      var s' := Step(s, evs[0]);
      var rest := evs[1..];
      LastScrollDecides(s', rest);
      if HasScroll(rest) {
        var k :| 0 <= k < |rest| && rest[k].Scroll?;
        assert evs[k + 1] == rest[k];
        LastScrollOfTail(evs);
      } else if evs[0].Scroll? {
        LastScrollIsFirst(evs);
      } else {
        assert !HasScroll(evs) by {
          forall k | 0 <= k < |evs| ensures !evs[k].Scroll? {
            if k > 0 { assert evs[k] == rest[k - 1]; }
          }
        }
      }
    }
  }

  /** If the tail has a scroll event, the last one of the whole sequence is the tail's. */
  lemma {:induction false} LastScrollOfTail(evs: seq<Event>)
    requires |evs| > 0 && HasScroll(evs[1..])
    ensures HasScroll(evs) && LastScrollY(evs) == LastScrollY(evs[1..])
    decreases |evs|
  {
    var rest := evs[1..];
    var k :| 0 <= k < |rest| && rest[k].Scroll?;
    assert evs[k + 1] == rest[k];
    if !evs[|evs| - 1].Scroll? {
      var front := evs[..|evs| - 1];
      assert front[1..] == rest[..|rest| - 1];
      assert k < |rest| - 1;
      assert front[1..][k] == rest[k];
      LastScrollOfTail(front);
    }
  }

  /** If only the first event is a scroll, it is the last scroll. */
  lemma {:induction false} LastScrollIsFirst(evs: seq<Event>)
    requires |evs| > 0 && evs[0].Scroll? && !HasScroll(evs[1..])
    ensures HasScroll(evs) && LastScrollY(evs) == evs[0].scrollY
    decreases |evs|
  {
    if |evs| > 1 {
      var front := evs[..|evs| - 1];
      assert evs[|evs| - 1] == evs[1..][|evs| - 2];
      assert !HasScroll(front[1..]) by {
        forall k | 0 <= k < |front| - 1 ensures !front[1..][k].Scroll? {
          assert front[1..][k] == evs[1..][k];
        }
      }
      LastScrollIsFirst(front);
    }
  }

  /** Without section clicks or unmounting, the menu is open after an odd number of
      button presses exactly when it was closed before. */
  lemma {:induction false} MenuParity(s: State, evs: seq<Event>)
    requires Inv(s) && s.mounted
    requires forall k | 0 <= k < |evs| :: !evs[k].NavItem? && evs[k] != Unmount
    ensures Run(s, evs).mounted
    ensures Run(s, evs).isOpen == (s.isOpen != (Presses(evs) % 2 == 1))
    decreases |evs|
  {
    if evs != [] {
      MenuParity(Step(s, evs[0]), evs[1..]);
    }
  }

  /** After unmount the listener is gone: no scroll, and no other event, changes anything. */
  lemma {:induction false} UnmountedIgnoresEvents(s: State, evs: seq<Event>)
    requires Inv(s) && !s.mounted
    ensures s.scrollListeners == 0 && Run(s, evs) == s
    decreases |evs|
  {
    if evs != [] {
      UnmountedIgnoresEvents(Step(s, evs[0]), evs[1..]);
    }
  }

  /** Unmounting removes the one listener. */
  lemma UnmountRemovesListener(s: State)
    requires Inv(s) && s.mounted
    ensures s.scrollListeners == 1
    ensures !Step(s, Unmount).mounted && Step(s, Unmount).scrollListeners == 0
  {
  }

  /** The mounted navigation bar. */
  class NavBar {
    var isOpen: bool
    var scrolled: bool
    var scrollListeners: nat
    var mounted: bool

    function Model(): State
      reads this
    {
      State(isOpen, scrolled, scrollListeners, mounted)
    }

    ghost predicate Valid()
      reads this
    {
      Inv(Model())
    }

    /** Mount: both flags false, then the effect adds the scroll listener. */
    constructor ()
      ensures Valid() && Model() == Mount()
    {
      isOpen := false;
      scrolled := false;
      scrollListeners := 0;
      mounted := true;
      new;
      scrollListeners := scrollListeners + 1;
    }

    /** The window dispatches a scroll event to the registered listener, handleScroll. */
    method OnScroll(scrollY: int)
      requires Valid()
      modifies this
      ensures Valid() && Model() == Step(old(Model()), Scroll(scrollY))
    {
      if scrollListeners > 0 {
        scrolled := IsScrolled(scrollY);
      }
    }

    /** The menu button: `setIsOpen(!isOpen)`. */
    method ToggleMenu()
      requires Valid()
      modifies this
      ensures Valid() && Model() == Step(old(Model()), MenuButton)
    {
      if mounted {
        isOpen := !isOpen;
      }
    }

    /** scrollToSection: the lookup's outcome is given; the scrolling itself is left to
        the browser; the menu is closed either way. */
    method ScrollToSection(targetFound: bool)
      requires Valid()
      modifies this
      ensures Valid() && Model() == Step(old(Model()), NavItem(targetFound))
    {
      if mounted {
        isOpen := false;
      }
    }

    /** Unmount runs the effect's cleanup, which removes the listener. */
    method Unmount()
      requires Valid()
      modifies this
      ensures Valid() && Model() == Step(old(Model()), Event.Unmount)
    {
      if mounted {
        scrollListeners := scrollListeners - 1;
        mounted := false;
      }
    }

    /** The background classes the bar renders with. */
    method Background() returns (classes: string)
      requires Valid()
      ensures classes == NavBackground(scrolled)
      ensures classes == "bg-transparent" <==> !scrolled
    {
      classes := NavBackground(scrolled);
    }
  }
}
