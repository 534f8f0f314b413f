/** The skills carousel (src/components/Skills.tsx): an index into the list of
    skill categories, an autoplay flag, and the ref holding the handle of a
    recurring 5000 ms interval. The interval effect depends on the autoplay
    flag only, so manual navigation never touches the timer.

    Each event below is the handler together with the re-render and effect
    flush it causes: when `autoScroll` changes, React first runs the previous
    effect's cleanup and then the effect again. */
module Skills {
  import opened Timers

  /** Milliseconds between two automatic advances. */
  const AutoScrollPeriod: nat := 5000

  /** The titles of the four skill categories; the carousel only needs their number. */
  const CategoryTitles: seq<string> := [
    "Programming Languages",
    "Frontend Technologies",
    "Backend Technologies",
    "Tools & Technologies"
  ]

  /** handleNext's updater: `(prev + 1) % length`. */
  function NextIndex(prev: nat, n: nat): (r: nat)
    requires 0 < n
    ensures r < n
    ensures prev + 1 == n ==> r == 0
    ensures prev + 1 < n ==> r == prev + 1
  {
    (prev + 1) % n
  }

  /** handlePrev's updater: 0 wraps to the last index, anything else steps back by one. */
  function PrevIndex(prev: nat, n: nat): (r: nat)
    requires 0 < n
    ensures prev < n ==> r < n && r == (prev + n - 1) % n
  {
    if prev == 0 then n - 1 else prev - 1
  }

  /** The component's state: `n` is skillCategories.length, `intervalRef` is
      intervalRef.current (0 plays `null`), `timers` the intervals it started,
      `inView` the reveal flag of useInView. */
  datatype State = State(
    n: nat,
    current: nat,
    autoScroll: bool,
    intervalRef: Handle,
    timers: Table,
    inView: bool,
    mounted: bool)

  /** The index is in range, and exactly one 5000 ms interval is live while autoplay
      is on (the one intervalRef holds), none otherwise or after unmount. */
  ghost predicate Inv(s: State)
  {
    && 0 < s.n
    && s.current < s.n
    && Timers.Valid(s.timers)
    && s.intervalRef < s.timers.next
    && if s.mounted && s.autoScroll then
         1 <= s.intervalRef && s.timers.live == map[s.intervalRef := Timer(Interval, AutoScrollPeriod)]
       else
         s.timers.live == map[]
  }

  /** `if (intervalRef.current) clearInterval(intervalRef.current)`: the else branch
      of the effect and the whole of its cleanup. */
  function ClearRef(s: State): (r: State)
    ensures r.(timers := s.timers) == s
    ensures Timers.Valid(s.timers) ==> Timers.Valid(r.timers)
    ensures Timers.Valid(s.timers) ==> r.timers.live == s.timers.live - {s.intervalRef} && r.timers.next == s.timers.next
  {
    if s.intervalRef != 0 then s.(timers := Clear(s.timers, s.intervalRef)) else s
  }

  /** The effect body: start a fresh interval and keep its handle while autoplay is on,
      otherwise clear the handle in the ref. */
  function RunEffect(s: State): (r: State)
    requires Timers.Valid(s.timers)
    ensures Timers.Valid(r.timers)
    ensures r.(intervalRef := s.intervalRef, timers := s.timers) == s
    ensures s.autoScroll ==> r.intervalRef !in s.timers.live
    ensures s.autoScroll ==> r.timers.live == s.timers.live[r.intervalRef := Timer(Interval, AutoScrollPeriod)]
    ensures !s.autoScroll ==> r == ClearRef(s)
  {
    if s.autoScroll then
      var (t, h) := Set(s.timers, Timer(Interval, AutoScrollPeriod));
      s.(intervalRef := h, timers := t)
    else
      ClearRef(s)
  }

  /** The next button: only the index changes, and it moves one step forward with wrap-around. */
  function HandleNext(s: State): (r: State)
    requires 0 < s.n
    ensures r == s.(current := r.current) && r.current < s.n
    ensures s.current + 1 < s.n ==> r.current == s.current + 1
    ensures s.current + 1 == s.n ==> r.current == 0
  {
    s.(current := NextIndex(s.current, s.n))
  }

  /** The previous button: only the index changes, and it moves one step back with wrap-around. */
  function HandlePrev(s: State): (r: State)
    requires 0 < s.n
    ensures r == s.(current := r.current)
    ensures s.current < s.n ==> r.current < s.n && r.current == (s.current + s.n - 1) % s.n
  {
    s.(current := PrevIndex(s.current, s.n))
  }

  /** setAutoScroll(prev => !prev); the dependency changed, so cleanup, then effect. */
  function ToggleAutoScroll(s: State): (r: State)
    requires Timers.Valid(s.timers)
    ensures r.autoScroll == !s.autoScroll
    ensures Timers.Valid(r.timers)
    ensures r.autoScroll ==> r.intervalRef !in s.timers.live
    ensures r.autoScroll ==> r.timers.live == (s.timers.live - {s.intervalRef})[r.intervalRef := Timer(Interval, AutoScrollPeriod)]
    ensures !r.autoScroll ==> r.timers.live == s.timers.live - {s.intervalRef}
    ensures r.(autoScroll := s.autoScroll, intervalRef := s.intervalRef, timers := s.timers) == s
    ensures !r.autoScroll ==> r.intervalRef == s.intervalRef
  {
    RunEffect(ClearRef(s.(autoScroll := !s.autoScroll)))
  }

  /** The first render (useState(0), useState(true), useRef(null)) and the first run of the effect. */
  function Mount(n: nat): (s: State)
    requires 0 < n
    ensures Inv(s) && s.mounted && !s.inView
    ensures s.current == 0 && s.autoScroll
    ensures s.timers.live == map[s.intervalRef := Timer(Interval, AutoScrollPeriod)]
  {
    RunEffect(State(n, 0, true, 0, Empty, false, true))
  }

  /** What can happen to the carousel: the two arrow buttons, the pause/play button,
      an interval firing, the reveal flag changing, and unmounting. */
  datatype Event = NextClick | PrevClick | ToggleClick | Tick(h: Handle) | InViewChange(visible: bool) | Unmount

  /** One event. A tick of a live interval runs handleNext itself, whose updater reads
      the current index; a cleared interval never fires. Nothing happens after unmount. */
  function Step(s: State, e: Event): (r: State)
    requires Inv(s)
    ensures Inv(r) && r.n == s.n
  {
    if !s.mounted then s
    else
      match e
      case NextClick => HandleNext(s)
      case PrevClick => HandlePrev(s)
      case ToggleClick => ToggleAutoScroll(s)
      case Tick(h) => if h in s.timers.live then HandleNext(s.(timers := AfterFire(s.timers, h))) else s
      case InViewChange(v) => s.(inView := v)
      case Unmount => ClearRef(s).(mounted := false)
  }

  /** A sequence of events, in order. */
  function Run(s: State, evs: seq<Event>): (r: State)
    requires Inv(s)
    ensures Inv(r) && r.n == s.n
    decreases |evs|
  {
    if evs == [] then s else Run(Step(s, evs[0]), evs[1..])
  }

  /** The index the arrow buttons alone would reach from `i`, up to the first unmount. */
  function ManualIndex(i: nat, n: nat, evs: seq<Event>): (j: nat)
    requires 0 < n
    ensures i < n ==> j < n
    decreases |evs|
  {
    if evs == [] then i
    else
      match evs[0]
      case NextClick => ManualIndex(NextIndex(i, n), n, evs[1..])
      case PrevClick => ManualIndex(PrevIndex(i, n), n, evs[1..])
      case Unmount => i
      case _ => ManualIndex(i, n, evs[1..])
  }

  /** `k` firings of the interval `h`. */
  function Ticks(h: Handle, k: nat): (evs: seq<Event>)
    ensures |evs| == k && forall j | 0 <= j < k :: evs[j] == Tick(h)
  {
    if k == 0 then [] else [Tick(h)] + Ticks(h, k - 1)
  }

  /** The events without the reveal-flag changes. */
  function WithoutView(evs: seq<Event>): (r: seq<Event>)
    ensures |r| <= |evs| && forall j | 0 <= j < |r| :: !r[j].InViewChange?
  {
    if evs == [] then []
    else if evs[0].InViewChange? then WithoutView(evs[1..])
    else [evs[0]] + WithoutView(evs[1..])
  }

  /** The state with the reveal flag forgotten. */
  function CarouselPart(s: State): (r: State)
  {
    s.(inView := false)
  }

  /** handleNext and handlePrev undo each other. */
  lemma NextPrevInverse(i: nat, n: nat)
    requires i < n
    ensures PrevIndex(NextIndex(i, n), n) == i
    ensures NextIndex(PrevIndex(i, n), n) == i
  {
  }

  /** The same round trip on the whole state, whatever the autoplay setting: the timer is not touched. */
  lemma NextPrevRoundTrip(s: State)
    requires Inv(s)
    ensures Step(Step(s, NextClick), PrevClick) == s
    ensures Step(Step(s, PrevClick), NextClick) == s
  {
  }

  /** Manual navigation changes the index only: autoplay, the ref and the live interval
      stay as they were, so the next tick is not rescheduled. */
  lemma ManualLeavesTimer(s: State, e: Event)
    requires Inv(s) && s.mounted
    requires e == NextClick || e == PrevClick
    ensures Step(s, e).autoScroll == s.autoScroll
    ensures Step(s, e).intervalRef == s.intervalRef && Step(s, e).timers == s.timers
    ensures Step(s, e).current == if e == NextClick then NextIndex(s.current, s.n) else PrevIndex(s.current, s.n)
  {
  }

  /** A tick of the live interval is exactly a click on the next arrow. */
  lemma TickIsNext(s: State, h: Handle)
    requires Inv(s) && h in s.timers.live
    ensures Step(s, Tick(h)) == Step(s, NextClick)
  {
  }

  /** The pause/play button flips autoplay and keeps the index; turning autoplay on
      starts one interval under a new handle, turning it off leaves none live. */
  lemma ToggleFlips(s: State)
    requires Inv(s) && s.mounted
    ensures Step(s, ToggleClick).autoScroll == !s.autoScroll
    ensures Step(s, ToggleClick).current == s.current
    ensures !s.autoScroll ==> Step(s, ToggleClick).intervalRef >= s.timers.next && |Step(s, ToggleClick).timers.live| == 1
    ensures !s.autoScroll ==> Step(s, ToggleClick).intervalRef != s.intervalRef
    ensures s.autoScroll ==> Step(s, ToggleClick).timers.live == map[]
  {
  }

  /** Toggling twice restores autoplay and the index; the interval is back, under a new handle. */
  lemma ToggleTwice(s: State)
    requires Inv(s) && s.mounted
    ensures Step(Step(s, ToggleClick), ToggleClick).autoScroll == s.autoScroll
    ensures Step(Step(s, ToggleClick), ToggleClick).current == s.current
    ensures |Step(Step(s, ToggleClick), ToggleClick).timers.live| == |s.timers.live|
    ensures s.autoScroll ==> Step(Step(s, ToggleClick), ToggleClick).intervalRef != s.intervalRef
  {
  }

  /** Cleanup comes first: once it ran, no interval is live, whatever autoplay becomes. */
  lemma CleanupClearsBeforeEffect(s: State, b: bool)
    requires Inv(s)
    ensures ClearRef(s.(autoScroll := b)).timers.live == map[]
  {
  }

  /** At most one interval is live, after any sequence of events. */
  lemma AtMostOneInterval(s: State, evs: seq<Event>)
    requires Inv(s)
    ensures |Run(s, evs).timers.live| <= 1
    ensures !Run(s, evs).autoScroll ==> Run(s, evs).timers.live == map[]
  {
  }

  /** While autoplay is off and nobody turns it back on, no interval is live and
      ticks never move the index: only the arrow buttons do. */
  lemma {:induction false} PausedOnlyManual(s: State, evs: seq<Event>)
    requires Inv(s) && s.mounted && !s.autoScroll
    requires forall k | 0 <= k < |evs| :: evs[k] != ToggleClick
    ensures !Run(s, evs).autoScroll && Run(s, evs).timers.live == map[]
    ensures Run(s, evs).current == ManualIndex(s.current, s.n, evs)
    decreases |evs|
  {
    if evs != [] {
      var s' := Step(s, evs[0]);
      if evs[0] == Unmount {
        UnmountedStays(s', evs[1..]);
      } else {
        PausedOnlyManual(s', evs[1..]);
      }
    }
  }

  /** After unmount nothing changes any more and no interval is live. */
  lemma {:induction false} UnmountedStays(s: State, evs: seq<Event>)
    requires Inv(s) && !s.mounted
    ensures Run(s, evs) == s && s.timers.live == map[]
    decreases |evs|
  {
    if evs != [] {
      UnmountedStays(Step(s, evs[0]), evs[1..]);
    }
  }

  /** Unmounting clears the live interval. */
  lemma UnmountClears(s: State)
    requires Inv(s) && s.mounted
    ensures !Step(s, Unmount).mounted && Step(s, Unmount).timers.live == map[]
  {
  }

  // Arithmetic helpers for the wrap-around of handleNext.

  /** A positive multiple of n is at least n. */
  lemma MulAtLeast(d: nat, n: nat)
    requires 1 <= d
    ensures d * n >= n
  {
  }

  /** Euclidean remainder is unique. */
  lemma ModUnique(a: int, n: int, q: int, r: int)
    requires 0 < n && 0 <= r < n && a == q * n + r
    ensures a % n == r
  {
    var q', r' := a / n, a % n;
    assert a == q' * n + r';
    assert q * n - q' * n == (q - q') * n;
    if q > q' {
      MulAtLeast(q - q', n);
    } else if q < q' {
      MulAtLeast(q' - q, n);
    }
  }

  /** Adding the modulus once does not change the remainder. */
  lemma ModAddOnce(k: nat, n: nat)
    requires 0 < n
    ensures (n + k) % n == k % n
  {
    assert k == (k / n) * n + k % n;
    assert n + k == (k / n + 1) * n + k % n;
    ModUnique(n + k, n, k / n + 1, k % n);
  }

  /** One more step after handleNext is one more step in the sum, modulo the length. */
  lemma NextThenAdd(c: nat, k: nat, n: nat)
    requires c < n
    ensures (NextIndex(c, n) + k) % n == (c + 1 + k) % n
  {
    if c + 1 == n {
      ModAddOnce(k, n);
    }
  }

  /** With autoplay on, k firings of the interval advance the index by k, modulo the length. */
  lemma {:induction false} TicksAdvance(s: State, k: nat)
    requires Inv(s) && s.mounted && s.autoScroll
    ensures Run(s, Ticks(s.intervalRef, k)).current == (s.current + k) % s.n
    decreases k
  {
    if k != 0 {
      var h := s.intervalRef;
      var s' := Step(s, Tick(h));
      assert s' == HandleNext(s);
      assert Ticks(h, k)[0] == Tick(h) && Ticks(h, k)[1..] == Ticks(h, k - 1);
      assert Run(s, Ticks(h, k)) == Run(s', Ticks(h, k - 1));
      TicksAdvance(s', k - 1);
      NextThenAdd(s.current, k - 1, s.n);
    }
  }

  /** The carousel part of the state never depends on the reveal flag: neither on its
      value at the start nor on how it changes on the way. */
  lemma {:induction false} ViewIndependent(s1: State, s2: State, evs: seq<Event>)
    requires Inv(s1) && Inv(s2) && CarouselPart(s1) == CarouselPart(s2)
    ensures CarouselPart(Run(s1, evs)) == CarouselPart(Run(s2, WithoutView(evs)))
    decreases |evs|
  {
    if evs != [] {
      if evs[0].InViewChange? {
        ViewIndependent(Step(s1, evs[0]), s2, evs[1..]);
      } else {
        assert WithoutView(evs)[0] == evs[0] && WithoutView(evs)[1..] == WithoutView(evs[1..]);
        ViewIndependent(Step(s1, evs[0]), Step(s2, evs[0]), evs[1..]);
      }
    }
  }

  /** The category shown, skillCategories[current], is always in range. */
  function ShownTitle(s: State): (title: string)
    requires Inv(s) && s.n == |CategoryTitles|
    ensures title in CategoryTitles
  {
    CategoryTitles[s.current]
  }

  /** Four categories from index 0: three clicks on next reach the last, a fourth wraps
      to the first, and previous from the first goes back to the last. */
  lemma FourCategories()
    ensures Run(Mount(4), [NextClick, NextClick, NextClick]).current == 3
    ensures Run(Mount(4), [NextClick, NextClick, NextClick, NextClick]).current == 0
    ensures Run(Mount(4), [NextClick, NextClick, NextClick, NextClick, PrevClick]).current == 3
  {
  }

  /** The mounted component: the fields of Skills.tsx and the intervals it started. */
  class Carousel {
    const n: nat
    var current: nat
    var autoScroll: bool
    var intervalRef: Handle
    var timers: Table
    var inView: bool
    var mounted: bool

    function Model(): State
      reads this
    {
      State(n, current, autoScroll, intervalRef, timers, inView, mounted)
    }

    ghost predicate Valid()
      reads this
    {
      Inv(Model())
    }

    /** Mount with `count` categories: first render, then the effect schedules the interval. */
    constructor (count: nat)
      requires 0 < count
      ensures Valid() && Model() == Mount(count)
    {
      n := count;
      current := 0;
      autoScroll := true;
      intervalRef := 0;
      timers := Empty;
      inView := false;
      mounted := true;
      new;
      Effect();
    }

    /** `if (intervalRef.current) clearInterval(intervalRef.current)` */
    method ClearIntervalRef()
      modifies this
      ensures Model() == ClearRef(old(Model()))
    {
      if intervalRef != 0 {
        timers := Clear(timers, intervalRef);
      }
    }

    /** The effect body. */
    method Effect()
      requires Timers.Valid(timers)
      modifies this
      ensures Model() == RunEffect(old(Model()))
    {
      if autoScroll {
        var p := Set(timers, Timer(Interval, AutoScrollPeriod));
        timers := p.0;
        intervalRef := p.1;
      } else {
        ClearIntervalRef();
      }
    }

    method HandleNext()
      requires Valid()
      modifies this
      ensures Valid() && Model() == Step(old(Model()), NextClick)
    {
      if mounted {
        current := NextIndex(current, n);
      }
    }

    method HandlePrev()
      requires Valid()
      modifies this
      ensures Valid() && Model() == Step(old(Model()), PrevClick)
    {
      if mounted {
        current := PrevIndex(current, n);
      }
    }

    /** toggleAutoScroll, then the cleanup of the previous effect, then the effect. */
    method ToggleAutoScroll()
      requires Valid()
      modifies this
      ensures Valid() && Model() == Step(old(Model()), ToggleClick)
    {
      if mounted {
        autoScroll := !autoScroll;
        ClearIntervalRef();
        Effect();
      }
    }

    /** The browser fires interval `h`; if it is live, its callback is handleNext. */
    method Tick(h: Handle)
      requires Valid()
      modifies this
      ensures Valid() && Model() == Step(old(Model()), Event.Tick(h))
    {
      if mounted && h in timers.live {
        timers := AfterFire(timers, h);
        HandleNext();
      }
    }

    /** useInView reports a new visibility. */
    method SetInView(visible: bool)
      requires Valid()
      modifies this
      ensures Valid() && Model() == Step(old(Model()), InViewChange(visible))
    {
      if mounted {
        inView := visible;
      }
    }

    /** Unmount runs the effect's cleanup. */
    method Unmount()
      requires Valid()
      modifies this
      ensures Valid() && Model() == Step(old(Model()), Event.Unmount)
    {
      if mounted {
        ClearIntervalRef();
        mounted := false;
      }
    }

    /** The title rendered for skillCategories[current]. */
    method CurrentTitle() returns (title: string)
      requires Valid() && n == |CategoryTitles|
      ensures title == ShownTitle(Model()) && title in CategoryTitles
    {
      title := CategoryTitles[current];
    }
  }
}
