/** The hero section's delayed reset (src/components/Hero.tsx): a flag that
    enables the orbit controls of the sphere, and an effect that, while the flag
    is true, schedules a one-shot 5000 ms timeout which sets it back to false.
    The effect's cleanup clears that timeout when the flag changes or the
    component unmounts. Nothing in the component sets the flag to true, so that
    is an event from outside.

    Each event is the state update together with the re-render and effect flush
    it causes; an update to the value the flag already has changes nothing. */
module Hero {
  import opened Timers

  /** Milliseconds until the controls are disabled again. */
  const ResetDelay: nat := 5000

  /** What the last run of the effect returned: nothing (the flag was false), or
      the cleanup `() => clearTimeout(timer)` over the timeout it scheduled. */
  datatype Cleanup = NoCleanup | ClearTimer(timer: Handle)

  datatype State = State(isSphereClicked: bool, cleanup: Cleanup, timers: Table, mounted: bool)

  /** While mounted and the flag is true, exactly one 5000 ms timeout is pending and the
      cleanup holds its handle; otherwise nothing is pending and there is no cleanup. */
  ghost predicate Inv(s: State)
  {
    && Timers.Valid(s.timers)
    && (s.cleanup.ClearTimer? ==> 1 <= s.cleanup.timer < s.timers.next)
    && if s.mounted && s.isSphereClicked then
         s.cleanup.ClearTimer? && s.timers.live == map[s.cleanup.timer := Timer(Timeout, ResetDelay)]
       else
         s.cleanup == NoCleanup && s.timers.live == map[]
  }

  /** Run the previous effect's cleanup, if it returned one. */
  function RunCleanup(s: State): (r: State)
    ensures r.cleanup == NoCleanup && r.isSphereClicked == s.isSphereClicked && r.mounted == s.mounted
    ensures Timers.Valid(s.timers) ==> Timers.Valid(r.timers)
    ensures s.cleanup.ClearTimer? ==> r.timers.live == s.timers.live - {s.cleanup.timer} && r.timers.next == s.timers.next
    ensures s.cleanup == NoCleanup ==> r == s
  {
    match s.cleanup
    case NoCleanup => s
    case ClearTimer(t) => s.(timers := Clear(s.timers, t), cleanup := NoCleanup)
  }

  /** The effect body: only while the flag is true, schedule the reset and return its cleanup. */
  function RunEffect(s: State): (r: State)
    requires Timers.Valid(s.timers)
    ensures Timers.Valid(r.timers) && r.isSphereClicked == s.isSphereClicked && r.mounted == s.mounted
    ensures s.isSphereClicked ==> r.cleanup.ClearTimer? && r.cleanup.timer !in s.timers.live
    ensures s.isSphereClicked ==> r.timers.live == s.timers.live[r.cleanup.timer := Timer(Timeout, ResetDelay)]
    ensures !s.isSphereClicked ==> r.timers == s.timers && r.cleanup == NoCleanup
  {
    if s.isSphereClicked then
      var (t, h) := Set(s.timers, Timer(Timeout, ResetDelay));
      s.(timers := t, cleanup := ClearTimer(h))
    else
      s.(cleanup := NoCleanup)
  }

  /** setIsSphereClicked(b): a new value re-renders, so cleanup, then effect. */
  function SetSphereClicked(s: State, b: bool): (r: State)
    requires Timers.Valid(s.timers)
    ensures r.isSphereClicked == b && r.mounted == s.mounted && Timers.Valid(r.timers)
    ensures b == s.isSphereClicked ==> r == s
    ensures b != s.isSphereClicked && !b ==> r.cleanup == NoCleanup && r.timers.live == RunCleanup(s).timers.live
    ensures b != s.isSphereClicked && b ==>
      && r.cleanup.ClearTimer? && r.cleanup.timer !in RunCleanup(s).timers.live
      && r.timers.live == RunCleanup(s).timers.live[r.cleanup.timer := Timer(Timeout, ResetDelay)]
  {
    if b == s.isSphereClicked then s else RunEffect(RunCleanup(s.(isSphereClicked := b)))
  }

  /** The first render (useState(false)) and the first run of the effect. */
  function Mount(): (s: State)
    ensures Inv(s) && s.mounted
    ensures !s.isSphereClicked && s.timers.live == map[]
  {
    RunEffect(State(false, NoCleanup, Empty, true))
  }

  /** The flag set to true from outside, a timeout firing, and unmounting. */
  datatype Event = Click | Fire(h: Handle) | Unmount

  /** One event. A live timeout that fires is used up and sets the flag false,
      whatever happened since it was scheduled. */
  function Step(s: State, e: Event): (r: State)
    requires Inv(s)
    ensures Inv(r)
  {
    if !s.mounted then s
    else
      match e
      case Click => SetSphereClicked(s, true)
      case Fire(h) => if h in s.timers.live then SetSphereClicked(s.(timers := AfterFire(s.timers, h)), false) else s
      case Unmount => RunCleanup(s).(mounted := false)
  }

  /** A sequence of events, in order. */
  function Run(s: State, evs: seq<Event>): (r: State)
    requires Inv(s)
    ensures Inv(r)
    decreases |evs|
  {
    if evs == [] then s else Run(Step(s, evs[0]), evs[1..])
  }

  /** `<OrbitControls enabled={isSphereClicked} />` */
  function ControlsEnabled(s: State): (enabled: bool)
    ensures Inv(s) && s.mounted ==> (enabled <==> 0 < |s.timers.live|)
  {
    s.isSphereClicked
  }

  /** `k` outside clicks. */
  function Clicks(k: nat): (evs: seq<Event>)
    ensures |evs| == k && forall j | 0 <= j < k :: evs[j] == Click
  {
    if k == 0 then [] else [Click] + Clicks(k - 1)
  }

  /** Running two sequences one after the other is running their concatenation. */
  lemma {:induction false} RunAppend(s: State, a: seq<Event>, b: seq<Event>)
    requires Inv(s)
    ensures Run(s, a + b) == Run(Run(s, a), b)
    decreases |a|
  {
    if a == [] {
      assert a + b == b;
    } else {
      assert (a + b)[0] == a[0] && (a + b)[1..] == a[1..] + b;
      RunAppend(Step(s, a[0]), a[1..], b);
    }
  }

  /** The controls are enabled exactly while the reset timeout is pending. */
  lemma ControlsIffPending(s: State)
    requires Inv(s) && s.mounted
    ensures ControlsEnabled(s) <==> |s.timers.live| == 1
    ensures ControlsEnabled(s) ==> exists h :: s.timers.live == map[h := Timer(Timeout, ResetDelay)]
  {
  }

  /** Setting the flag schedules one 5000 ms timeout under a new handle. */
  lemma ClickArms(s: State)
    requires Inv(s) && s.mounted && !s.isSphereClicked
    ensures Step(s, Click).isSphereClicked
    ensures Step(s, Click).cleanup.ClearTimer?
    ensures Step(s, Click).cleanup.timer >= s.timers.next
    ensures Step(s, Click).timers.live == map[Step(s, Click).cleanup.timer := Timer(Timeout, ResetDelay)]
  {
  }

  /** Setting the flag again while it is true changes nothing: the pending timeout is not
      pushed back. */
  lemma ClickWhileArmed(s: State)
    requires Inv(s) && s.isSphereClicked
    ensures Step(s, Click) == s
  {
  }

  /** Any number of further clicks leave the state, and the pending timeout, as they were. */
  lemma {:induction false} RepeatedClicks(s: State, k: nat)
    requires Inv(s) && s.isSphereClicked
    ensures Run(s, Clicks(k)) == s
    decreases k
  {
    if k != 0 {
      assert Clicks(k)[0] == Click && Clicks(k)[1..] == Clicks(k - 1);
      ClickWhileArmed(s);
      RepeatedClicks(s, k - 1);
    }
  }

  /** Firing the pending timeout sets the flag false and leaves nothing pending. */
  lemma FireResets(s: State, h: Handle)
    requires Inv(s) && s.mounted && h in s.timers.live
    ensures !Step(s, Fire(h)).isSphereClicked && Step(s, Fire(h)).mounted
    ensures Step(s, Fire(h)).timers.live == map[]
  {
  }

  /** The reset does not consult the clicks in between: after any number of them the
      timeout scheduled by the first one still fires and disables the controls. */
  lemma ResetIsUnconditional(s: State, k: nat)
    requires Inv(s) && s.mounted && !s.isSphereClicked
    ensures Step(s, Click).cleanup.ClearTimer?
    ensures !ControlsEnabled(Run(s, [Click] + Clicks(k) + [Fire(Step(s, Click).cleanup.timer)]))
  {
    var s1 := Step(s, Click);
    var t := s1.cleanup.timer;
    assert Run(s, [Click]) == s1 by {
      assert Run(s1, []) == s1;
    }
    RepeatedClicks(s1, k);
    RunAppend(s, [Click], Clicks(k));
    RunAppend(s, [Click] + Clicks(k), [Fire(t)]);
    assert Run(s1, [Fire(t)]) == Step(s1, Fire(t)) by {
      assert Run(Step(s1, Fire(t)), []) == Step(s1, Fire(t));
    }
    FireResets(s1, t);
  }

  /** Until its timeout fires or the component unmounts, a set flag stays set. */
  lemma {:induction false} ArmedUntilFire(s: State, evs: seq<Event>)
    requires Inv(s) && s.mounted && s.isSphereClicked
    requires forall k | 0 <= k < |evs| :: evs[k] != Fire(s.cleanup.timer) && evs[k] != Unmount
    ensures Run(s, evs) == s
    decreases |evs|
  {
    if evs != [] {
      assert Step(s, evs[0]) == s;
      ArmedUntilFire(s, evs[1..]);
    }
  }

  /** The cleanup cancels the pending timeout before any new one can be scheduled. */
  lemma CleanupCancels(s: State, b: bool)
    requires Inv(s)
    ensures RunCleanup(s.(isSphereClicked := b)).timers.live == map[]
  {
  }

  /** Unmounting cancels the pending timeout, and nothing happens afterwards. */
  lemma {:induction false} UnmountCancels(s: State, evs: seq<Event>)
    requires Inv(s) && !s.mounted
    ensures s.timers.live == map[] && Run(s, evs) == s
    decreases |evs|
  {
    if evs != [] {
      UnmountCancels(Step(s, evs[0]), evs[1..]);
    }
  }

  /** Unmounting a mounted component runs the cleanup: the pending timeout, if any, is
      cleared, and nothing is left pending. */
  lemma UnmountClears(s: State)
    requires Inv(s) && s.mounted
    ensures !Step(s, Unmount).mounted && Step(s, Unmount).timers.live == map[]
    ensures Step(s, Unmount).cleanup == NoCleanup && Step(s, Unmount).isSphereClicked == s.isSphereClicked
    ensures s.cleanup.ClearTimer? ==> Step(s, Unmount).timers.live == s.timers.live - {s.cleanup.timer}
  {
  }

  /** At most one timeout is pending after any sequence of events, and none while the flag is false. */
  lemma AtMostOneTimeout(s: State, evs: seq<Event>)
    requires Inv(s)
    ensures |Run(s, evs).timers.live| <= 1
    ensures !Run(s, evs).isSphereClicked ==> Run(s, evs).timers.live == map[]
  {
  }

  /** The mounted hero section: its state flag and the timeouts it scheduled. */
  class HeroSection {
    var isSphereClicked: bool
    var cleanup: Cleanup
    var timers: Table
    var mounted: bool

    function Model(): State
      reads this
    {
      State(isSphereClicked, cleanup, timers, mounted)
    }

    ghost predicate Valid()
      reads this
    {
      Inv(Model())
    }

    /** Mount: first render with the flag false; the effect schedules nothing. */
    constructor ()
      ensures Valid() && Model() == Mount()
    {
      isSphereClicked := false;
      cleanup := NoCleanup;
      timers := Empty;
      mounted := true;
      new;
      Effect();
    }

    /** The cleanup returned by the previous effect, if any. */
    method CallCleanup()
      modifies this
      ensures Model() == RunCleanup(old(Model()))
    {
      if cleanup.ClearTimer? {
        timers := Clear(timers, cleanup.timer);
        cleanup := NoCleanup;
      }
    }

    /** The effect body. */
    method Effect()
      requires Timers.Valid(timers)
      modifies this
      ensures Model() == RunEffect(old(Model()))
    {
      if isSphereClicked {
        var p := Set(timers, Timer(Timeout, ResetDelay));
        timers := p.0;
        cleanup := ClearTimer(p.1);
      } else {
        cleanup := NoCleanup;
      }
    }

    /** setIsSphereClicked(b) and the re-render it causes. */
    method SetIsSphereClicked(b: bool)
      requires Timers.Valid(timers)
      modifies this
      ensures Model() == SetSphereClicked(old(Model()), b)
    {
      if b != isSphereClicked {
        isSphereClicked := b;
        CallCleanup();
        Effect();
      }
    }

    /** The flag set to true from outside the component. */
    method Click()
      requires Valid()
      modifies this
      ensures Valid() && Model() == Step(old(Model()), Event.Click)
    {
      if mounted {
        SetIsSphereClicked(true);
      }
    }

    /** The browser fires timeout `h`; if it is live, its callback clears the flag. */
    method Fire(h: Handle)
      requires Valid()
      modifies this
      ensures Valid() && Model() == Step(old(Model()), Event.Fire(h))
    {
      if mounted && h in timers.live {
        timers := AfterFire(timers, h);
        SetIsSphereClicked(false);
      }
    }

    /** Unmount runs the pending cleanup. */
    method Unmount()
      requires Valid()
      modifies this
      ensures Valid() && Model() == Step(old(Model()), Event.Unmount)
    {
      if mounted {
        CallCleanup();
        mounted := false;
      }
    }

    /** The `enabled` prop of the orbit controls. */
    method OrbitControlsEnabled() returns (enabled: bool)
      requires Valid() && mounted
      ensures enabled == ControlsEnabled(Model())
      ensures enabled <==> |timers.live| == 1
    {
      enabled := isSphereClicked;
      ControlsIffPending(Model());
    }
  }
}
