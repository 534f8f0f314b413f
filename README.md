# Portfolio UI state machines in Dafny

A model of the stateful part of a single-page portfolio site. Apart from static
content and layout, the site has three small state machines, driven by timers and
browser events:

- **Skills carousel** (`skills.dfy`, module `Skills`): an index into the list of
  skill categories, an autoplay flag, and a ref holding the handle of a 5000 ms
  interval. The arrow buttons move the index with wrap-around and the pause/play
  button flips autoplay. The interval effect depends on autoplay only: its cleanup
  clears the current interval, and it starts a new one while autoplay is on.
- **Hero delayed reset** (`hero.dfy`, module `Hero`): a flag that enables the orbit
  controls of the 3-D sphere. While the flag is true, a one-shot 5000 ms timeout is
  pending, and when it fires it sets the flag back to false. The effect's cleanup
  cancels that timeout.
- **Navigation bar** (`navigation.dfy`, module `Navigation`): whether the mobile
  menu is open, and whether the window is scrolled past 50 pixels. One scroll
  listener is added on mount and removed on unmount, and choosing a section
  closes the menu.

`timers.dfy` (module `Timers`) holds the browser's timer table as a value:
`setTimeout`/`setInterval` hand out fresh positive handles, `clearTimeout`/`clearInterval`
drop a handle and ignore one that is not live, and a firing timeout is used up
while an interval stays.

Each component has the same shape:
- A `State` datatype and an `Event` datatype.
- `Step` and `Run` functions, and an invariant `Inv` that `Step` and `Run` are
  proved to preserve.
- Lemmas for the component's properties.
- A class with the component's own fields. Each event method is proved to change
  the fields exactly as `Step` says (`Model() == Step(old(Model()), e)`). Each
  method for a piece of an event (an effect, a cleanup, a state setter) is proved
  against the function for that piece (`RunEffect`, `ClearRef`, `RunCleanup`,
  `SetSphereClicked`). The methods that read a value (`CurrentTitle`,
  `OrbitControlsEnabled`, `Background`) change nothing.

An event is a handler together with the re-render and effect flush it causes. When
a hook's dependency changes, the previous effect's cleanup runs first and then the
effect. When a state update sets the value the state already has, nothing happens.
The browser may fire any live timer at any step. A cleared timer never fires.

Two behaviours of the carousel are easy to get wrong, and the model keeps them as
the code has them:
- Manual next/previous do **not** cancel and reschedule the autoplay interval. The
  effect depends on `autoScroll` alone (`Skills.ManualLeavesTimer`).
- The tick does not check the autoplay flag. An interval that autoplay turned off
  has already been cleared, so it never fires (`Skills.PausedOnlyManual`).

## Model

| member | source | states |
|---|---|---|
| Timers.Set | src/components/Skills.tsx:73 | registering a timer yields a positive handle never handed out before (at or above the counter, which moves past it); the new table has exactly the old timers plus this one |
| Timers.Clear | src/components/Skills.tsx:75-79 | clearing removes exactly that handle and keeps every other timer; the handle counter is unchanged |
| Timers.AfterFire | src/components/Hero.tsx:27 | a firing timeout is used up and every other timer and the counter stay as they were; a firing interval leaves the table unchanged |
| Timers.SetThenClear | src/components/Hero.tsx:27-28 | clearing the handle just registered restores the previous live timers |
| Timers.ClearIdle | src/components/Skills.tsx:75 | clearing a handle that is no longer live (the effect's else branch after the cleanup) changes nothing |
| Skills.NextIndex | src/components/Skills.tsx:57-59 | the next index is in `[0, n)`; the last index wraps to 0 and any other index increases by one |
| Skills.HandleNext | src/components/Skills.tsx:57-59 | the next button changes only the index, which stays in `[0, n)`, increases by one, and wraps from the last index to 0 |
| Skills.HandlePrev | src/components/Skills.tsx:61-65 | the previous button changes only the index; for an index in range it stays in range and becomes `(i + n - 1) mod n` |
| Skills.ToggleAutoScroll | src/components/Skills.tsx:67-80 | the flag flips and index and lifecycle stay; the old ref is cleared first; turning on adds one fresh 5000 ms interval to the remaining timers, turning off leaves only the remaining ones and the stale handle in the ref; nothing else changes |
| Skills.PrevIndex | src/components/Skills.tsx:61-65 | for an index in range, the previous index is in range and equals `(i + n - 1) mod n`, so 0 maps to n-1 |
| Skills.ClearRef | src/components/Skills.tsx:75-79 | `if (intervalRef.current) clearInterval(...)` drops the handle in the ref from the live timers; every other timer, the counter and all other fields stay |
| Skills.RunEffect | src/components/Skills.tsx:71-77 | with autoplay on, the ref gets a new handle, not live before, and the live timers become the old ones plus a 5000 ms interval under it; with autoplay off, the effect is exactly the guarded clear of the ref; nothing but the ref and the timers changes |
| Skills.Mount | src/components/Skills.tsx:53-55 | initially `current = 0` and `autoScroll = true`, and mounting leaves exactly one live 5000 ms interval, the one in the ref |
| Skills.Step | src/components/Skills.tsx:57-81 | every event keeps the index in range and leaves one live 5000 ms interval (the ref's) while mounted with autoplay on, and none otherwise |
| Skills.Run | src/components/Skills.tsx:71-81 | the invariant holds after any sequence of events |
| Skills.NextPrevInverse | src/components/Skills.tsx:57-65 | next then previous, and previous then next, return to the starting index |
| Skills.NextPrevRoundTrip | src/components/Skills.tsx:57-65 | the same round trip on the whole state, whatever the autoplay setting, timer included |
| Skills.ManualLeavesTimer | src/components/Skills.tsx:81 | a manual next or previous changes only the index: autoplay, the ref and the live interval are untouched (no reset) |
| Skills.TickIsNext | src/components/Skills.tsx:58 | a tick of the live interval has exactly the effect of the next button on the current index |
| Skills.ToggleFlips | src/components/Skills.tsx:67-80 | toggling flips autoplay and keeps the index; turning it on starts one interval under a handle never handed out before (so not the old ref), turning it off leaves none live |
| Skills.ToggleTwice | src/components/Skills.tsx:67-80 | toggling twice restores autoplay and the index and leaves as many live intervals as before; a running interval is replaced by one under a new handle |
| Skills.CleanupClearsBeforeEffect | src/components/Skills.tsx:78-80 | once the cleanup has run, no interval is live, before the effect decides anything |
| Skills.AtMostOneInterval | src/components/Skills.tsx:71-81 | after any sequence of events at most one interval is live, and none while autoplay is off |
| Skills.PausedOnlyManual | src/components/Skills.tsx:74-76 | while autoplay is off and not turned back on, no interval is live and the index is exactly what the arrow buttons alone give; ticks change nothing |
| Skills.UnmountedStays | src/components/Skills.tsx:78-80 | after unmount no interval is live and no event changes anything |
| Skills.UnmountClears | src/components/Skills.tsx:78-80 | unmounting clears the live interval |
| Skills.TicksAdvance | src/components/Skills.tsx:73 | with autoplay on, k ticks move the index from i to `(i + k) mod n` |
| Skills.ViewIndependent | src/components/Skills.tsx:7-10 | the carousel state after any events depends neither on the reveal flag's initial value nor on its changes |
| Skills.ShownTitle | src/components/Skills.tsx:115 | `skillCategories[current]` is in range, so the title shown is one of the categories |
| Skills.FourCategories | src/components/Skills.tsx:12-29 | with four categories: three nexts reach index 3, a fourth wraps to 0, and previous from 0 gives 3 |
| Skills.Carousel.constructor | src/components/Skills.tsx:53-55 | the fields after mount are the state `Mount(n)` |
| Skills.Carousel.ClearIntervalRef | src/components/Skills.tsx:79 | the fields change as `ClearRef` says |
| Skills.Carousel.Effect | src/components/Skills.tsx:71-77 | the fields change as `RunEffect` says |
| Skills.Carousel.HandleNext | src/components/Skills.tsx:57-59 | the fields change as `Step` says for the next button, and the invariant is kept |
| Skills.Carousel.HandlePrev | src/components/Skills.tsx:61-65 | the fields change as `Step` says for the previous button, and the invariant is kept |
| Skills.Carousel.ToggleAutoScroll | src/components/Skills.tsx:67-69 | flip, then cleanup, then effect; the fields change as `Step` says, and the invariant is kept |
| Skills.Carousel.Tick | src/components/Skills.tsx:73 | a live interval's callback runs handleNext; the fields change as `Step` says |
| Skills.Carousel.SetInView | src/components/Skills.tsx:7 | only the reveal flag changes |
| Skills.Carousel.Unmount | src/components/Skills.tsx:78-80 | the cleanup runs on unmount; the fields change as `Step` says |
| Skills.Carousel.CurrentTitle | src/components/Skills.tsx:115 | reading `skillCategories[current]` is in range and gives the shown title |
| Hero.RunCleanup | src/components/Hero.tsx:28 | the cleanup clears exactly the timeout its effect scheduled, if any; every other timer and the counter stay |
| Hero.RunEffect | src/components/Hero.tsx:25-29 | only while the flag is true does the effect schedule a timeout under a new handle and return its cleanup: the live timers become the old ones plus a 5000 ms timeout under that handle; otherwise the timers stay unchanged |
| Hero.SetSphereClicked | src/components/Hero.tsx:22-30 | the flag becomes `b`; the same value changes nothing; a change to false runs the cleanup and schedules nothing; a change to true runs the cleanup, then schedules one fresh 5000 ms timeout and keeps its cleanup |
| Hero.Mount | src/components/Hero.tsx:22 | starts with the flag false and no timeout pending |
| Hero.Step | src/components/Hero.tsx:22-30 | every event keeps the invariant: while mounted with the flag true, exactly one 5000 ms timeout is pending and the cleanup holds it; otherwise none |
| Hero.Run | src/components/Hero.tsx:25-30 | the invariant holds after any sequence of events |
| Hero.ControlsEnabled | src/components/Hero.tsx:143 | for a mounted component in a reachable state, the controls are enabled exactly when a timeout is pending |
| Hero.ControlsIffPending | src/components/Hero.tsx:143 | the orbit controls are enabled if and only if a reset timeout is pending, and it is a 5000 ms timeout |
| Hero.ClickArms | src/components/Hero.tsx:26-27 | setting the flag true schedules exactly one 5000 ms timeout under a handle never handed out before |
| Hero.ClickWhileArmed | src/components/Hero.tsx:30 | setting the flag true while it is true changes nothing; the pending timeout is not pushed back |
| Hero.RepeatedClicks | src/components/Hero.tsx:30 | any number of further sets to true leave the state as it was |
| Hero.FireResets | src/components/Hero.tsx:27 | the pending timeout firing sets the flag false and leaves nothing pending |
| Hero.ResetIsUnconditional | src/components/Hero.tsx:27 | after any number of intervening clicks, the first click's timeout still fires and disables the controls |
| Hero.ArmedUntilFire | src/components/Hero.tsx:25-27 | until its timeout fires or the component unmounts, the set flag and its timeout stay as they are |
| Hero.CleanupCancels | src/components/Hero.tsx:28 | when the flag changes, the cleanup cancels the pending timeout before a new one can be scheduled |
| Hero.UnmountCancels | src/components/Hero.tsx:28-30 | after unmount nothing is pending and no event changes anything |
| Hero.UnmountClears | src/components/Hero.tsx:28 | unmounting a mounted component runs the cleanup: the pending timeout is cleared, nothing is left pending, and the component is unmounted |
| Hero.AtMostOneTimeout | src/components/Hero.tsx:25-30 | after any sequence of events at most one timeout is pending, and none while the flag is false |
| Hero.HeroSection.constructor | src/components/Hero.tsx:22 | the fields after mount are the state `Mount()` |
| Hero.HeroSection.CallCleanup | src/components/Hero.tsx:28 | the fields change as `RunCleanup` says |
| Hero.HeroSection.Effect | src/components/Hero.tsx:25-29 | the fields change as `RunEffect` says |
| Hero.HeroSection.SetIsSphereClicked | src/components/Hero.tsx:22 | a new value re-renders: cleanup, then effect; the same value changes nothing |
| Hero.HeroSection.Click | src/components/Hero.tsx:22 | an outside set to true; the fields change as `Step` says, and the invariant is kept |
| Hero.HeroSection.Fire | src/components/Hero.tsx:27 | a live timeout's callback clears the flag; the fields change as `Step` says |
| Hero.HeroSection.Unmount | src/components/Hero.tsx:28 | the pending cleanup runs on unmount |
| Hero.HeroSection.OrbitControlsEnabled | src/components/Hero.tsx:143 | the `enabled` prop is the flag, true exactly while a reset timeout is pending |
| Navigation.Mount | src/components/Navigation.tsx:7-15 | starts with the menu closed and `scrolled` false, and exactly one scroll listener is registered |
| Navigation.Step | src/components/Navigation.tsx:11-35 | every event keeps exactly one scroll listener while mounted and none afterwards |
| Navigation.Run | src/components/Navigation.tsx:11-17 | the listener invariant holds after any sequence of events |
| Navigation.IsScrolled | src/components/Navigation.tsx:13 | the test `window.scrollY > 50` itself; what it means (strict, 50 not scrolled, 51 scrolled, monotone) is proved by `Navigation.ThresholdIsStrict` and `Navigation.ScrollSetsScrolled` |
| Navigation.NavBackground | src/components/Navigation.tsx:41-45 | the class expression itself; that it depends on `scrolled` alone and is transparent exactly when not scrolled is proved by `Navigation.NavBar.Background` and `Navigation.ScrollSetsScrolled` |
| Navigation.ThresholdIsStrict | src/components/Navigation.tsx:13 | the test is strict (50 is not scrolled, 51 is) and monotone in the offset |
| Navigation.ScrollSetsScrolled | src/components/Navigation.tsx:12-13 | after a scroll, `scrolled` is true if and only if `scrollY > 50`, and the background is the frosted one exactly then; the menu and listener are unchanged |
| Navigation.MenuButtonFlips | src/components/Navigation.tsx:90 | the menu button flips `isOpen` and changes nothing else; two presses undo each other |
| Navigation.NavItemCloses | src/components/Navigation.tsx:29-35 | choosing a section leaves the menu closed and changes nothing else, whether or not the target element exists |
| Navigation.LastScrollDecides | src/components/Navigation.tsx:11-15 | while mounted, `scrolled` after any events is the test applied to the last scroll offset, or unchanged if there was no scroll |
| Navigation.MenuParity | src/components/Navigation.tsx:90 | without section clicks or an unmount, the menu is open afterwards exactly when it was open before XOR the number of button presses is odd |
| Navigation.UnmountedIgnoresEvents | src/components/Navigation.tsx:16 | after unmount no listener is left and no scroll or other event changes anything |
| Navigation.UnmountRemovesListener | src/components/Navigation.tsx:15-16 | unmounting removes the one registered listener |
| Navigation.NavBar.constructor | src/components/Navigation.tsx:7-15 | the fields after mount are the state `Mount()` |
| Navigation.NavBar.OnScroll | src/components/Navigation.tsx:12-14 | the registered listener sets `scrolled`; the fields change as `Step` says |
| Navigation.NavBar.ToggleMenu | src/components/Navigation.tsx:90 | the fields change as `Step` says for the menu button |
| Navigation.NavBar.ScrollToSection | src/components/Navigation.tsx:29-35 | the fields change as `Step` says: the menu closes |
| Navigation.NavBar.Unmount | src/components/Navigation.tsx:16 | removing the listener; the fields change as `Step` says |
| Navigation.NavBar.Background | src/components/Navigation.tsx:41-45 | the bar's background classes depend on `scrolled` alone, and they are transparent exactly when it is false |

## Left out

- The theme controller (persisted preference, fallback to the operating system's
  preference, toggling): `src/contexts/ThemeContext` is not part of this model.
  The navigation bar only reads `isDark` and calls `toggleTheme`, so both are left out.
- Reveal-on-scroll (`useInView` with `triggerOnce` in every section): its once-only
  behaviour lives inside the react-intersection-observer library. The carousel keeps
  the resulting `inView` flag as a value set from outside, so that its independence
  can be proved.
- Time itself: each timer records its delay (5000 ms), but the model has no clock.
  The browser may fire any live timer at any step, so "fires 5000 ms later" is
  recorded, not proved.
- React's scheduling: an event's state update, the re-render and the effect flush
  form one step. A timer firing between a state update and its effect flush, and
  several updates batched into one render, are not modelled.
- The browser has one timer table. The model gives each component its own table.
  This rests on an assumption about browsers: they hand out increasing handles
  and never reuse one, so clearing a stale handle cannot hit another component's
  timer. The HTML standard only asks for a handle that is not currently active.
- `scrollY` is an integer in the model. Browsers can report fractional offsets.
- The scrolling itself (`scrollIntoView`, `window.scrollTo`), the `document.querySelector`
  lookup (its outcome is a parameter), the footer's `new Date()`, framer-motion
  variants and durations, the three.js sphere, and the `Math.random` particles:
  these are rendering and browser I/O.
- The static content arrays and the JSX layout of every section. Only the number of
  skill categories matters, and only the titles are kept.
- A reset of the autoplay timer on manual navigation: the code does not do it, so
  the model does not either.
