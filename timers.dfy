/** The browser's timer table, as far as the components use it: setTimeout,
    setInterval, clearTimeout and clearInterval. Handles are positive integers
    handed out in increasing order, so a live handle is always truthy; clearing
    a handle that is no longer live does nothing. The table is a value that a
    component keeps in a field and reassigns. */
module Timers {

  /** A timer handle; 0 is never handed out, so it can play `null`. */
  type Handle = nat

  datatype Kind = Timeout | Interval

  /** A registered timer: one-shot or recurring, and its delay in milliseconds. */
  datatype Timer = Timer(kind: Kind, delay: nat)

  /** The live timers by handle, and the handle the next registration gets. */
  datatype Table = Table(live: map<Handle, Timer>, next: Handle)

  /** Every live handle was handed out earlier, and none of them is 0. */
  predicate Valid(t: Table)
  {
    1 <= t.next && forall h | h in t.live :: 1 <= h < t.next
  }

  /** No timer registered yet. */
  const Empty: Table := Table(map[], 1)

  /** setTimeout / setInterval: register `timer` under a handle never used before.
      Every handle handed out so far is below `t.next`, and the counter moves past
      the new one, so no later call hands it out again. */
  function Set(t: Table, timer: Timer): (r: (Table, Handle))
    requires Valid(t)
    ensures Valid(r.0)
    ensures 1 <= r.1 && r.1 !in t.live && t.next <= r.1 < r.0.next
    ensures r.0.live.Keys == t.live.Keys + {r.1} && r.0.live[r.1] == timer
    ensures forall h | h in t.live :: r.0.live[h] == t.live[h]
  {
    (Table(t.live[t.next := timer], t.next + 1), t.next)
  }

  /** clearTimeout / clearInterval: `h` is no longer live, every other timer stays. */
  function Clear(t: Table, h: Handle): (r: Table)
    ensures Valid(t) ==> Valid(r)
    ensures h !in r.live && r.live.Keys == t.live.Keys - {h}
    ensures forall k | k in r.live :: r.live[k] == t.live[k]
    ensures r.next == t.next
  {
    Table(t.live - {h}, t.next)
  }

  /** What firing `h` does to the table: a timeout is used up, an interval stays live. */
  function AfterFire(t: Table, h: Handle): (r: Table)
    requires h in t.live
    ensures Valid(t) ==> Valid(r)
    ensures t.live[h].kind == Interval ==> r == t
    ensures t.live[h].kind == Timeout ==> r.live == t.live - {h} && r.next == t.next
  {
    if t.live[h].kind == Timeout then Clear(t, h) else t
  }

  /** Clearing the handle just registered restores the previous live timers. */
  lemma SetThenClear(t: Table, timer: Timer)
    requires Valid(t)
    ensures Clear(Set(t, timer).0, Set(t, timer).1).live == t.live
  {
  }

  /** Clearing a handle that is not live leaves the table as it was. */
  lemma ClearIdle(t: Table, h: Handle)
    requires h !in t.live
    ensures Clear(t, h) == t
  {
  }
}
