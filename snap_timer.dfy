/** The snap timers of the carousel in script.js. Every snap is armed with
    setTimeout(snapToNearest, SNAP_DELAY) and its handle is kept in the single
    variable snapTimeout; clearTimeout(snapTimeout) cancels only the timer
    whose handle is stored there. A timer whose handle was overwritten while
    it was still pending can no longer be cancelled: it is an orphan. All
    snap timers have the same delay, so they fire in the order they were
    armed, orphans first. */
module SnapTimer {

  datatype Timers = Timers(handleLive: bool, orphans: nat)

  /** No timer pending: the state at page load. */
  const Idle := Timers(false, 0)

  /** Number of snaps still to fire. */
  function Pending(t: Timers): (c: nat)
    ensures c == 0 <==> !t.handleLive && t.orphans == 0
    ensures c >= t.orphans
  {
    t.orphans + if t.handleLive then 1 else 0
  }

  /** clearTimeout(snapTimeout): the stored timer is cancelled, orphans survive. */
  function Clear(t: Timers): (r: Timers)
    ensures !r.handleLive && r.orphans == t.orphans
    ensures Pending(r) == Pending(t) - (if t.handleLive then 1 else 0)
  {
    Timers(false, t.orphans)
  }

  /** snapTimeout = setTimeout(...): one more snap is pending, and a timer
      whose handle was stored becomes an orphan. */
  function Arm(t: Timers): (r: Timers)
    ensures Pending(r) == Pending(t) + 1
    ensures r.orphans == Pending(t)
    ensures r.handleLive
  {
    Timers(true, t.orphans + if t.handleLive then 1 else 0)
  }

  /** The oldest pending snap fires. */
  function Fire(t: Timers): (r: Timers)
    requires Pending(t) > 0
    ensures Pending(r) == Pending(t) - 1
    ensures t.orphans > 0 ==> r.handleLive == t.handleLive && r.orphans == t.orphans - 1
    ensures t.orphans == 0 ==> !r.handleLive && r.orphans == 0
  {
    if t.orphans > 0 then Timers(t.handleLive, t.orphans - 1) else Timers(false, 0)
  }

  /** What the timers see of the carousel's events: a wheel event, a touch
      start, a touch end (of a touch in progress) and the elapse of the snap
      delay. */
  datatype Event = WheelEvent | TouchStartEvent | TouchEndEvent | DelayElapsed

  /** Effect of one event on the timers, as script.js:205-206, 227, 254 write
      it: the touch end arms a snap without clearing the stored one. */
  function StepAsWritten(t: Timers, e: Event): (r: Timers)
    ensures e == TouchEndEvent ==> Pending(r) == Pending(t) + 1
  {
    match e
    case WheelEvent => Arm(Clear(t))
    case TouchStartEvent => Clear(t)
    case TouchEndEvent => Arm(t)
    case DelayElapsed => if Pending(t) > 0 then Fire(t) else t
  }

  /** Effect of one event on the timers, with the touch end clearing the
      stored snap before arming, as the wheel handler does. This is the
      behaviour the carousel controller uses. */
  function Step(t: Timers, e: Event): (r: Timers)
    ensures r.orphans <= t.orphans
    ensures e == WheelEvent ==> Pending(r) == t.orphans + 1
    ensures e == TouchStartEvent ==> Pending(r) == t.orphans
    ensures e == TouchEndEvent ==> Pending(r) == t.orphans + 1
    ensures e == DelayElapsed ==> Pending(r) == if Pending(t) > 0 then Pending(t) - 1 else 0
  {
    match e
    case WheelEvent => Arm(Clear(t))
    case TouchStartEvent => Clear(t)
    case TouchEndEvent => Arm(Clear(t))
    case DelayElapsed => if Pending(t) > 0 then Fire(t) else t
  }

  function RunAsWritten(t: Timers, events: seq<Event>): (r: Timers)
    decreases events
  {
    if events == [] then t else RunAsWritten(StepAsWritten(t, events[0]), events[1..])
  }

  function Run(t: Timers, events: seq<Event>): (r: Timers)
    decreases events
  {
    if events == [] then t else Run(Step(t, events[0]), events[1..])
  }

  /** As written, a wheel event during a touch leaves an orphan snap behind
      the touch end, and the next touch start cannot cancel it: a snap is
      still pending while the finger is down again. */
  lemma TouchStartLeavesStaleSnap()
    ensures Pending(RunAsWritten(Idle, [TouchStartEvent, WheelEvent, TouchEndEvent, TouchStartEvent])) == 1
  {
  }

  /** With the touch end clearing before it arms, no event sequence ever
      creates an orphan, so at most one snap is pending at any time. */
  lemma {:induction false} RunKeepsAtMostOne(t: Timers, events: seq<Event>)
    requires t.orphans == 0
    ensures Run(t, events).orphans == 0
    ensures Pending(Run(t, events)) <= 1
    decreases events
  {
    if events != [] {
      RunKeepsAtMostOne(Step(t, events[0]), events[1..]);
    }
  }

  /** With the touch end clearing before it arms, a touch start cancels every
      pending snap, whatever happened since the page loaded. */
  lemma TouchStartCancelsAll(events: seq<Event>)
    ensures Pending(Step(Run(Idle, events), TouchStartEvent)) == 0
  {
    RunKeepsAtMostOne(Idle, events);
  }
}
