/**
 * The game engine's countdown timer, restricted to what the player controller
 * uses: create, tick by the frame's elapsed time, ask whether it just finished.
 * All durations are whole milliseconds.
 */
module Timing {

  datatype TimerState = TimerState(
    duration: nat,
    elapsed: nat,
    repeating: bool,
    finished: bool,
    timesFinishedThisTick: nat)

  /** Every timer the controller creates has a positive duration. */
  type Timer = t: TimerState | t.duration > 0 witness TimerState(1, 0, false, false, 0)

  /** A timer that has not run yet (`Timer::from_seconds`). */
  function NewTimer(duration: nat, repeating: bool): Timer
    requires duration > 0
  {
    TimerState(duration, 0, repeating, false, 0)
  }

  predicate JustFinished(t: Timer) {
    t.timesFinishedThisTick > 0
  }

  /**
   * Advances the timer by `delta`. A one-shot timer that has already finished
   * stays put; a repeating one keeps only the time past its last whole period.
   */
  function Tick(t: Timer, delta: nat): (r: Timer)
    ensures r.duration == t.duration && r.repeating == t.repeating
    ensures JustFinished(r) <==> (t.repeating || !t.finished) && t.elapsed + delta >= t.duration
    ensures r.finished <==> (!t.repeating && t.finished) || t.elapsed + delta >= t.duration
    ensures t.repeating ==> r.elapsed < r.duration
    ensures t.repeating ==> r.timesFinishedThisTick * t.duration + r.elapsed == t.elapsed + delta
    ensures !t.repeating && t.finished ==> r == t.(timesFinishedThisTick := 0)
    ensures !t.repeating && !t.finished ==>
      r.elapsed == if t.elapsed + delta < t.duration then t.elapsed + delta else t.duration
  {
    if !t.repeating && t.finished then
      t.(timesFinishedThisTick := 0)
    else
      var e := t.elapsed + delta;
      if e < t.duration then
        t.(elapsed := e, finished := false, timesFinishedThisTick := 0)
      else if t.repeating then
        // whole periods are counted and subtracted; what is left is the remainder
        t.(elapsed := e % t.duration, finished := true, timesFinishedThisTick := e / t.duration)
      else
        t.(elapsed := t.duration, finished := true, timesFinishedThisTick := 1)
  }

  /** A one-shot timer reports its completion on one tick only. */
  lemma OneShotFinishesOnce(t: Timer, d1: nat, d2: nat)
    requires !t.repeating && JustFinished(Tick(t, d1))
    ensures !JustFinished(Tick(Tick(t, d1), d2))
  {
  }
}
