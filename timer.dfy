/**
 * The drift-corrected countdown of src/js/timer.js, on integer milliseconds.
 * The wall clock is the parameter `now`; the animation-frame loop is the caller,
 * who may call `Tick(now)` again for as long as `framePending` holds.
 */
module Countdown {

  /**
   * What a tick computes at `now` for a countdown of `duration` started at `startTime`:
   * the time left until the deadline `startTime + duration`, and 0 once it has passed.
   */
  function RemainingAt(duration: int, startTime: int, now: int): (r: int)
    ensures r >= 0
    ensures r == 0 <==> now >= startTime + duration
    ensures r > 0 ==> now + r == startTime + duration
    ensures now >= startTime && duration >= 0 ==> r <= duration
  {
    var elapsed := now - startTime;
    if duration - elapsed > 0 then duration - elapsed else 0
  }

  /** Later ticks never see more time left. */
  lemma RemainingNonIncreasing(duration: int, startTime: int, now1: int, now2: int)
    requires now1 <= now2
    ensures RemainingAt(duration, startTime, now2) <= RemainingAt(duration, startTime, now1)
  {
  }

  /** `getProgress`: 0 for a zero duration, otherwise the fraction of the duration used up. */
  function ProgressOf(duration: int, remaining: int): (p: real)
    ensures duration == 0 ==> p == 0.0
    ensures duration != 0 ==> p * duration as real == (duration - remaining) as real
  {
    if duration == 0 then 0.0 else 1.0 - remaining as real / duration as real
  }

  /** Progress lies in [0, 1] whenever the remaining time lies in [0, duration]. */
  lemma ProgressInUnitInterval(duration: int, remaining: int)
    requires 0 <= remaining <= duration
    ensures 0.0 <= ProgressOf(duration, remaining) <= 1.0
  {
    if duration != 0 {
      var p, d := ProgressOf(duration, remaining), duration as real;
      assert p * d == d - remaining as real;
      SignOfProduct(p, d);
      SignOfProduct(p - 1.0, d);
    }
  }

  /** Multiplying by a positive number keeps the sign. */
  lemma SignOfProduct(x: real, d: real)
    requires d > 0.0
    ensures x * d < 0.0 <==> x < 0.0
    ensures x * d == 0.0 <==> x == 0.0
  {
  }

  /**
   * Between two ticks of one countdown (no resume in between), progress does not go
   * back, and it is exactly 1 once the deadline has passed.
   */
  lemma ProgressMonotone(duration: int, startTime: int, now1: int, now2: int)
    requires duration > 0 && now1 <= now2
    ensures ProgressOf(duration, RemainingAt(duration, startTime, now1))
         <= ProgressOf(duration, RemainingAt(duration, startTime, now2))
    ensures now2 >= startTime + duration ==> ProgressOf(duration, RemainingAt(duration, startTime, now2)) == 1.0
  {
    var r1, r2 := RemainingAt(duration, startTime, now1), RemainingAt(duration, startTime, now2);
    var p1, p2, d := ProgressOf(duration, r1), ProgressOf(duration, r2), duration as real;
    assert (p2 - p1) * d == (r1 - r2) as real;
    SignOfProduct(p2 - p1, d);
    SignOfProduct(p2 - 1.0, d);
  }

  class Timer {
    var duration: int
    var remaining: int
    var startTime: int
    var pausedRemaining: int
    var isPaused: bool
    var isRunning: bool
    /** Whether an animation-frame callback is scheduled (`rafId` set and not yet run). */
    var framePending: bool
    /** How many times `onComplete` has fired. */
    ghost var completions: nat

    /**
     * The timer's invariant: the remaining time is never negative, and positive while
     * the countdown runs; a paused timer is running and has frozen its remaining time;
     * a frame is scheduled exactly while the timer runs unpaused.
     */
    ghost predicate Valid()
      reads this
    {
      0 <= remaining &&
      (isRunning ==> 0 < remaining) &&
      (isPaused ==> isRunning && pausedRemaining == remaining) &&
      (framePending <==> isRunning && !isPaused)
    }

    constructor ()
      ensures Valid()
      ensures duration == 0 && remaining == 0 && startTime == 0 && pausedRemaining == 0
      ensures !isPaused && !isRunning && !framePending && completions == 0
    {
      duration, remaining, startTime, pausedRemaining := 0, 0, 0, 0;
      isPaused, isRunning, framePending := false, false, false;
      completions := 0;
    }

    /**
     * `_tick`: recomputes the remaining time from the absolute timestamps alone, so no
     * error from late or missed frames accumulates. When it reaches 0 the countdown stops,
     * `onComplete` fires once and no further frame is scheduled; otherwise one is.
     */
    method Tick(now: int) returns (completed: bool)
      requires isRunning && !isPaused
      modifies this
      ensures Valid()
      ensures remaining == RemainingAt(duration, startTime, now)
      ensures completed <==> now >= startTime + duration
      ensures isRunning == !completed && framePending == !completed && !isPaused
      ensures completions == old(completions) + (if completed then 1 else 0)
      ensures duration == old(duration) && startTime == old(startTime)
      ensures pausedRemaining == old(pausedRemaining)
    {
      remaining := RemainingAt(duration, startTime, now);
      if remaining <= 0 {
        isRunning := false;
        framePending := false;
        completions := completions + 1;
        completed := true;
        return;
      }
      framePending := true;
      completed := false;
    }

    /**
     * `start(durationMs)`: a fresh countdown of `d` from `now`, followed by one immediate
     * tick, which reads the clock again (`tickNow`) and completes the countdown at once
     * when its deadline has already passed, so always when `d <= 0` and `tickNow >= now`.
     * No frame may still be scheduled: starting over a live loop would leave two loops
     * running.
     */
    method Start(d: int, now: int, tickNow: int) returns (completed: bool)
      requires Valid() && !framePending
      modifies this
      ensures Valid()
      ensures duration == d && startTime == now && !isPaused
      ensures remaining == RemainingAt(d, now, tickNow)
      ensures completed <==> tickNow >= now + d
      ensures tickNow >= now && d <= 0 ==> completed
      ensures tickNow == now ==> (completed <==> d <= 0) && (!completed ==> remaining == d)
      ensures isRunning == !completed && framePending == !completed
      ensures completions == old(completions) + (if completed then 1 else 0)
      ensures pausedRemaining == old(pausedRemaining)
    {
      duration := d;
      remaining := d;
      startTime := now;
      isPaused := false;
      isRunning := true;
      completed := Tick(tickNow);
    }

    /**
     * `pause`: freezes the remaining time of the last tick (not of the present moment)
     * and cancels the scheduled frame; a no-op unless running and unpaused.
     */
    method Pause()
      requires Valid()
      modifies this
      ensures Valid()
      ensures old(isRunning && !isPaused) ==> isPaused && pausedRemaining == old(remaining) && !framePending
      ensures !old(isRunning && !isPaused) ==>
                isPaused == old(isPaused) && pausedRemaining == old(pausedRemaining) && framePending == old(framePending)
      ensures duration == old(duration) && startTime == old(startTime) && remaining == old(remaining)
      ensures isRunning == old(isRunning) && completions == old(completions)
    {
      if !isRunning || isPaused {
        return;
      }
      isPaused := true;
      pausedRemaining := remaining;
      framePending := false;
    }

    /**
     * `resume`: restarts the countdown from `now` with the frozen remainder as its new
     * duration, then ticks at once at `tickNow`, the clock's second reading. When both
     * readings agree the tick sees the frozen value again and does not complete; when the
     * clock has moved past the new deadline it completes and fires `onComplete`.
     * A no-op unless running and paused.
     */
    method Resume(now: int, tickNow: int) returns (completed: bool)
      requires Valid()
      modifies this
      ensures Valid()
      ensures old(isRunning && isPaused) ==>
                !isPaused && startTime == now && duration == old(pausedRemaining) &&
                remaining == RemainingAt(old(pausedRemaining), now, tickNow) &&
                (completed <==> tickNow >= now + old(pausedRemaining)) &&
                isRunning == !completed && framePending == !completed &&
                (tickNow == now ==> !completed && remaining == old(pausedRemaining))
      ensures !old(isRunning && isPaused) ==>
                !completed && isRunning == old(isRunning) &&
                isPaused == old(isPaused) && framePending == old(framePending) &&
                startTime == old(startTime) && duration == old(duration) && remaining == old(remaining)
      ensures pausedRemaining == old(pausedRemaining)
      ensures completions == old(completions) + (if completed then 1 else 0)
    {
      if !isRunning || !isPaused {
        return false;
      }
      isPaused := false;
      startTime := now;
      duration := pausedRemaining;
      remaining := pausedRemaining;
      completed := Tick(tickNow);
    }

    /** `reset`: stops the countdown and cancels its frame; `duration` is left as it was. */
    method Reset()
      requires Valid()
      modifies this
      ensures Valid()
      ensures !isRunning && !isPaused && !framePending && remaining == 0
      ensures duration == old(duration) && startTime == old(startTime)
      ensures pausedRemaining == old(pausedRemaining) && completions == old(completions)
    {
      isRunning := false;
      isPaused := false;
      remaining := 0;
      framePending := false;
    }

    /** `getProgress`, which lies in [0, 1] while the remaining time lies in [0, duration]. */
    function GetProgress(): (p: real)
      reads this
      ensures duration == 0 ==> p == 0.0
      ensures duration != 0 ==> p * duration as real == (duration - remaining) as real
      ensures 0 <= remaining <= duration ==> 0.0 <= p <= 1.0
    {
      if 0 <= remaining <= duration then ProgressInUnitInterval(duration, remaining); ProgressOf(duration, remaining)
      else ProgressOf(duration, remaining)
    }
  }

  /**
   * Resetting twice leaves the timer as resetting once does: `once` is the state after
   * the first reset, and the second reset ends in that same state.
   */
  method ResetTwice(t: Timer) returns (once: (int, int, int, int, bool, bool, bool))
    requires t.Valid()
    modifies t
    ensures once == (old(t.duration), 0, old(t.startTime), old(t.pausedRemaining), false, false, false)
    ensures (t.duration, t.remaining, t.startTime, t.pausedRemaining, t.isPaused, t.isRunning, t.framePending) == once
    ensures t.Valid()
  {
    t.Reset();
    once := (t.duration, t.remaining, t.startTime, t.pausedRemaining, t.isPaused, t.isRunning, t.framePending);
    t.Reset();
  }

  /**
   * A pause followed by a resume, however much later: the resumed countdown has the value
   * the last tick before the pause computed as its duration, and its first tick loses only
   * the time between the resume's two clock readings. When they agree, the remaining time
   * is exactly the frozen value and the countdown is still running.
   */
  method PauseResumeRoundTrip(t: Timer, later: int, tickLater: int) returns (before: int, after: int, completed: bool)
    requires t.Valid() && t.framePending
    modifies t
    ensures before > 0 && t.duration == before && t.startTime == later
    ensures after == t.remaining && after == RemainingAt(before, later, tickLater)
    ensures tickLater == later ==> after == before && !completed && t.isRunning && t.framePending
    ensures t.Valid() && !t.isPaused && t.isRunning == !completed
  {
    before := t.remaining;
    t.Pause();
    completed := t.Resume(later, tickLater);
    after := t.remaining;
  }

  /**
   * Scheduler starvation: a 300000 ms countdown observed by only one early and one late
   * frame still completes exactly once, with no negative remaining time, and then
   * schedules nothing.
   */
  method StarvedCountdown(t0: int) returns (first: bool, second: bool, left: int, pending: bool, ghost fired: nat)
    ensures !first && second && left == 0
    ensures fired == 1 && !pending
  {
    var t := new Timer();
    var done := t.Start(300000, t0, t0);
    first := t.Tick(t0 + 1000);
    second := t.Tick(t0 + 300000 + 250);
    left := t.remaining;
    pending := t.framePending;
    fired := t.completions;
  }

  /** `start(0)` completes on its immediate tick when `tickNow >= now`. */
  method StartZero(now: int, tickNow: int) returns (completed: bool, progress: real)
    requires tickNow >= now
    ensures completed && progress == 0.0
  {
    var t := new Timer();
    completed := t.Start(0, now, tickNow);
    progress := t.GetProgress();
  }
}
