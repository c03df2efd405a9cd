/**
 * The countdown timer kept by the desktop back end.  Durations and instants are
 * whole nanoseconds; the monotonic clock `Instant::now()` is the parameter `now`
 * of every operation that reads it.
 */
module TimerBackend {
  import opened Wrappers

  const NanosPerSecond: nat := 1_000_000_000

  /** The largest `u64`, the type of the `seconds` argument of `start_timer`. */
  const MaxSeconds: nat := 0xFFFF_FFFF_FFFF_FFFF

  /** `start.elapsed()` read at `now`: saturates at zero for a clock reading before `start`. */
  function Elapsed(start: int, now: int): nat {
    if now >= start then now - start else 0
  }

  /** What `update_remaining` leaves in `remaining` for a running countdown of `duration` started at `start`. */
  function RemainingAt(duration: nat, start: int, now: int): nat {
    var e := Elapsed(start, now);
    if e >= duration then 0 else duration - e
  }

  /** `remaining` never exceeds the duration, and is zero exactly when the elapsed time has reached it. */
  lemma RemainingBounds(duration: nat, start: int, now: int)
    ensures RemainingAt(duration, start, now) <= duration
    ensures RemainingAt(duration, start, now) == 0 <==> Elapsed(start, now) >= duration
    ensures Elapsed(start, now) < duration ==> RemainingAt(duration, start, now) + Elapsed(start, now) == duration
  {
  }

  /** The countdown only goes down as the clock advances. */
  lemma RemainingMonotone(duration: nat, start: int, now: int, later: int)
    requires now <= later
    ensures RemainingAt(duration, start, later) <= RemainingAt(duration, start, now)
  {
  }

  /** `TimerState`: the configured duration, when the current run started, what is left, and whether it runs. */
  class TimerState {
    var duration: nat
    var startTime: Option<int>
    var remaining: nat
    var running: bool

    /** The invariant every operation keeps: never more left than was configured. */
    predicate Valid()
      reads this
    {
      remaining <= duration
    }

    /** A start time is recorded exactly while the timer runs. */
    predicate Consistent()
      reads this
    {
      running <==> startTime.Some?
    }

    /** `TimerState::new`. */
    constructor ()
      ensures duration == 0 && startTime == None && remaining == 0 && !running
      ensures Valid() && Consistent()
    {
      duration := 0;
      startTime := None;
      remaining := 0;
      running := false;
    }

    /**
     * The whole effect of `update_remaining` at `now`: nothing unless running
     * with a start time; otherwise `remaining` is brought up to date, and the
     * run ends (stopped, no start time) once the duration has elapsed.
     */
    twostate predicate UpdatedAt(now: int)
      reads this
    {
      && duration == old(duration)
      && if old(running) && old(startTime).Some? then
           && remaining == RemainingAt(duration, old(startTime).value, now)
           && if Elapsed(old(startTime).value, now) >= duration then !running && startTime == None
              else running && startTime == old(startTime)
         else remaining == old(remaining) && running == old(running) && startTime == old(startTime)
    }

    /** `update_remaining`: bring `remaining` up to date; stop the timer once the duration has elapsed. */
    method UpdateRemaining(now: int)
      requires Valid()
      modifies this
      ensures Valid() && (old(Consistent()) ==> Consistent())
      ensures duration == old(duration)
      ensures !old(running) || old(startTime).None? ==>
                remaining == old(remaining) && running == old(running) && startTime == old(startTime)
      ensures old(running) && old(startTime).Some? ==>
                remaining == RemainingAt(duration, old(startTime).value, now)
      ensures old(running) && old(startTime).Some? && Elapsed(old(startTime).value, now) >= duration ==>
                remaining == 0 && !running && startTime == None
      ensures old(running) && old(startTime).Some? && Elapsed(old(startTime).value, now) < duration ==>
                0 < remaining <= duration && running && startTime == old(startTime)
      ensures UpdatedAt(now)
    {
      if running {
        match startTime {
          case Some(start) =>
            var elapsed := Elapsed(start, now);
            if elapsed >= duration {
              remaining := 0;
              running := false;
              startTime := None;
            } else {
              remaining := duration - elapsed;
            }
          case None =>
        }
      }
    }

    /** `start_timer(seconds)`: a fresh run of `seconds` seconds from `now`. */
    method StartTimer(seconds: nat, now: int)
      requires seconds <= MaxSeconds
      modifies this
      ensures duration == seconds * NanosPerSecond && remaining == duration
      ensures startTime == Some(now) && running
      ensures Valid() && Consistent()
    {
      duration := seconds * NanosPerSecond;
      remaining := duration;
      startTime := Some(now);
      running := true;
    }

    /** `pause_timer`: bring `remaining` up to date, then stop the clock. */
    method PauseTimer(now: int)
      requires Valid()
      modifies this
      ensures !running && startTime == None && duration == old(duration)
      ensures remaining == if old(running) && old(startTime).Some? then RemainingAt(duration, old(startTime).value, now) else old(remaining)
      ensures Valid() && Consistent()
    {
      UpdateRemaining(now);
      running := false;
      startTime := None;
    }

    /** `reset_timer`: back to the full duration, stopped. */
    method ResetTimer()
      modifies this
      ensures remaining == duration && duration == old(duration)
      ensures !running && startTime == None
      ensures Valid() && Consistent()
    {
      startTime := None;
      remaining := duration;
      running := false;
    }

    /**
     * `get_remaining`: bring `remaining` up to date and report it (in nanoseconds;
     * the command converts it to `f64` seconds).
     */
    method GetRemaining(now: int) returns (nanos: nat)
      requires Valid()
      modifies this
      ensures nanos == remaining && Valid() && duration == old(duration)
      ensures old(Consistent()) ==> Consistent()
      ensures old(running) && old(startTime).Some? ==> nanos == RemainingAt(duration, old(startTime).value, now)
      ensures !old(running) || old(startTime).None? ==> nanos == old(remaining) && running == old(running)
      ensures running ==> old(running) && startTime == old(startTime)
      ensures UpdatedAt(now)
    {
      UpdateRemaining(now);
      nanos := remaining;
    }
  }

  /** Reading the timer twice at the same instant gives the same answer the second time. */
  method RereadIsStable(t: TimerState, now: int) returns (first: nat, second: nat)
    requires t.Valid()
    modifies t
    ensures first == second
  {
    first := t.GetRemaining(now);
    second := t.GetRemaining(now);
  }
}
