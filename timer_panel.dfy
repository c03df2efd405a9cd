/**
 * The countdown timer screen: the `HH:MM:SS` text conversions and the panel's
 * own state (`duration`, `remaining`, `running`, `input`), which talks to the
 * back-end countdown through its commands.
 */
module TimerView {
  import opened Wrappers
  import opened Text
  import opened TimerBackend

  // ================================================================ formatting

  /**
   * `formatTime(secs)` for an integer number of seconds, with JavaScript's
   * arithmetic: `Math.floor` of the quotients and a truncating `%`.
   */
  function FormatTime(secs: int): string {
    var hours := secs / 3600;
    var minutes := TruncRem(secs, 3600) / 60;
    var seconds := TruncRem(secs, 60);
    Field(hours) + ":" + Field(minutes) + ":" + Field(seconds)
  }

  /** JavaScript's `x % y` on numbers: `x - y * trunc(x / y)`. */
  function RealRem(x: real, y: real): real
    requires y > 0.0
  {
    var q := x / y;
    var t := if q >= 0.0 then q.Floor else -((-q).Floor);
    x - y * t as real
  }

  /** `formatTime(t)` for the (possibly fractional) number of seconds the back end reports. */
  function FormatSeconds(t: real): string {
    var hours := (t / 3600.0).Floor;
    var minutes := (RealRem(t, 3600.0) / 60.0).Floor;
    var seconds := RealRem(t, 60.0).Floor;
    Field(hours) + ":" + Field(minutes) + ":" + Field(seconds)
  }

  lemma FloorOfQuotient(t: real, k: nat)
    requires t >= 0.0 && k > 0
    ensures (t / k as real).Floor == t.Floor / k
  {
    var n := t.Floor;
    var q := n / k;
    assert q * k <= n < q * k + k;
    assert (q * k) as real <= t < (q * k + k) as real;
    assert q as real * k as real <= t < (q + 1) as real * k as real;
    assert q as real <= t / k as real < (q + 1) as real;
  }

  lemma RealRemNonNegative(t: real, k: nat)
    requires t >= 0.0 && k > 0
    ensures RealRem(t, k as real) == t - (k * (t.Floor / k)) as real
    ensures RealRem(t, k as real).Floor == t.Floor % k && RealRem(t, k as real) >= 0.0
  {
    FloorOfQuotient(t, k);
    var n := t.Floor;
    var r := t - (k * (n / k)) as real;
    assert n == k * (n / k) + n % k;
    assert (n % k) as real <= r < (n % k) as real + 1.0;
  }

  /** For a non-negative reading, formatting the fractional seconds is formatting their whole part. */
  lemma FormatSecondsFloor(t: real)
    requires t >= 0.0
    ensures FormatSeconds(t) == FormatTime(t.Floor)
  {
    var n := t.Floor;
    assert (t / 3600.0).Floor == n / 3600 by {
      FloorOfQuotient(t, 3600);
    }
    var r := RealRem(t, 3600.0);
    assert r >= 0.0 && r.Floor == n % 3600 by {
      RealRemNonNegative(t, 3600);
    }
    assert (r / 60.0).Floor == (n % 3600) / 60 by {
      FloorOfQuotient(r, 60);
    }
    assert RealRem(t, 60.0).Floor == n % 60 by {
      RealRemNonNegative(t, 60);
    }
  }

  // ================================================================ parsing

  /**
   * `parseTime(str)`: split on `:`, `parseInt` each part; exactly three numeric
   * parts give `h * 3600 + m * 60 + s` (no range check on any field), anything else 0.
   */
  function ParseTime(str: string): int {
    var parts := Split(str, ':');
    if |parts| == 3 then
      match (ParseInt(parts[0]), ParseInt(parts[1]), ParseInt(parts[2]))
      case (Some(h), Some(m), Some(s)) => h * 3600 + m * 60 + s
      case _ => 0
    else 0
  }

  /**
   * For a non-negative count, `formatTime` yields three `:`-separated digit
   * fields, each at least two wide; minutes and seconds are exactly two digits
   * below 60; and the fields add back up to the count.
   */
  lemma FormatTimeShape(secs: nat)
    ensures var parts := Split(FormatTime(secs), ':');
      && |parts| == 3
      && (forall k :: 0 <= k < 3 ==> AllDigits(parts[k]) && |parts[k]| >= 2)
      && |parts[1]| == 2 && |parts[2]| == 2
      && DigitsValue(parts[1]) < 60 && DigitsValue(parts[2]) < 60
      && DigitsValue(parts[0]) * 3600 + DigitsValue(parts[1]) * 60 + DigitsValue(parts[2]) == secs
  {
    var h, m, s := secs / 3600, (secs % 3600) / 60, secs % 60;
    FormatTimeNat(secs);
    FieldDigits(h);
    FieldDigits(m);
    FieldDigits(s);
    SplitThree(Field(h), Field(m), Field(s), ':');
    assert Field(h) + ":" + Field(m) + ":" + Field(s) == Field(h) + [':'] + Field(m) + [':'] + Field(s);
  }

  /** On a non-negative count the fields are the whole hours, the minutes and seconds within the hour. */
  lemma FormatTimeNat(secs: nat)
    ensures FormatTime(secs) == Field(secs / 3600) + ":" + Field((secs % 3600) / 60) + ":" + Field(secs % 60)
    ensures (secs / 3600) * 3600 + ((secs % 3600) / 60) * 60 + secs % 60 == secs
    ensures (secs % 3600) / 60 < 60 && secs % 60 < 60
  {
    assert TruncRem(secs, 3600) == secs % 3600;
    assert TruncRem(secs, 60) == secs % 60;
    assert (secs % 3600) % 60 == secs % 60;
  }

  /** Three non-empty digit strings parse to their weighted sum, whatever their size. */
  lemma ParseTimeDigits(a: string, b: string, c: string)
    requires a != [] && b != [] && c != []
    requires AllDigits(a) && AllDigits(b) && AllDigits(c)
    ensures ParseTime(a + ":" + b + ":" + c) == DigitsValue(a) * 3600 + DigitsValue(b) * 60 + DigitsValue(c)
  {
    NoColon(a);
    NoColon(b);
    NoColon(c);
    assert a + ":" + b + ":" + c == a + [':'] + b + [':'] + c;
    SplitThree(a, b, c, ':');
    ParseIntDigits(a);
    ParseIntDigits(b);
    ParseIntDigits(c);
  }

  lemma NoColon(s: string)
    requires AllDigits(s)
    ensures ':' !in s
  {
  }

  /** The round trip: parsing what `formatTime` prints gives the seconds back, for every non-negative count. */
  lemma ParseFormatRoundTrip(secs: nat)
    ensures ParseTime(FormatTime(secs)) == secs
  {
    var h, m, s := secs / 3600, (secs % 3600) / 60, secs % 60;
    FormatTimeNat(secs);
    FieldDigits(h);
    FieldDigits(m);
    FieldDigits(s);
    ParseTimeDigits(Field(h), Field(m), Field(s));
  }

  /** The panel's initial text is the formatting of its initial duration. */
  lemma InitialInputFormatted()
    ensures FormatTime(3600) == "01:00:00"
  {
    assert NatToString(1) == "1";
    assert NatToString(0) == "0";
    assert Repeat('0', 1) == "0";
  }

  // ================================================================ the panel

  /** The timer screen's state cells, and the back-end countdown its commands drive. */
  class TimerPanel {
    var duration: int
    var remaining: real
    var running: bool
    var input: string
    const backend: TimerState

    ghost predicate Valid()
      reads this, backend
    {
      backend.Valid()
    }

    /** The initial state: one hour configured, nothing remaining shown, stopped, `"01:00:00"` in the field. */
    constructor (backend: TimerState)
      requires backend.Valid()
      ensures this.backend == backend && Valid()
      ensures duration == 3600 && remaining == 0.0 && !running && input == "01:00:00"
      ensures input == FormatTime(duration)
    {
      this.backend := backend;
      duration := 3600;
      remaining := 0.0;
      running := false;
      input := "01:00:00";
      InitialInputFormatted();
    }

    /** `handleInputChange`: always take the text; re-configure the duration only while stopped. */
    method HandleInputChange(val: string)
      modifies this
      ensures input == val && running == old(running)
      ensures old(running) ==> duration == old(duration) && remaining == old(remaining)
      ensures !old(running) ==> duration == ParseTime(val) && remaining == ParseTime(val) as real
    {
      input := val;
      if !running {
        var secs := ParseTime(val);
        duration := secs;
        remaining := secs as real;
      }
    }

    /**
     * `startTimer`: ask the back end for a fresh run of `duration` seconds, then
     * show the full duration and run.  A duration that is not a `u64` makes the
     * command's argument fail to deserialize: the call rejects and nothing changes.
     */
    method StartTimer(now: int)
      requires Valid()
      modifies this, backend
      ensures Valid()
      ensures 0 <= old(duration) <= MaxSeconds ==>
                running && remaining == duration as real && duration == old(duration)
                && backend.duration == duration * NanosPerSecond && backend.running
                && backend.remaining == backend.duration && backend.startTime == Some(now)
      ensures !(0 <= old(duration) <= MaxSeconds) ==>
                running == old(running) && remaining == old(remaining) && duration == old(duration)
                && unchanged(backend)
      ensures input == old(input)
    {
      if 0 <= duration <= MaxSeconds {
        backend.StartTimer(duration, now);
        remaining := duration as real;
        running := true;
      }
    }

    /** `pauseTimer`: stop the back-end clock, then stop. */
    method PauseTimer(now: int)
      requires Valid()
      modifies this, backend
      ensures Valid() && !running && !backend.running
      ensures duration == old(duration) && remaining == old(remaining) && input == old(input)
      ensures backend.duration == old(backend.duration) && backend.startTime == None
      ensures backend.remaining ==
                if old(backend.running) && old(backend.startTime).Some?
                then RemainingAt(backend.duration, old(backend.startTime).value, now)
                else old(backend.remaining)
    {
      backend.PauseTimer(now);
      running := false;
    }

    /** `resetTimer`: reset the back end, show the full duration again, stopped. */
    method ResetTimer()
      modifies this, backend
      ensures Valid() && !running && !backend.running
      ensures remaining == duration as real && input == FormatTime(duration) && duration == old(duration)
      ensures backend.remaining == backend.duration && backend.duration == old(backend.duration)
      ensures backend.startTime == None
    {
      backend.ResetTimer();
      remaining := duration as real;
      input := FormatTime(duration);
      running := false;
    }

    /**
     * One firing of the 100 ms interval: while running, read the back end's
     * remaining time, show it, and stop once it has reached zero.
     */
    method Tick(now: int)
      requires Valid()
      modifies this, backend
      ensures Valid() && duration == old(duration)
      ensures !old(running) ==> unchanged(this) && unchanged(backend)
      ensures old(running) ==>
                remaining == Seconds(backend.remaining)
                && input == FormatTime(backend.remaining / NanosPerSecond)
                && (running <==> backend.remaining > 0)
      ensures old(running) ==> backend.UpdatedAt(now)
      ensures old(running) && old(backend.running) && old(backend.startTime).Some? ==>
                backend.remaining == RemainingAt(old(backend.duration), old(backend.startTime).value, now)
    {
      if !running {
        return;
      }
      var nanos := backend.GetRemaining(now);
      var t := Seconds(nanos);
      SecondsFacts(nanos);
      FormatSecondsFloor(t);
      remaining := t;
      input := FormatSeconds(t);
      if t <= 0.0 {
        running := false;
      }
    }
  }

  /** `Duration::as_secs_f64`, without rounding: a reading in nanoseconds as seconds. */
  function Seconds(nanos: nat): real {
    nanos as real / NanosPerSecond as real
  }

  /** A reading in seconds is non-negative, positive exactly when some nanoseconds remain, and its whole part is the whole seconds. */
  lemma SecondsFacts(nanos: nat)
    ensures Seconds(nanos) >= 0.0
    ensures Seconds(nanos) > 0.0 <==> nanos > 0
    ensures Seconds(nanos).Floor == nanos / NanosPerSecond
  {
    FloorOfQuotient(nanos as real, NanosPerSecond);
  }
}
