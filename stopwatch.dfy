/**
 * The stopwatch screen: a millisecond count advanced by a 10 ms interval while
 * running on the stopwatch screen, shown as `MM:SS:CC`.
 */
module StopwatchView {
  import opened Text
  import opened Modes

  /** The display fields `formatTime(ms)` computes: whole minutes, seconds within the minute, centiseconds. */
  datatype Fields = Fields(minutes: nat, seconds: nat, centis: nat)

  function FieldsOf(ms: nat): (f: Fields)
    ensures f.seconds < 60 && f.centis < 100
    ensures ms == f.minutes * 60000 + f.seconds * 1000 + f.centis * 10 + ms % 10
  {
    Decompose(ms);
    Fields(ms / 60000, (ms % 60000) / 1000, (ms % 1000) / 10)
  }

  lemma Decompose(ms: nat)
    ensures (ms % 60000) / 1000 < 60 && (ms % 1000) / 10 < 100
    ensures ms == (ms / 60000) * 60000 + ((ms % 60000) / 1000) * 1000 + ((ms % 1000) / 10) * 10 + ms % 10
  {
    var m, r := ms / 60000, ms % 60000;
    var s, r2 := r / 1000, r % 1000;
    DivModUnique(ms, 1000, m * 60 + s, r2);
    var c, d := r2 / 10, r2 % 10;
    DivModUnique(ms, 10, (m * 60 + s) * 100 + c, d);
  }

  lemma MulAtLeast(a: int, k: int)
    requires a >= 1 && k > 0
    ensures a * k >= k
  {
    assert a * k == (a - 1) * k + k;
  }

  /** Quotient and remainder are the only ones: `n == q * k + r` with `0 <= r < k` fixes `n / k` and `n % k`. */
  lemma DivModUnique(n: int, k: int, q: int, r: int)
    requires k > 0 && n == q * k + r && 0 <= r < k
    ensures n / k == q && n % k == r
  {
    var q', r' := n / k, n % k;
    assert (q - q') * k == r' - r;
    if q > q' {
      MulAtLeast(q - q', k);
    } else if q < q' {
      MulAtLeast(q' - q, k);
    }
  }

  /** `formatTime(ms)`: each field `String(x).padStart(2, "0")`, joined by `:`. */
  function FormatTime(ms: nat): string {
    var f := FieldsOf(ms);
    Field(f.minutes) + ":" + Field(f.seconds) + ":" + Field(f.centis)
  }

  /** The fields are a function of the elapsed hundredths of a second alone. */
  lemma FieldsOfCentis(ms: nat)
    ensures var c := ms / 10;
      FieldsOf(ms) == Fields(c / 6000, (c % 6000) / 100, c % 100)
  {
    var c := ms / 10;
    var f := FieldsOf(ms);
    var low := f.seconds * 100 + f.centis;
    assert c == f.minutes * 6000 + low by {
      DivModUnique(ms, 10, f.minutes * 6000 + low, ms % 10);
    }
    assert c / 6000 == f.minutes && c % 6000 == low by {
      DivModUnique(c, 6000, f.minutes, low);
    }
    assert (c % 6000) / 100 == f.seconds by {
      DivModUnique(low, 100, f.seconds, f.centis);
    }
    assert c % 100 == f.centis by {
      DivModUnique(c, 100, f.minutes * 60 + f.seconds, f.centis);
    }
  }

  /** The display splits into minutes (at least two digits, unbounded) and two-digit seconds and centiseconds. */
  lemma FormatTimeShape(ms: nat)
    ensures var parts := Split(FormatTime(ms), ':');
      var f := FieldsOf(ms);
      && parts == [Field(f.minutes), Field(f.seconds), Field(f.centis)]
      && |parts[0]| >= 2 && |parts[1]| == 2 && |parts[2]| == 2
      && AllDigits(parts[0]) && AllDigits(parts[1]) && AllDigits(parts[2])
      && DigitsValue(parts[0]) == f.minutes && DigitsValue(parts[1]) == f.seconds && DigitsValue(parts[2]) == f.centis
  {
    var f := FieldsOf(ms);
    FieldDigits(f.minutes);
    FieldDigits(f.seconds);
    FieldDigits(f.centis);
    assert |Field(f.seconds)| == 2 && |Field(f.centis)| == 2;
    assert FormatTime(ms) == Field(f.minutes) + [':'] + Field(f.seconds) + [':'] + Field(f.centis);
    SplitThree(Field(f.minutes), Field(f.seconds), Field(f.centis), ':');
  }

  /** Two counts look the same exactly when they agree on the hundredths: the display drops only the last millisecond digit. */
  lemma FormatTimeSameIff(a: nat, b: nat)
    ensures FormatTime(a) == FormatTime(b) <==> a / 10 == b / 10
  {
    FieldsOfCentis(a);
    FieldsOfCentis(b);
    if FormatTime(a) == FormatTime(b) {
      FormatTimeShape(a);
      FormatTimeShape(b);
      var fa, fb := FieldsOf(a), FieldsOf(b);
      assert fa == fb;
      assert a / 10 == fa.minutes * 6000 + fa.seconds * 100 + fa.centis;
      assert b / 10 == fb.minutes * 6000 + fb.seconds * 100 + fb.centis;
    }
  }

  /** The stopwatch's state cells. */
  class StopwatchPanel {
    var timeMs: nat
    var running: bool

    constructor ()
      ensures timeMs == 0 && !running
    {
      timeMs := 0;
      running := false;
    }

    /** `resetStopwatch`. */
    method Reset()
      modifies this
      ensures timeMs == 0 && !running
    {
      timeMs := 0;
      running := false;
    }

    /** The play/pause button: flip `running`, keep the count. */
    method Toggle()
      modifies this
      ensures running == !old(running) && timeMs == old(timeMs)
    {
      running := !running;
    }

    /**
     * One firing of the 10 ms interval.  The interval exists only while the
     * screen is the stopwatch and the stopwatch runs; then it adds exactly 10.
     */
    method Tick(mode: Mode)
      modifies this
      ensures running == old(running)
      ensures timeMs == old(timeMs) + (if running && mode == Stopwatch then 10 else 0)
      ensures timeMs >= old(timeMs)
    {
      if mode == Stopwatch && running {
        timeMs := timeMs + 10;
      }
    }
  }
}
