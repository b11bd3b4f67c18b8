/** The texts the scheduler derives its claim keys from: the month of an instant and the window that holds it. */
module Stamps {
  import opened GoTime
  import opened Text
  import Calendar
  import opened WireMoney

  // -- numbers ------------------------------------------------------------------

  function Padded(s: string, width: nat): string
    decreases width - |s|
  {
    if |s| >= width then s else Padded("0" + s, width)
  }

  /** A year in at least four digits, with its sign when negative. */
  function YearText(year: int): string {
    if year < 0 then "-" + Padded(Itoa(-year), 4) else Padded(Itoa(year), 4)
  }

  lemma {:induction false} ZeroAddsNothing(s: string)
    requires Digits(s)
    ensures Digits("0" + s) && Value("0" + s) == Value(s)
  {
    if s == "" {
      assert "0" + s == "0" && "0"[..0] == "";
    } else {
      var w := "0" + s;
      assert w[..|w| - 1] == "0" + s[..|s| - 1];
      ZeroAddsNothing(s[..|s| - 1]);
    }
  }

  lemma {:induction false} PaddedIs(s: string, width: nat)
    requires Digits(s) && s != ""
    ensures Digits(Padded(s, width)) && Padded(s, width) != "" && Value(Padded(s, width)) == Value(s)
    decreases width - |s|
  {
    if |s| < width {
      ZeroAddsNothing(s);
      PaddedIs("0" + s, width);
    }
  }

  lemma YearTextIs(year: int)
    ensures var t := YearText(year);
            && t != "" && (t[0] == '-' <==> year < 0)
            && var digits := if year < 0 then t[1..] else t;
               Digits(digits) && Value(digits) == if year < 0 then -year else year
  {
    hide Padded, Itoa, Value;
    var v := if year < 0 then -year else year;
    ItoaIs(v);
    PaddedIs(Itoa(v), 4);
    assert ("-" + Padded(Itoa(v), 4))[1..] == Padded(Itoa(v), 4);
  }

  lemma YearsDiffer(a: int, b: int)
    requires YearText(a) == YearText(b)
    ensures a == b
  {
    hide YearText, Value;
    YearTextIs(a);
    YearTextIs(b);
  }

  lemma TwoDiffer(a: nat, b: nat)
    requires a < 100 && b < 100
    ensures |Pad2(a)| == 2 && |Pad2(b)| == 2 && (Pad2(a) == Pad2(b) <==> a == b)
  {
    hide Pad2, Hundredths;
    Pad2Is(a);
    Pad2Is(b);
  }

  // -- late-fee periods ---------------------------------------------------------

  function MonthText(m: Calendar.Month): string
    requires m.month > 0
  {
    YearText(m.year) + "-" + Pad2(m.month)
  }

  /** The calendar month of an instant. */
  function MonthAt(at: int): (m: Calendar.Month)
    ensures 1 <= m.month <= 12
  {
    Calendar.MonthOf(UtcDay(at))
  }

  function PeriodKey(at: int): string { MonthText(MonthAt(at)) }

  lemma MonthTextsDiffer(a: Calendar.Month, b: Calendar.Month)
    requires 1 <= a.month <= 12 && 1 <= b.month <= 12 && MonthText(a) == MonthText(b)
    ensures a == b
  {
    hide YearText, Pad2;
    TwoDiffer(a.month, b.month);
    var s, t := MonthText(a), MonthText(b);
    assert s[..|s| - 3] == YearText(a.year) && s[|s| - 2..] == Pad2(a.month);
    assert t[..|t| - 3] == YearText(b.year) && t[|t| - 2..] == Pad2(b.month);
    YearsDiffer(a.year, b.year);
  }

  /** Two instants have one accrual period exactly when they fall in one calendar month. */
  lemma PeriodNamesMonth(a: int, b: int)
    ensures PeriodKey(a) == PeriodKey(b) <==> MonthAt(a) == MonthAt(b)
  {
    hide MonthAt, MonthText;
    if PeriodKey(a) == PeriodKey(b) {
      MonthTextsDiffer(MonthAt(a), MonthAt(b));
    }
  }

  /** A period key is not blank and has no white space to strip. */
  lemma PeriodIsTight(at: int)
    ensures Strip(PeriodKey(at), true) == PeriodKey(at) != ""
  {
    hide YearText, Pad2, MonthAt;
    var m, s := MonthAt(at), PeriodKey(at);
    YearTextIs(m.year);
    Pad2Is(m.month);
    assert s[0] == YearText(m.year)[0] && s[|s| - 1] == Pad2(m.month)[1];
    assert "" + s + "" == s;
    StripUnwraps("", s, "", true);
  }

  // -- aging windows ------------------------------------------------------------

  /** Go's zero time, 1 January of year 1: second -62 135 596 800. */
  const ZERO_TIME := Calendar.YEAR_ONE * DAY

  function DateText(d: Calendar.Date): string
    requires Calendar.Real(d)
  {
    YearText(d.year) + "-" + Pad2(d.month) + "-" + Pad2(d.day)
  }

  function ClockText(second: nat): string {
    "T" + Pad2(second / 3_600) + ":" + Pad2(second / 60 % 60) + ":" + Pad2(second % 60) + "Z"
  }

  /** RFC 3339 in UTC: whole seconds. */
  function Rfc3339(second: int): string {
    DateText(Calendar.DateOf(second / DAY_SECONDS)) + ClockText(second % DAY_SECONDS)
  }

  lemma DateParts(d: Calendar.Date)
    requires Calendar.Real(d)
    ensures var s := DateText(d);
            && |Pad2(d.month)| == |Pad2(d.day)| == 2 && |s| >= 6
            && s[..|s| - 6] == YearText(d.year) && s[|s| - 5..|s| - 3] == Pad2(d.month) && s[|s| - 2..] == Pad2(d.day)
  {
    hide YearText, Pad2;
    DayIsShort(d);
    TwoDiffer(d.month, d.day);
  }

  lemma DatesDiffer(a: Calendar.Date, b: Calendar.Date)
    requires Calendar.Real(a) && Calendar.Real(b) && DateText(a) == DateText(b)
    ensures a == b
  {
    hide YearText, Pad2, DateText, Calendar.Real;
    DateParts(a);
    DateParts(b);
    DayIsShort(a);
    DayIsShort(b);
    TwoDiffer(a.month, b.month);
    TwoDiffer(a.day, b.day);
    YearsDiffer(a.year, b.year);
  }

  lemma DayIsShort(d: Calendar.Date)
    requires Calendar.Real(d)
    ensures 1 <= d.month <= 12 && 1 <= d.day <= 31
  {
  }

  lemma ClocksDiffer(a: nat, b: nat)
    requires a < DAY_SECONDS && b < DAY_SECONDS
    ensures |ClockText(a)| == |ClockText(b)| == 10 && (ClockText(a) == ClockText(b) ==> a == b)
  {
    hide Pad2;
    TwoDiffer(a / 3_600, b / 3_600);
    TwoDiffer(a / 60 % 60, b / 60 % 60);
    TwoDiffer(a % 60, b % 60);
    if ClockText(a) == ClockText(b) {
      var s, t := ClockText(a), ClockText(b);
      assert s[1..3] == Pad2(a / 3_600) && s[4..6] == Pad2(a / 60 % 60) && s[7..9] == Pad2(a % 60);
      assert t[1..3] == Pad2(b / 3_600) && t[4..6] == Pad2(b / 60 % 60) && t[7..9] == Pad2(b % 60);
      Sexagesimal(a);
      Sexagesimal(b);
    }
  }

  lemma Sexagesimal(a: nat)
    ensures a == 3_600 * (a / 3_600) + 60 * (a / 60 % 60) + a % 60
  {
    assert a / 3_600 == a / 60 / 60;
  }

  /** The text of a second is its own. */
  lemma StampsDiffer(a: int, b: int)
    requires Rfc3339(a) == Rfc3339(b)
    ensures a == b
  {
    hide DateText, ClockText, Calendar.DateOf;
    var x, y := a % DAY_SECONDS, b % DAY_SECONDS;
    ClocksDiffer(x, y);
    var s, t := Rfc3339(a), Rfc3339(b);
    var d, e := Calendar.DateOf(a / DAY_SECONDS), Calendar.DateOf(b / DAY_SECONDS);
    assert s[..|s| - 10] == DateText(d) && s[|s| - 10..] == ClockText(x);
    assert t[..|t| - 10] == DateText(e) && t[|t| - 10..] == ClockText(y);
    DatesDiffer(d, e);
  }

  /** The number of an instant's window, and the window's start: `Truncate` counts from the zero time. */
  function WindowOf(at: int, interval: int): int
    requires interval > 0
  {
    (at - ZERO_TIME) / interval
  }

  function Truncate(at: int, interval: int): int
    requires interval > 0
  {
    ZERO_TIME + interval * WindowOf(at, interval)
  }

  /** The second a window's id names. */
  function WindowSecond(at: int, interval: int): int
    requires interval > 0
  {
    Truncate(at, interval) / SECOND
  }

  function WindowId(at: int, interval: int): string
    requires interval > 0
  {
    Rfc3339(WindowSecond(at, interval))
  }

  lemma WindowIdNamesSecond(a: int, i: int, b: int, j: int)
    requires i > 0 && j > 0
    ensures WindowId(a, i) == WindowId(b, j) <==> WindowSecond(a, i) == WindowSecond(b, j)
  {
    hide Rfc3339, WindowSecond;
    if WindowId(a, i) == WindowId(b, j) {
      StampsDiffer(WindowSecond(a, i), WindowSecond(b, j));
    }
  }

  lemma Strides(interval: int, k: int, l: int)
    requires interval > 0 && k < l
    ensures interval * k + interval <= interval * l
  {
    var more := l - k - 1;
    NotNegative(interval, more);
    assert interval * (k + 1 + more) == interval * k + interval + interval * more;
  }

  lemma NotNegative(x: int, y: int)
    requires x > 0 && y >= 0
    ensures x * y >= 0
  {
  }

  /** Instant `b` lies in the window of `a`: from where `a` truncates to, for one interval. */
  predicate InWindow(a: int, b: int, interval: int)
    requires interval > 0
  {
    Truncate(a, interval) <= b < Truncate(a, interval) + interval
  }

  lemma WindowHoldsItsInstant(at: int, interval: int)
    requires interval > 0
    ensures InWindow(at, at, interval)
  {
  }

  /** Two instants have one window number exactly when the one lies in the other's window. */
  lemma WindowOfNamesWindow(a: int, b: int, interval: int)
    requires interval > 0
    ensures WindowOf(a, interval) == WindowOf(b, interval) <==> InWindow(a, b, interval)
  {
    hide WindowOf;
    WindowHoldsItsInstant(a, interval);
    WindowHoldsItsInstant(b, interval);
    var k, l := WindowOf(a, interval), WindowOf(b, interval);
    if k < l {
      Strides(interval, k, l);
    } else if l < k {
      Strides(interval, l, k);
    }
  }

  lemma Apart(interval: int, k: int, l: int)
    requires interval >= SECOND && k < l
    ensures (ZERO_TIME + interval * k) / SECOND < (ZERO_TIME + interval * l) / SECOND
  {
    Strides(interval, k, l);
    SecondsApart(ZERO_TIME + interval * k, ZERO_TIME + interval * l);
  }

  lemma SecondsApart(x: int, y: int)
    requires y - x >= SECOND
    ensures x / SECOND < y / SECOND
  {
  }

  lemma WindowsApart(interval: int, a: int, b: int)
    requires interval >= SECOND && WindowSecond(a, interval) == WindowSecond(b, interval)
    ensures WindowOf(a, interval) == WindowOf(b, interval)
  {
    hide WindowOf;
    var k, l := WindowOf(a, interval), WindowOf(b, interval);
    if k < l {
      Apart(interval, k, l);
    } else if l < k {
      Apart(interval, l, k);
    }
  }

  /** The first two windows of a sub-second interval share an id. */
  lemma SubSecondWindowsCollide(interval: int)
    requires 0 < interval < SECOND
    ensures WindowOf(ZERO_TIME, interval) == 0 && WindowOf(ZERO_TIME + interval, interval) == 1
    ensures WindowSecond(ZERO_TIME, interval) == WindowSecond(ZERO_TIME + interval, interval)
  {
    assert (ZERO_TIME + interval - ZERO_TIME) / interval == 1;
    assert interval * 1 == interval;
  }

  /** Window ids tell windows apart exactly when the interval is at least a second. */
  lemma WindowIdNamesWindowExactly(interval: int)
    requires interval > 0
    ensures (forall a, b :: WindowId(a, interval) == WindowId(b, interval) <==> InWindow(a, b, interval))
            <==> interval >= SECOND
  {
    hide WindowId, WindowOf, InWindow;
    if interval >= SECOND {
      forall a, b
        ensures WindowId(a, interval) == WindowId(b, interval) <==> InWindow(a, b, interval)
      {
        WindowOfNamesWindow(a, b, interval);
        WindowIdNamesSecond(a, interval, b, interval);
        if WindowSecond(a, interval) == WindowSecond(b, interval) {
          WindowsApart(interval, a, b);
        }
      }
    } else {
      SubSecondWindowsCollide(interval);
      WindowIdNamesSecond(ZERO_TIME, interval, ZERO_TIME + interval, interval);
      WindowOfNamesWindow(ZERO_TIME, ZERO_TIME + interval, interval);
    }
  }
}
