/** The proleptic Gregorian calendar as Go's `time` reads it off a day count. */
module Calendar {

  /** Epoch-day of 1 January of year 1. */
  const YEAR_ONE := -719_162

  predicate Leap(year: int) { year % 4 == 0 && (year % 100 != 0 || year % 400 == 0) }

  function YearLength(year: int): int { if Leap(year) then 366 else 365 }

  /** The epoch-day of 1 January. */
  function YearStart(year: int): int {
    var past := year - 1;
    YEAR_ONE + 365 * past + past / 4 - past / 100 + past / 400
  }

  /** The days of a year before the first of a month. */
  function DaysBefore(leap: bool, month: int): int
    requires 1 <= month <= 13
  {
    var days := [0, 31, 59, 90, 120, 151, 181, 212, 243, 273, 304, 334, 365];
    days[month - 1] + if leap && month > 2 then 1 else 0
  }

  function MonthLength(year: int, month: int): int
    requires 1 <= month <= 12
  {
    DaysBefore(Leap(year), month + 1) - DaysBefore(Leap(year), month)
  }

  datatype Month = Month(year: int, month: int)

  datatype Date = Date(year: int, month: int, day: int)

  predicate Real(d: Date) { 1 <= d.month <= 12 && 1 <= d.day <= MonthLength(d.year, d.month) }

  /** The epoch-day of a date. */
  function DayNumber(d: Date): int
    requires Real(d)
  {
    YearStart(d.year) + DaysBefore(Leap(d.year), d.month) + d.day - 1
  }

  /** The last month that starts by a day of the year, looking down from `month`. */
  function MonthAt(leap: bool, yearDay: int, month: int): (m: int)
    requires 1 <= month <= 12 && 0 <= yearDay < DaysBefore(leap, month + 1)
    ensures 1 <= m <= month && DaysBefore(leap, m) <= yearDay < DaysBefore(leap, m + 1)
  {
    if DaysBefore(leap, month) <= yearDay then month else MonthAt(leap, yearDay, month - 1)
  }

  /** Whole centuries, or leap cycles, of a longer cycle whose last one is a day longer. */
  function Whole(days: int, length: int): int
    requires length > 0
  {
    if days / length == 4 then 3 else days / length
  }

  /** The year of a day: 400-, 100-, 4- and 1-year cycles in turn. */
  function YearOf(day: int): int {
    var days := day - YEAR_ONE;
    var n400, r400 := days / 146_097, days % 146_097;
    var n100 := Whole(r400, 36_524);
    var r100 := r400 - 36_524 * n100;
    var n4, r4 := r100 / 1_461, r100 % 1_461;
    400 * n400 + 100 * n100 + 4 * n4 + Whole(r4, 365) + 1
  }

  lemma Split4(q: int, r: int)
    requires 0 <= r < 4
    ensures (4 * q + r) / 4 == q && (4 * q + r) % 4 == r
  {
  }

  lemma Split100(q: int, r: int)
    requires 0 <= r < 100
    ensures (100 * q + r) / 100 == q && (100 * q + r) % 100 == r
  {
  }

  lemma Split400(q: int, r: int)
    requires 0 <= r < 400
    ensures (400 * q + r) / 400 == q && (400 * q + r) % 400 == r
  {
  }

  lemma Cycles(a: int, b: int, c: int, e: int)
    requires 0 <= b <= 3 && 0 <= c <= 24 && 0 <= e <= 3
    ensures YearStart(400 * a + 100 * b + 4 * c + e + 1) == YEAR_ONE + 146_097 * a + 36_524 * b + 1_461 * c + 365 * e
  {
    var past := 400 * a + 100 * b + 4 * c + e;
    assert past / 4 == 100 * a + 25 * b + c by { Split4(100 * a + 25 * b + c, e); }
    assert past / 100 == 4 * a + b by { Split100(4 * a + b, 4 * c + e); }
    assert past / 400 == a by { Split400(a, 100 * b + 4 * c + e); }
  }

  lemma LeapInCycle(a: int, b: int, c: int, e: int)
    requires 0 <= b <= 3 && 0 <= c <= 24 && e == 3
    ensures Leap(400 * a + 100 * b + 4 * c + e + 1) <==> c < 24 || b == 3
  {
    var year := 400 * a + 100 * b + 4 * (c + 1);
    assert year % 4 == 0 by { Split4(100 * a + 25 * b + c + 1, 0); }
    if c < 24 {
      assert year % 100 == 4 * (c + 1) by { Split100(4 * a + b, 4 * (c + 1)); }
    } else {
      assert year % 100 == 0 by { Split100(4 * a + b + 1, 0); }
      if b < 3 {
        assert year % 400 == 100 * (b + 1) by { Split400(a, 100 * (b + 1)); }
      } else {
        assert year % 400 == 0 by { Split400(a + 1, 0); }
      }
    }
  }

  /** A cycle of four parts, the last a day longer: the part's number and the day within it. */
  lemma WholeIs(days: int, length: int)
    requires length > 4 && 0 <= days <= 4 * length
    ensures 0 <= Whole(days, length) <= 3
    ensures 0 <= days - length * Whole(days, length) <= length
    ensures days - length * Whole(days, length) == length ==> Whole(days, length) == 3
  {
    if days == 4 * length {
      assert days / length == 4;
    } else {
      assert 0 <= days / length <= 3;
    }
  }

  /** A day falls within its year. */
  lemma DayInYear(day: int)
    ensures 0 <= day - YearStart(YearOf(day)) < YearLength(YearOf(day))
  {
    hide Whole, YearStart, Leap;
    var days := day - YEAR_ONE;
    var n400, r400 := days / 146_097, days % 146_097;
    WholeIs(r400, 36_524);
    var n100 := Whole(r400, 36_524);
    var r100 := r400 - 36_524 * n100;
    var n4, r4 := r100 / 1_461, r100 % 1_461;
    WholeIs(r4, 365);
    var n1 := Whole(r4, 365);
    Cycles(n400, n100, n4, n1);
    if r4 - 365 * n1 == 365 {
      LeapInCycle(n400, n100, n4, n1);
    }
  }

  function DateOf(day: int): (d: Date)
    ensures Real(d) && DayNumber(d) == day
  {
    DayInYear(day);
    var year := YearOf(day);
    var yearDay := day - YearStart(year);
    var month := MonthAt(Leap(year), yearDay, 12);
    Date(year, month, yearDay - DaysBefore(Leap(year), month) + 1)
  }

  lemma NextBy4(n: int)
    ensures n / 4 == (n - 1) / 4 + if n % 4 == 0 then 1 else 0
  {
  }

  lemma NextBy100(n: int)
    ensures n / 100 == (n - 1) / 100 + if n % 100 == 0 then 1 else 0
  {
  }

  lemma NextBy400(n: int)
    ensures n / 400 == (n - 1) / 400 + if n % 400 == 0 then 1 else 0
    ensures n % 400 == 0 ==> n % 100 == 0
  {
  }

  lemma By100(n: int)
    ensures n % 100 == 0 ==> n % 4 == 0
  {
  }

  lemma NextYear(year: int)
    ensures YearStart(year + 1) == YearStart(year) + YearLength(year)
  {
    NextBy4(year);
    NextBy100(year);
    NextBy400(year);
    By100(year);
  }

  lemma {:induction false} YearsAscend(a: int, b: int)
    requires a < b
    ensures YearStart(a) + YearLength(a) <= YearStart(b)
    decreases b - a
  {
    hide YearStart, YearLength;
    NextYear(a);
    if a + 1 < b {
      YearsAscend(a + 1, b);
      YearIsLong(a + 1);
    }
  }

  lemma YearIsLong(year: int)
    ensures YearLength(year) > 0
  {
  }

  lemma DateInYear(d: Date)
    requires Real(d)
    ensures YearStart(d.year) <= DayNumber(d) < YearStart(d.year) + YearLength(d.year)
  {
    hide YearStart;
  }

  lemma MonthsAscend(leap: bool, a: int, b: int)
    requires 1 <= a < b <= 13
    ensures DaysBefore(leap, a + 1) <= DaysBefore(leap, b)
  {
  }

  /** Day counts and real dates are in one-to-one correspondence. */
  lemma DateOfIs(d: Date)
    requires Real(d)
    ensures DateOf(DayNumber(d)) == d
  {
    hide YearStart, YearLength, DateOf, DaysBefore, Leap;
    var e := DateOf(DayNumber(d));
    DateInYear(d);
    DateInYear(e);
    if d.year < e.year {
      YearsAscend(d.year, e.year);
    } else if e.year < d.year {
      YearsAscend(e.year, d.year);
    } else if d.month < e.month {
      MonthsAscend(Leap(d.year), d.month, e.month);
    } else if e.month < d.month {
      MonthsAscend(Leap(d.year), e.month, d.month);
    }
  }

  lemma FirstOfMonth(d: Date)
    requires Real(d)
    ensures Real(d.(day := 1)) && DayNumber(d.(day := 1)) == DayNumber(d) - d.day + 1 && d.day <= 31
  {
    hide YearStart, Leap;
  }

  function MonthOf(day: int): Month { Month(DateOf(day).year, DateOf(day).month) }

  function MonthStart(day: int): int {
    var first := DateOf(day).(day := 1);
    FirstOfMonth(DateOf(day));
    DayNumber(first)
  }

  /** The start of a day's month is the first of that month, at most 30 days before the day. */
  lemma MonthStartIs(day: int)
    ensures DateOf(MonthStart(day)) == DateOf(day).(day := 1)
    ensures MonthStart(day) <= day < MonthStart(day) + 31
  {
    hide DateOf, DayNumber;
    FirstOfMonth(DateOf(day));
    DateOfIs(DateOf(day).(day := 1));
  }

  /** Two days start their months alike exactly when they share a month. */
  lemma MonthStartNamesMonth(a: int, b: int)
    ensures MonthStart(a) == MonthStart(b) <==> MonthOf(a) == MonthOf(b)
  {
    hide DateOf, DayNumber, MonthStart;
    MonthStartIs(a);
    MonthStartIs(b);
    if MonthOf(a) == MonthOf(b) {
      SameMonthStart(a, b);
    }
  }

  lemma SameMonthStart(a: int, b: int)
    requires MonthOf(a) == MonthOf(b)
    ensures MonthStart(a) == MonthStart(b)
  {
    hide DateOf, DayNumber;
    assert DateOf(a).(day := 1) == DateOf(b).(day := 1);
  }
}
