/** The calendar and the Brussels offset by their dates: month lengths and weekdays that can be looked up, summer time
    by month and by the last Sundays of March and October, and the hour in UTC at which a local day starts. */
module SummerTime {
  import opened Instants
  import opened Calendar
  import opened Brussels

  /** Thirty days have four months; February has 29 days in every fourth year, but in a centenary only if the number
      of the century divides by four. */
  lemma MonthLengths(y: int)
    ensures forall m :: m in {1, 3, 5, 7, 8, 10, 12} ==> DaysInMonth(y, m) == 31
    ensures forall m :: m in {4, 6, 9, 11} ==> DaysInMonth(y, m) == 30
    ensures DaysInMonth(y, 2) ==
      if y % 100 == 0 then if y % 400 == 0 then 29 else 28 else if y % 4 == 0 then 29 else 28
  {}

  /** Days that can be looked up: 1 January 1970 was a Thursday, 29 February 2000 a Tuesday, 11 September 2026 is a
      Friday; and the day after a day has the next weekday. */
  lemma KnownDays()
    ensures Ordinal(Date(1970, 1, 1)) == 719163 && Weekday(Ordinal(Date(1970, 1, 1))) == 3
    ensures Weekday(Ordinal(Date(2000, 2, 29))) == 1 && Weekday(Ordinal(Date(2026, 9, 11))) == 4
    ensures forall n :: Weekday(n + 1) == if Weekday(n) == 6 then 0 else Weekday(n) + 1
  {}

  lemma Units()
    ensures HOUR == 60 * 60 * 1_000_000 && DAY == 24 * HOUR
  {}

  /** The day of the month of the last Sunday. */
  ghost function LastSundayOf(y: int, m: int): (d: int)
    requires 1 <= m <= 12
    ensures DaysInMonth(y, m) - 7 < d <= DaysInMonth(y, m)
    ensures 1 <= d && Weekday(Ordinal(Date(y, m, d))) == 6 && Ordinal(Date(y, m, d)) == LastSunday(y, m)
  {
    LastSundayMeans(y, m);
    var d := LastSunday(y, m) - Ordinal(Date(y, m, 1)) + 1;
    SomeDays(y, m);
    d
  }

  /** The months and days of summer time. */
  ghost predicate SummerDate(x: Date)
    requires ValidDate(x)
  {
    || 4 <= x.m <= 9
    || (x.m == 3 && LastSundayOf(x.y, 3) <= x.d)
    || (x.m == 10 && x.d < LastSundayOf(x.y, 10))
  }

  /** The offset of the day from one in the morning UTC: two hours from the last Sunday of March to the day before the
      last Sunday of October, one hour otherwise. */
  lemma OffsetByDate(x: Date)
    requires ValidDate(x)
    ensures DayOffset(Ordinal(x)) == if SummerDate(x) then 2 else 1
  {
    hide Ordinal, LastSunday, Weekday, DaysInMonth;
    DateOfOrdinal(x);
    var a, b := Date(x.y, 3, LastSundayOf(x.y, 3)), Date(x.y, 10, LastSundayOf(x.y, 10));
    OrdinalOrder(x, a);
    OrdinalOrder(x, b);
    OrdinalOrder(a, x);
    OrdinalOrder(b, x);
  }

  /** The instants of change: at one in the morning UTC of the last Sundays. */
  lemma ChangesAtOne(y: int)
    ensures OffsetHours(LastSunday(y, 3) * DAY + HOUR) == 2 && OffsetHours(LastSunday(y, 3) * DAY + HOUR - 1) == 1
    ensures OffsetHours(LastSunday(y, 10) * DAY + HOUR) == 1 && OffsetHours(LastSunday(y, 10) * DAY + HOUR - 1) == 2
  {
    hide OffsetHours, LastSunday, DayOffset, DaysBeforeYear;
    forall n
      ensures OffsetHours(n * DAY + HOUR) == DayOffset(n) && OffsetHours(n * DAY + HOUR - 1) == DayOffset(n - 1)
    {
      OffsetByDay(n, 0);
      OffsetByDay(n - 1, DAY - 1);
      assert (n - 1) * DAY + HOUR + (DAY - 1) == n * DAY + HOUR - 1;
    }
    SundayOffsets(y);
  }

  lemma SundayOffsets(y: int)
    ensures DayOffset(LastSunday(y, 3)) == 2 && DayOffset(LastSunday(y, 3) - 1) == 1
    ensures DayOffset(LastSunday(y, 10)) == 1 && DayOffset(LastSunday(y, 10) - 1) == 2
  {
    hide LastSunday, DaysBeforeYear, DaysBeforeMonth, Weekday, DayOffset;
    MonthLengths(y);
    var a, b := LastSundayOf(y, 3), LastSundayOf(y, 10);
    OffsetByDate(Date(y, 3, a));
    OffsetByDate(Date(y, 3, a - 1));
    OffsetByDate(Date(y, 10, b));
    OffsetByDate(Date(y, 10, b - 1));
  }

  /** The days that start in summer time: those after the last Sunday of March, up to the last Sunday of October. */
  ghost predicate SummerStart(x: Date)
    requires ValidDate(x)
  {
    || 4 <= x.m <= 9
    || (x.m == 3 && LastSundayOf(x.y, 3) < x.d)
    || (x.m == 10 && x.d <= LastSundayOf(x.y, 10))
  }

  /** When a day starts: midnight UTC, or, in Brussels, 22:00 UTC of the day before in summer time and 23:00 in
      winter. */
  lemma DayStartsAt(x: Date)
    requires ValidDate(x)
    ensures DayStart(x, Utc) == Ordinal(x) * DAY
    ensures DayStart(x, EuropeBrussels) == (Ordinal(x) - 1) * DAY + (if SummerStart(x) then 22 else 23) * HOUR
  {
    hide DayStart, Ordinal, LastSunday, Weekday, DayOffset, DaysInMonth;
    DayStartIs(x, Utc);
    DayStartIs(x, EuropeBrussels);
    OffsetOfDayBefore(x);
  }

  lemma OffsetOfDayBefore(x: Date)
    requires ValidDate(x)
    ensures DayOffset(Ordinal(x) - 1) == if SummerStart(x) then 2 else 1
  {
    hide LastSunday, Weekday, DayOffset, DaysBeforeYear, DaysBeforeMonth;
    MonthLengths(x.y);
    MonthLengths(x.y - 1);
    if x.d > 1 {
      OffsetByDate(Date(x.y, x.m, x.d - 1));
    } else if x.m > 1 {
      var l := DaysInMonth(x.y, x.m - 1);
      MonthLength(x.y, x.m - 1);
      OffsetByDate(Date(x.y, x.m - 1, l));
    } else {
      MonthLength(x.y - 1, 12);
      YearLength(x.y - 1);
      FirstOfYear(x.y);
      OffsetByDate(Date(x.y - 1, 12, 31));
    }
  }

  lemma FirstOfYear(y: int)
    ensures DaysBeforeMonth(y, 1) == 0
  {}

  /** The local date: that of the instant shifted by the offset of the day it falls in, one or two hours. */
  lemma LocalDateIs(t: int)
    ensures LocalDate(t, Utc) == DateOf(t / DAY)
    ensures var x := DateOf((t - HOUR) / DAY);
      ValidDate(x) && LocalDate(t, EuropeBrussels) == DateOf((t + (if SummerDate(x) then 2 else 1) * HOUR) / DAY)
  {
    hide OffsetHours, Ordinal, LastSunday, Weekday, DaysInMonth;
    var n, r := (t - HOUR) / DAY, (t - HOUR) % DAY;
    assert t == n * DAY + HOUR + r;
    OffsetByDay(n, r);
    DateExists(n);
    OffsetByDate(DateOf(n));
  }
}
