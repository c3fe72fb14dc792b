/** The local day in Brussels (cra_evidence/applicability.py): the summer-time offset, the start of a day and the
    date of an instant. Instants are microseconds from the midnight that begins day 0. */
module Brussels {
  import opened Instants
  import opened Calendar

  const HOUR := 3_600_000_000
  const DAY := 86_400_000_000

  datatype Reading = Utc | EuropeBrussels

  /** `_last_sunday`: the day before the first of the next month (31 December for December), back to a Sunday. */
  function LastSunday(y: int, m: int): (r: int)
    requires 1 <= m <= 12
  {
    var d := if m < 12 then Ordinal(Date(y, m + 1, 1)) - 1 else Ordinal(Date(y, 12, 31));
    d - (Weekday(d) + 1) % 7
  }

  /** It is a Sunday of the month, and the one after it is not. */
  lemma LastSundayMeans(y: int, m: int)
    requires 1 <= m <= 12
    ensures Weekday(LastSunday(y, m)) == 6
    ensures var d := LastSunday(y, m) - Ordinal(Date(y, m, 1)) + 1;
      1 <= d <= DaysInMonth(y, m) < d + 7 && DateOf(LastSunday(y, m)) == Date(y, m, d)
  {
    hide DaysBeforeYear, DaysBeforeMonth, DaysInMonth;
    SomeDays(y, m);
    MonthLength(y, m);
    var first := Date(y, m, 1);
    if m < 12 { SomeDays(y, m + 1); }
    DecemberEnds(y);
    var n := LastSunday(y, m);
    SundayBefore(if m < 12 then Ordinal(Date(y, m + 1, 1)) - 1 else Ordinal(Date(y, 12, 31)));
    var d := n - Ordinal(first) + 1;
    DateOfOrdinal(Date(y, m, d));
  }

  lemma DecemberEnds(y: int)
    ensures DaysInMonth(y, 12) == 31
  {}

  lemma SundayBefore(d: int)
    ensures var n := d - (Weekday(d) + 1) % 7; Weekday(n) == 6 && d - 7 < n <= d
  {}

  ghost function YearOfDay(n: int): (r: int) { DateOf(n).y }

  /** `brussels_offset`, in hours. */
  ghost function OffsetHours(t: int): (r: int)
  {
    var y := YearOfDay(t / DAY);
    if LastSunday(y, 3) * DAY + HOUR <= t < LastSunday(y, 10) * DAY + HOUR then 2 else 1
  }

  /** The day of summer time, counted from one in the morning to one in the morning UTC. */
  ghost predicate Summer(n: int)
  {
    LastSunday(YearOfDay(n), 3) <= n < LastSunday(YearOfDay(n), 10)
  }

  ghost function DayOffset(n: int): (r: int) { if Summer(n) then 2 else 1 }

  lemma DayOfTime(n: int, r: int)
    requires 0 <= r < DAY
    ensures (n * DAY + r) / DAY == n
  {}

  /** Both changes of the year fall well inside it. */
  lemma SundaysInside(y: int)
    ensures DaysBeforeYear(y) + 60 < LastSunday(y, 3) < LastSunday(y, 10) < DaysBeforeYear(y + 1) - 31
  {
    hide DaysBeforeYear;
    LastSundayMeans(y, 3);
    LastSundayMeans(y, 10);
    YearLength(y);
  }

  lemma DayYear(n: int)
    ensures var y := YearOfDay(n); DaysBeforeYear(y) < n <= DaysBeforeYear(y + 1)
  {
    DayInYear(DateOf(n));
  }

  lemma NextYearOfDay(n: int)
    ensures YearOfDay(n + 1) == YearOfDay(n)
      || (YearOfDay(n + 1) == YearOfDay(n) + 1 && n == DaysBeforeYear(YearOfDay(n) + 1))
  {
    hide DaysBeforeYear, Ordinal;
    var a, b := YearOfDay(n), YearOfDay(n + 1);
    DayYear(n);
    DayYear(n + 1);
    if b < a { YearsAdd(b + 1, a); }
    if b > a {
      YearsAdd(a + 1, b);
      if b > a + 1 { YearsAdd(a + 2, b); YearLength(a + 1); }
    }
  }

  /** The offset only depends on which of these days the instant falls in: the changes are at one in the morning,
      and the year of the instant never matters within them. */
  lemma OffsetByDay(n: int, r: int)
    requires 0 <= r < DAY
    ensures OffsetHours(n * DAY + HOUR + r) == DayOffset(n)
  {
    hide DaysBeforeYear, LastSunday;
    var t := n * DAY + HOUR + r;
    if HOUR + r < DAY {
      DayOfTime(n, HOUR + r);
      SameDayOffset(n, r, YearOfDay(n));
    } else {
      DayOfTime(n + 1, HOUR + r - DAY);
      NextYearOfDay(n);
      DayYear(n);
      SundaysInside(YearOfDay(n));
      SundaysInside(YearOfDay(n + 1));
      SameDayOffset(n, r, YearOfDay(n + 1));
    }
  }

  lemma SameDayOffset(n: int, r: int, y: int)
    requires 0 <= r < DAY
    ensures LastSunday(y, 3) * DAY + HOUR <= n * DAY + HOUR + r < LastSunday(y, 10) * DAY + HOUR <==>
      LastSunday(y, 3) <= n < LastSunday(y, 10)
  {
    hide LastSunday;
    Compare(LastSunday(y, 3), n, r);
    Compare(LastSunday(y, 10), n, r);
  }

  lemma Compare(a: int, n: int, r: int)
    requires 0 <= r < DAY
    ensures a * DAY <= n * DAY + r <==> a <= n
  {}

  /** Where an instant stands: one of these days, and the time since its one o'clock. */
  lemma ShiftedDay(t: int) returns (n: int, r: int)
    ensures t == n * DAY + HOUR + r && 0 <= r < DAY
  {
    n, r := (t - HOUR) / DAY, (t - HOUR) % DAY;
  }

  /** The search loop of `day_start` over the two candidates, given the offsets found at them. */
  function FirstFitting(local: int, atTwo: int, atOne: int): (r: int)
    requires atTwo == 2 || atOne == 1
  {
    if atTwo == 2 then local - 2 * HOUR else if atOne == 1 then local - HOUR else assert false; local
  }

  /** `day_start`: the two candidates are two hours and one hour before midnight UTC. One of them always fits: the
      assertion at the end of the Python function can not fail, for any date. */
  ghost function DayStart(x: Date, reading: Reading): (r: int)
    requires ValidDate(x)
  {
    var local := Ordinal(x) * DAY;
    if reading == Utc then local
    else
      CandidateFits(Ordinal(x));
      FirstFitting(local, OffsetHours(local - 2 * HOUR), OffsetHours(local - HOUR))
  }

  lemma CandidateFits(n: int)
    ensures OffsetHours(n * DAY - 2 * HOUR) == DayOffset(n - 1) == OffsetHours(n * DAY - HOUR)
    ensures OffsetHours(n * DAY - 2 * HOUR) == 2 || OffsetHours(n * DAY - HOUR) == 1
  {
    hide OffsetHours;
    OffsetByDay(n - 1, DAY - 3 * HOUR);
    OffsetByDay(n - 1, DAY - 2 * HOUR);
    assert (n - 1) * DAY + HOUR + (DAY - 3 * HOUR) == n * DAY - 2 * HOUR;
    assert (n - 1) * DAY + HOUR + (DAY - 2 * HOUR) == n * DAY - HOUR;
  }

  /** The start of the day numbered n. */
  ghost function StartOf(n: int, reading: Reading): (r: int)
  {
    if reading == Utc then n * DAY else n * DAY - DayOffset(n - 1) * HOUR
  }

  lemma DayStartIs(x: Date, reading: Reading)
    requires ValidDate(x)
    ensures DayStart(x, reading) == StartOf(Ordinal(x), reading)
  {
    hide OffsetHours, Ordinal;
    CandidateFits(Ordinal(x));
  }

  /** `local_date`. */
  ghost function LocalDate(t: int, reading: Reading): (r: Date)
  {
    DateOf(LocalDay(t, reading))
  }

  ghost function LocalDay(t: int, reading: Reading): (r: int)
  {
    if reading == Utc then t / DAY else (t + OffsetHours(t) * HOUR) / DAY
  }

  /** The two functions are a Galois pair: a day has begun at an instant exactly when it is not after the date of
      that instant. */
  lemma DaysAndInstants(n: int, t: int, reading: Reading)
    ensures StartOf(n, reading) <= t <==> n <= LocalDay(t, reading)
  {
    hide OffsetHours, Summer;
    if reading == Utc {
      var q, r := t / DAY, t % DAY;
      assert t == q * DAY + r;
      Compare(n, q, r);
    } else {
      var s, r := ShiftedDay(t);
      OffsetByDay(s, r);
      var h := HOUR + r + DayOffset(s) * HOUR;
      assert t + OffsetHours(t) * HOUR == s * DAY + h;
      if h < DAY { DayOfTime(s, h); } else { DayOfTime(s + 1, h - DAY); }
      StartAgainst(n, s, r);
    }
  }

  /** A day's start against an instant given by its shifted day. */
  lemma StartAgainst(n: int, s: int, r: int)
    requires 0 <= r < DAY
    ensures StartOf(n, EuropeBrussels) <= s * DAY + HOUR + r <==>
      n <= s + if HOUR + r + DayOffset(s) * HOUR < DAY then 0 else 1
  {
    hide Summer;
    if n <= s {
      Times(n, s);
    } else if n >= s + 2 {
      Times(s + 2, n);
    }
  }

  lemma Times(a: int, b: int)
    requires a <= b
    ensures a * DAY <= b * DAY
  {}

  /** Every instant falls in the day of its date and before the next, under both readings. */
  lemma DayBoundaries(t: int, reading: Reading)
    ensures var x := LocalDate(t, reading);
      ValidDate(x) && DayStart(x, reading) <= t < DayStart(NextDayOf(x), reading)
  {
    hide LocalDay, Ordinal, ValidDate;
    var x := LocalDate(t, reading);
    NextOrdinal(x);
    DayStartIs(x, reading);
    DayStartIs(NextDay(x), reading);
    DaysAndInstants(Ordinal(x), t, reading);
    DaysAndInstants(Ordinal(x) + 1, t, reading);
  }

  /** The day after: `+ timedelta(days=1)`. */
  function NextDayOf(x: Date): (r: Date)
    requires ValidDate(x)
    ensures ValidDate(r) && Ordinal(r) == Ordinal(x) + 1
  {
    NextOrdinal(x);
    NextDay(x)
  }

  /** A date is the local date of the instant its day starts at. */
  lemma DateOfStart(x: Date, reading: Reading)
    requires ValidDate(x)
    ensures LocalDate(DayStart(x, reading), reading) == x
  {
    hide LocalDay, StartOf, DayStart, Ordinal, OffsetHours;
    var t := DayStart(x, reading);
    DayStartIs(x, reading);
    DaysAndInstants(Ordinal(x), t, reading);
    DaysAndInstants(Ordinal(x) + 1, t, reading);
    StartsGrow(Ordinal(x), Ordinal(x) + 1, reading);
    DateOfOrdinal(x);
  }

  lemma StartsGrow(a: int, b: int, reading: Reading)
    requires a < b
    ensures StartOf(a, reading) < StartOf(b, reading)
  {
    hide Summer;
    Times(a + 1, b);
  }

  /** Days start in the order of their dates. */
  lemma DayStartOrder(a: Date, b: Date, reading: Reading)
    requires ValidDate(a) && ValidDate(b)
    ensures DayStart(a, reading) < DayStart(b, reading) <==> Before(a, b)
  {
    hide StartOf, Ordinal;
    DayStartIs(a, reading);
    DayStartIs(b, reading);
    OrdinalOrder(a, b);
    if Ordinal(a) < Ordinal(b) { StartsGrow(Ordinal(a), Ordinal(b), reading); }
    if Ordinal(b) < Ordinal(a) { StartsGrow(Ordinal(b), Ordinal(a), reading); }
  }

  /** The local date never goes back. */
  lemma LocalDayMonotone(t: int, u: int, reading: Reading)
    requires t <= u
    ensures LocalDay(t, reading) <= LocalDay(u, reading)
  {
    hide LocalDay, StartOf;
    var n := LocalDay(t, reading);
    DaysAndInstants(n, t, reading);
    DaysAndInstants(n, u, reading);
  }
}
