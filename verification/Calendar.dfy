/** The proleptic Gregorian calendar: day numbers, dates, weekdays, months (what the datetime arithmetic of
    cra_evidence/applicability.py and cra_evidence/vuln.py rests on). */
module Calendar {
  import opened Arithmetic
  import opened Instants

  datatype Date = Date(y: int, m: int, d: int)

  predicate ValidDate(x: Date)
  {
    1 <= x.m <= 12 && 1 <= x.d <= DaysInMonth(x.y, x.m)
  }

  /** Days before 1 January of the year y; day 1 is 1 January of the year 1. */
  function DaysBeforeYear(y: int): (r: int)
  {
    var p := y - 1;
    p * 365 + p / 4 - p / 100 + p / 400
  }

  function DaysBeforeMonth(y: int, m: int): (r: int)
    requires 1 <= m <= 12
  {
    [0, 31, 59, 90, 120, 151, 181, 212, 243, 273, 304, 334][m - 1] + if m > 2 && IsLeap(y) then 1 else 0
  }

  function Ordinal(x: Date): (r: int)
    requires ValidDate(x)
  {
    DaysBeforeYear(x.y) + DaysBeforeMonth(x.y, x.m) + x.d
  }

  /** Monday is 0; day 1 was a Monday. */
  function Weekday(n: int): (r: int) { (n + 6) % 7 }

  predicate Before(a: Date, b: Date)
  {
    a.y < b.y || (a.y == b.y && (a.m < b.m || (a.m == b.m && a.d < b.d)))
  }

  // ---- the numbering -------------------------------------------------------------------------------

  lemma YearLength(y: int)
    ensures DaysBeforeYear(y + 1) == DaysBeforeYear(y) + if IsLeap(y) then 366 else 365
  {
    var p := y - 1;
    DivStep(p, 4);
    DivStep(p, 100);
    DivStep(p, 400);
  }

  lemma DivStep(p: int, k: int)
    requires k > 0
    ensures (p + 1) / k == p / k + if (p + 1) % k == 0 then 1 else 0
  {
    var q, r := p / k, p % k;
    assert p == k * q + r;
    if r == k - 1 {
      assert p + 1 == k * (q + 1);
      Divides(k, q + 1, 0);
    } else {
      Divides(k, q, r + 1);
    }
  }

  lemma MonthLength(y: int, m: int)
    requires 1 <= m <= 12
    ensures m < 12 ==> DaysBeforeMonth(y, m + 1) == DaysBeforeMonth(y, m) + DaysInMonth(y, m)
    ensures m == 12 ==> DaysBeforeMonth(y, m) + DaysInMonth(y, m) == if IsLeap(y) then 366 else 365
  {}

  lemma {:induction false} MonthsAdd(y: int, m: int, m': int)
    requires 1 <= m < m' <= 12
    ensures DaysBeforeMonth(y, m) + DaysInMonth(y, m) <= DaysBeforeMonth(y, m')
    decreases m' - m
  {
    hide DaysBeforeMonth, DaysInMonth;
    MonthLength(y, m);
    if m + 1 < m' {
      MonthsAdd(y, m + 1, m');
      SomeDays(y, m + 1);
    }
  }

  lemma SomeDays(y: int, m: int)
    requires 1 <= m <= 12
    ensures 28 <= DaysInMonth(y, m) <= 31 && DaysBeforeMonth(y, m) >= 0
  {}

  lemma {:induction false} YearsAdd(y: int, y': int)
    requires y <= y'
    ensures DaysBeforeYear(y) <= DaysBeforeYear(y')
    decreases y' - y
  {
    hide DaysBeforeYear;
    if y < y' {
      YearLength(y);
      YearsAdd(y + 1, y');
    }
  }

  /** The day of a date lies within its year. */
  lemma DayInYear(x: Date)
    requires ValidDate(x)
    ensures DaysBeforeYear(x.y) < Ordinal(x) <= DaysBeforeYear(x.y + 1)
  {
    hide DaysBeforeYear, DaysBeforeMonth, DaysInMonth;
    YearLength(x.y);
    SomeDays(x.y, x.m);
    MonthLength(x.y, x.m);
    if x.m < 12 { MonthsAdd(x.y, x.m, 12); SomeDays(x.y, 12); MonthLength(x.y, 12); }
  }

  /** Day numbers keep the order of dates. */
  lemma OrdinalOrder(a: Date, b: Date)
    requires ValidDate(a) && ValidDate(b)
    ensures Before(a, b) <==> Ordinal(a) < Ordinal(b)
    ensures a == b <==> Ordinal(a) == Ordinal(b)
  {
    if Before(a, b) {
      OrdinalBefore(a, b);
    } else if Before(b, a) {
      OrdinalBefore(b, a);
    }
  }

  lemma OrdinalBefore(a: Date, b: Date)
    requires ValidDate(a) && ValidDate(b) && Before(a, b)
    ensures Ordinal(a) < Ordinal(b)
  {
    hide DaysBeforeYear, DaysBeforeMonth, DaysInMonth;
    if a.y < b.y {
      DayInYear(a);
      DayInYear(b);
      YearsAdd(a.y + 1, b.y);
    } else if a.m < b.m {
      MonthsAdd(a.y, a.m, b.m);
    }
  }

  function NextDay(x: Date): (r: Date)
    requires ValidDate(x)
  {
    if x.d < DaysInMonth(x.y, x.m) then x.(d := x.d + 1)
    else if x.m < 12 then Date(x.y, x.m + 1, 1)
    else Date(x.y + 1, 1, 1)
  }

  lemma NextOrdinal(x: Date)
    requires ValidDate(x)
    ensures ValidDate(NextDay(x)) && Ordinal(NextDay(x)) == Ordinal(x) + 1
  {
    hide DaysBeforeYear, DaysInMonth;
    YearLength(x.y);
    SomeDays(x.y, x.m);
    if x.m < 12 { SomeDays(x.y, x.m + 1); } else { SomeDays(x.y + 1, 1); }
    MonthLength(x.y, x.m);
  }

  function PreviousDay(x: Date): (r: Date)
    requires ValidDate(x)
  {
    if x.d > 1 then x.(d := x.d - 1)
    else if x.m > 1 then Date(x.y, x.m - 1, DaysInMonth(x.y, x.m - 1))
    else Date(x.y - 1, 12, 31)
  }

  lemma PreviousOrdinal(x: Date)
    requires ValidDate(x)
    ensures ValidDate(PreviousDay(x)) && Ordinal(PreviousDay(x)) == Ordinal(x) - 1
  {
    var p := PreviousDay(x);
    assert ValidDate(p) && NextDay(p) == x;
    NextOrdinal(p);
  }

  /** Every day number is the number of a date. */
  lemma {:induction false} DateExists(n: int)
    ensures exists x :: ValidDate(x) && Ordinal(x) == n
    decreases if n >= 1 then n else 2 - n
  {
    hide Ordinal, ValidDate;
    if n == 1 {
      FirstDay();
    } else if n > 1 {
      DateExists(n - 1);
      var x :| ValidDate(x) && Ordinal(x) == n - 1;
      NextOrdinal(x);
      assert ValidDate(NextDay(x)) && Ordinal(NextDay(x)) == n;
    } else {
      if n == 0 { FirstDay(); } else { DateExists(n + 1); }
      var x :| ValidDate(x) && Ordinal(x) == n + 1;
      PreviousOrdinal(x);
      assert ValidDate(PreviousDay(x)) && Ordinal(PreviousDay(x)) == n;
    }
  }

  lemma FirstDay()
    ensures ValidDate(Date(1, 1, 1)) && Ordinal(Date(1, 1, 1)) == 1
  {}

  /** The date of a day number: the one there is. */
  ghost function DateOf(n: int): (x: Date)
    ensures ValidDate(x) && Ordinal(x) == n
  {
    DateExists(n);
    var x :| ValidDate(x) && Ordinal(x) == n;
    x
  }

  lemma DateOfOrdinal(x: Date)
    requires ValidDate(x)
    ensures DateOf(Ordinal(x)) == x
  {
    OrdinalOrder(DateOf(Ordinal(x)), x);
  }

  // ---- months --------------------------------------------------------------------------------------

  /** vuln.py `add_months` on the date: the day is clamped to the length of the target month. */
  function AddMonths(x: Date, months: int): (r: Date)
    requires 1 <= x.m <= 12
  {
    var total := x.m - 1 + months;
    var y, m := x.y + total / 12, total % 12 + 1;
    Date(y, m, if x.d <= DaysInMonth(y, m) then x.d else DaysInMonth(y, m))
  }

  lemma AddMonthsValid(x: Date, months: int)
    requires ValidDate(x)
    ensures ValidDate(AddMonths(x, months))
    ensures var r := AddMonths(x, months); r.y * 12 + r.m == x.y * 12 + x.m + months && r.d <= x.d
    ensures var r := AddMonths(x, months); r.d == x.d || r.d == DaysInMonth(r.y, r.m) < x.d
  {
    var total := x.m - 1 + months;
    SomeDays(x.y + total / 12, total % 12 + 1);
  }

  /** On dates, adding months keeps the order. */
  lemma AddMonthsMonotone(a: Date, b: Date, months: int)
    requires ValidDate(a) && ValidDate(b) && !Before(b, a)
    ensures !Before(AddMonths(b, months), AddMonths(a, months))
  {
    hide DaysInMonth;
    AddMonthsValid(a, months);
    AddMonthsValid(b, months);
  }

  /** A date and a time of its day, as Python's datetime compares them. */
  predicate Earlier(a: Date, s: int, b: Date, t: int) { Before(a, b) || (a == b && s < t) }

  /** The length of the month that so many months later is. */
  function TargetLength(x: Date, months: int): (r: int)
    requires 1 <= x.m <= 12
  {
    var total := x.m - 1 + months;
    DaysInMonth(x.y + total / 12, total % 12 + 1)
  }

  /** On instants it does not always: an earlier instant lands later exactly when both days are of one month, both
      are clamped because the target month is that short, and the earlier day has the later time. */
  lemma AddMonthsOrder(a: Date, s: int, b: Date, t: int, months: int)
    requires ValidDate(a) && ValidDate(b) && Earlier(a, s, b, t)
    ensures Earlier(AddMonths(b, months), t, AddMonths(a, months), s) <==>
      a.y == b.y && a.m == b.m && TargetLength(b, months) <= a.d < b.d && s > t
  {
    hide DaysInMonth;
    AddMonthsValid(a, months);
    AddMonthsValid(b, months);
  }

  /** 30 January at noon is before 31 January at ten, and one month later it is after it. */
  lemma AddMonthsNotMonotoneOnInstants()
    ensures var a, b := Date(2026, 1, 30), Date(2026, 1, 31);
      Earlier(a, 12, b, 10) && Earlier(AddMonths(b, 1), 10, AddMonths(a, 1), 12)
  {}

  /** Twelve months at a time: the same date, or 28 February for 29 February in a year that has none. */
  lemma AddYearsMeans(x: Date, years: int)
    requires ValidDate(x)
    ensures AddMonths(x, 12 * years) ==
      if x.m == 2 && x.d == 29 && !IsLeap(x.y + years) then Date(x.y + years, 2, 28) else Date(x.y + years, x.m, x.d)
  {
    var total := x.m - 1 + 12 * years;
    Divides(12, years, x.m - 1);
    assert total / 12 == years && total % 12 == x.m - 1;
  }
}
