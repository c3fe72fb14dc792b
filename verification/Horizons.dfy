/** Periods in years and the horizons computed from them (cra_evidence/applicability.py `years_after`, `_horizon`),
    and the thresholds read in two time zones. */
module Horizons {
  import opened Arithmetic
  import opened Texts
  import opened JsonGrammar
  import opened Instants
  import opened Calendar
  import opened Brussels
  import Utf8

  /** `years_after`: the start of the day after the same date, so many years later. */
  ghost function YearsAfter(event: int, years: int, reading: Reading): (r: int)
  {
    AddMonthsValid(LocalDate(event, reading), 12 * years);
    DayStart(NextDayOf(AddMonths(LocalDate(event, reading), 12 * years)), reading)
  }

  /** What a period in years means: an instant is within it exactly when its local date is not after the anniversary
      of the local date of the event, 29 February included (see AddYearsMeans). */
  lemma PeriodMeans(event: int, years: int, reading: Reading, t: int)
    ensures ValidDate(AddMonths(LocalDate(event, reading), 12 * years))
    ensures t < YearsAfter(event, years, reading) <==>
      !Before(AddMonths(LocalDate(event, reading), 12 * years), LocalDate(t, reading))
  {
    hide LocalDay, StartOf, DayStart, Ordinal, OffsetHours, AddMonths, DaysInMonth;
    var x := LocalDate(event, reading);
    AddMonthsValid(x, 12 * years);
    var last := AddMonths(x, 12 * years);
    var next := NextDayOf(last);
    DayStartIs(next, reading);
    DaysAndInstants(Ordinal(next), t, reading);
    OrdinalOrder(last, LocalDate(t, reading));
  }

  /** The end of a period is strictly later than its event, and never earlier for a later event. */
  lemma PeriodOrder(event: int, later: int, years: nat, reading: Reading)
    requires event <= later
    ensures event < YearsAfter(event, years, reading) <= YearsAfter(later, years, reading)
  {
    hide LocalDay, StartOf, DayStart, Ordinal, OffsetHours, AddMonths, DaysInMonth, YearsAfter;
    PeriodMeans(event, years, reading, event);
    YearsForward(LocalDate(event, reading), years);
    EndsInOrder(event, later, years, reading);
  }

  lemma YearsForward(x: Date, years: nat)
    requires ValidDate(x)
    ensures ValidDate(AddMonths(x, 12 * years)) && !Before(AddMonths(x, 12 * years), x)
  {
    AddMonthsValid(x, 12 * years);
    AddYearsMeans(x, years);
  }

  lemma EndsInOrder(event: int, later: int, years: int, reading: Reading)
    requires event <= later
    ensures YearsAfter(event, years, reading) <= YearsAfter(later, years, reading)
  {
    hide LocalDay, StartOf, DayStart, Ordinal, OffsetHours, AddMonths, DaysInMonth;
    var x, y := LocalDate(event, reading), LocalDate(later, reading);
    LocalDayMonotone(event, later, reading);
    OrdinalOrder(y, x);
    AddMonthsMonotone(x, y, 12 * years);
    AddMonthsValid(x, 12 * years);
    AddMonthsValid(y, 12 * years);
    var a, b := AddMonths(x, 12 * years), AddMonths(y, 12 * years);
    OrdinalOrder(b, a);
    OrdinalOrder(NextDayOf(b), NextDayOf(a));
    DayStartOrder(NextDayOf(b), NextDayOf(a), reading);
  }

  // ---- instants as text ----------------------------------------------------------------------------

  const SECOND := 1_000_000

  /** n in decimal, in exactly w digits. */
  function Pad(n: int, w: nat): (r: Text)
    decreases w
  {
    if w == 0 then [] else Pad(n / 10, w - 1) + [48 + n % 10]
  }

  function Pow10(w: nat): (r: int) { if w == 0 then 1 else 10 * Pow10(w - 1) }

  /** Fixed-width numbers compare as texts as they compare as numbers, whatever follows. */
  lemma {:induction false} PadLess(a: int, b: int, w: nat, x: Text, y: Text)
    requires 0 <= a < b < Pow10(w)
    ensures Less(Pad(a, w) + x, Pad(b, w) + y)
    decreases w
  {
    hide Less;
    if w > 0 {
      var p, q := Pad(a / 10, w - 1), Pad(b / 10, w - 1);
      var c, d := [48 + a % 10], [48 + b % 10];
      assert Pad(a, w) + x == p + (c + x) && Pad(b, w) + y == q + (d + y);
      if a / 10 < b / 10 {
        PadLess(a / 10, b / 10, w - 1, c + x, d + y);
      } else {
        Utf8.LessAfterPrefix(p, c + x, d + y);
        FirstDiffers(48 + a % 10, 48 + b % 10, x, y);
      }
    }
  }

  lemma FirstDiffers(c: int, d: int, x: Text, y: Text)
    requires c < d
    ensures Less([c] + x, [d] + y)
  {}

  /** The fields of an instant, to the second. */
  datatype Fields = Fields(date: Date, h: int, mi: int, s: int)

  ghost function FieldsOf(t: int): (r: Fields)
  {
    var sec := t % DAY / SECOND;
    Fields(DateOf(t / DAY), sec / 3600, sec / 60 % 60, sec % 60)
  }

  /** `isoformat(timespec="seconds")` of a UTC instant. */
  function IsoText(f: Fields): (r: Text)
  {
    Pad(f.date.y, 4) + ([MINUS] + (Pad(f.date.m, 2) + ([MINUS] + (Pad(f.date.d, 2) + ([LETTER_T] + (Pad(f.h, 2)
    + ([COLON] + (Pad(f.mi, 2) + ([COLON] + (Pad(f.s, 2) + Lit("+00:00")))))))))))
  }

  ghost function Iso(t: int): (r: Text) { IsoText(FieldsOf(t)) }

  /** The years Python's datetime can hold. */
  ghost predicate Printable4(t: int) { 1 <= DateOf(t / DAY).y <= 9999 }

  predicate FieldsBefore(a: Fields, b: Fields)
  {
    Before(a.date, b.date)
      || (a.date == b.date && (a.h < b.h || (a.h == b.h && (a.mi < b.mi || (a.mi == b.mi && a.s < b.s)))))
  }

  predicate FieldsFit(f: Fields)
  {
    ValidDate(f.date) && 1 <= f.date.y <= 9999 && 0 <= f.h < 24 && 0 <= f.mi < 60 && 0 <= f.s < 60
  }

  /** One field, and what comes after it. */
  lemma FieldOrder(a: int, b: int, w: nat, x: Text, y: Text)
    requires 0 <= a <= b < Pow10(w)
    ensures a < b ==> Less(Pad(a, w) + x, Pad(b, w) + y)
    ensures a == b ==> (Less(Pad(a, w) + x, Pad(b, w) + y) <==> Less(x, y))
  {
    if a < b { PadLess(a, b, w, x, y); } else { Utf8.LessAfterPrefix(Pad(a, w), x, y); }
  }

  lemma AfterMark(c: int, x: Text, y: Text)
    ensures Less([c] + x, [c] + y) <==> Less(x, y)
  {
    Utf8.LessAfterPrefix([c], x, y);
  }

  lemma Powers()
    ensures Pow10(2) == 100 && Pow10(4) == 10000
  {}

  /** The text of the time, after the date. */
  function TimeText(f: Fields): (r: Text)
  {
    Pad(f.h, 2) + ([COLON] + (Pad(f.mi, 2) + ([COLON] + (Pad(f.s, 2) + Lit("+00:00")))))
  }

  lemma TimeOrder(a: Fields, b: Fields)
    requires FieldsFit(a) && FieldsFit(b) && a.date == b.date && FieldsBefore(a, b)
    ensures Less(TimeText(a), TimeText(b))
  {
    hide Less, Pad, Pow10, Lit;
    Powers();
    var z := Lit("+00:00");
    var sa, sb := Pad(a.s, 2) + z, Pad(b.s, 2) + z;
    var ma, mb := Pad(a.mi, 2) + ([COLON] + sa), Pad(b.mi, 2) + ([COLON] + sb);
    AfterMark(COLON, sa, sb);
    AfterMark(COLON, ma, mb);
    if a.h < b.h {
      FieldOrder(a.h, b.h, 2, [COLON] + ma, [COLON] + mb);
    } else {
      FieldOrder(a.h, b.h, 2, [COLON] + ma, [COLON] + mb);
      FieldOrder(a.mi, b.mi, 2, [COLON] + sa, [COLON] + sb);
      if a.mi == b.mi { FieldOrder(a.s, b.s, 2, z, z); }
    }
  }

  lemma DateOrder(a: Fields, b: Fields, x: Text, y: Text)
    requires FieldsFit(a) && FieldsFit(b) && (Before(a.date, b.date) || (a.date == b.date && Less(x, y)))
    ensures Less(DateText(a, x), DateText(b, y))
  {
    hide Less, Pad, Pow10, DaysInMonth;
    Powers();
    MonthDays(a);
    MonthDays(b);
    var da, db := Pad(a.date.d, 2) + ([LETTER_T] + x), Pad(b.date.d, 2) + ([LETTER_T] + y);
    var ma, mb := Pad(a.date.m, 2) + ([MINUS] + da), Pad(b.date.m, 2) + ([MINUS] + db);
    AfterMark(LETTER_T, x, y);
    AfterMark(MINUS, da, db);
    AfterMark(MINUS, ma, mb);
    FieldOrder(a.date.y, b.date.y, 4, [MINUS] + ma, [MINUS] + mb);
    if a.date.y == b.date.y {
      FieldOrder(a.date.m, b.date.m, 2, [MINUS] + da, [MINUS] + db);
      if a.date.m == b.date.m { FieldOrder(a.date.d, b.date.d, 2, [LETTER_T] + x, [LETTER_T] + y); }
    }
  }

  lemma MonthDays(f: Fields)
    requires FieldsFit(f)
    ensures 1 <= f.date.d <= 31
  {
    SomeDays(f.date.y, f.date.m);
  }

  function DateText(f: Fields, x: Text): (r: Text)
  {
    Pad(f.date.y, 4) + ([MINUS] + (Pad(f.date.m, 2) + ([MINUS] + (Pad(f.date.d, 2) + ([LETTER_T] + x)))))
  }

  lemma IsoKeepsOrder(a: Fields, b: Fields)
    requires FieldsFit(a) && FieldsFit(b) && FieldsBefore(a, b)
    ensures Less(IsoText(a), IsoText(b))
  {
    hide Less, Pad, Lit, TimeText, DateText;
    if a.date == b.date { TimeOrder(a, b); }
    DateOrder(a, b, TimeText(a), TimeText(b));
    IsoSplit(a);
    IsoSplit(b);
  }

  lemma IsoSplit(f: Fields)
    ensures IsoText(f) == DateText(f, TimeText(f))
  {}

  lemma FieldsFollowTime(t: int, u: int)
    requires Printable4(t) && Printable4(u)
    ensures FieldsFit(FieldsOf(t)) && FieldsFit(FieldsOf(u))
    ensures t / SECOND < u / SECOND ==> FieldsBefore(FieldsOf(t), FieldsOf(u))
    ensures t / SECOND == u / SECOND ==> FieldsOf(t) == FieldsOf(u)
  {
    hide Ordinal, ValidDate, DaysInMonth;
    Seconds(t);
    Seconds(u);
    OrdinalOrder(DateOf(t / DAY), DateOf(u / DAY));
    Clock(t % DAY / SECOND, u % DAY / SECOND);
  }

  lemma Clock(s: int, r: int)
    requires 0 <= s < 86400 && 0 <= r < 86400
    ensures 0 <= s / 3600 < 24 && 0 <= s / 60 % 60 < 60 && 0 <= s % 60 < 60
    ensures s < r ==> (s / 3600 < r / 3600 ||
      (s / 3600 == r / 3600 && (s / 60 % 60 < r / 60 % 60 || (s / 60 % 60 == r / 60 % 60 && s % 60 < r % 60))))
  {
    Sixty(s);
    Sixty(r);
  }

  lemma Sixty(s: int)
    requires 0 <= s < 86400
    ensures s == s / 3600 * 3600 + s / 60 % 60 * 60 + s % 60
  {}

  lemma Seconds(t: int)
    ensures t / SECOND == t / DAY * 86400 + t % DAY / SECOND && 0 <= t % DAY / SECOND < 86400
  {
    var d, r := t / DAY, t % DAY;
    assert t == d * DAY + r;
    Divides(SECOND, d * 86400 + r / SECOND, r % SECOND);
  }

  /** The texts of two instants compare as the instants do, to the second. */
  lemma IsoOrder(t: int, u: int)
    requires Printable4(t) && Printable4(u)
    ensures Less(Iso(t), Iso(u)) <==> t / SECOND < u / SECOND
  {
    hide IsoText, FieldsOf, Less;
    FieldsFollowTime(t, u);
    FieldsFollowTime(u, t);
    if t / SECOND < u / SECOND {
      IsoKeepsOrder(FieldsOf(t), FieldsOf(u));
    } else if u / SECOND < t / SECOND {
      IsoKeepsOrder(FieldsOf(u), FieldsOf(t));
      Utf8.LessAsymmetric(Iso(u), Iso(t));
    } else {
      LessIrreflexive(Iso(t));
    }
  }

  // ---- horizons ------------------------------------------------------------------------------------

  /** The later of an optional end and the end of the period, under one reading. */
  ghost function Until(start: int, years: int, end: Option<int>, reading: Reading): (r: int)
  {
    var ten := YearsAfter(start, years, reading);
    if end.Some? && end.value > ten then end.value else ten
  }

  /** Python's max of the two texts: the first unless the second is greater. */
  function MaxText(a: Text, b: Text): (r: Text) { if Less(a, b) then b else a }

  /** `_horizon`: the later of the two readings. */
  ghost function Latest(start: int, years: int, end: Option<int>): (r: Text)
  {
    MaxText(Iso(Until(start, years, end, Utc)), Iso(Until(start, years, end, EuropeBrussels)))
  }

  /** The text that is greater is the later instant: the horizon is kept under both readings and is one of them. */
  lemma LatestIsLater(start: int, years: int, end: Option<int>)
    requires Printable4(Until(start, years, end, Utc)) && Printable4(Until(start, years, end, EuropeBrussels))
    ensures var a, b := Until(start, years, end, Utc), Until(start, years, end, EuropeBrussels);
      Latest(start, years, end) == Iso(if a >= b then a else b)
  {
    hide Iso, Less, YearsAfter;
    var a, b := Until(start, years, end, Utc), Until(start, years, end, EuropeBrussels);
    IsoOrder(a, b);
    if a / SECOND == b / SECOND { SameSecond(a, b); }
    Floors(a, b);
  }

  /** At t the given end, or the end of the period under one of the two readings, has not come. */
  ghost predicate StillRuns(t: int, start: int, years: int, end: Option<int>)
  {
    || (end.Some? && t < end.value)
    || t < YearsAfter(start, years, Utc)
    || t < YearsAfter(start, years, EuropeBrussels)
  }

  /** What a horizon is: the text of the first instant at which all of them have come. */
  lemma HorizonMeans(start: int, years: int, end: Option<int>)
    requires Printable4(Until(start, years, end, Utc)) && Printable4(Until(start, years, end, EuropeBrussels))
    ensures exists u :: Latest(start, years, end) == Iso(u) && forall t :: t < u <==> StillRuns(t, start, years, end)
  {
    hide Iso, Less, YearsAfter, Latest, Printable4;
    LatestIsLater(start, years, end);
  }

  lemma SameSecond(a: int, b: int)
    requires Printable4(a) && Printable4(b) && a / SECOND == b / SECOND
    ensures Iso(a) == Iso(b)
  {
    hide IsoText, FieldsOf;
    FieldsFollowTime(a, b);
  }

  lemma Floors(a: int, b: int)
    ensures a <= b ==> a / SECOND <= b / SECOND
    ensures b <= a ==> b / SECOND <= a / SECOND
  {}

  // ---- thresholds in two readings ------------------------------------------------------------------

  datatype Net = Net(value: bool) | Depends

  /** `_net` over `at >= day_start(date, reading)`: the answer when both readings agree. */
  ghost function InForce(at: int, date: Date): (r: Net)
    requires ValidDate(date)
  {
    var u, b := at >= DayStart(date, Utc), at >= DayStart(date, EuropeBrussels);
    if u == b then Net.Net(u) else Depends
  }

  /** The readings of a date disagree in one window only: the hours of Brussels' offset before midnight UTC. Before it
      the answer is no under both, after it yes. */
  lemma ReadingsDisagree(at: int, date: Date)
    requires ValidDate(date)
    ensures var start := Ordinal(date) * DAY; var window := DayOffset(Ordinal(date) - 1) * HOUR;
      && window in {HOUR, 2 * HOUR}
      && InForce(at, date) ==
        if at < start - window then Net.Net(false) else if at < start then Depends else Net.Net(true)
  {
    hide Ordinal, OffsetHours, DayStart, Summer;
    DayStartIs(date, Utc);
    DayStartIs(date, EuropeBrussels);
  }
}
