/** The texts both timestamp tests accept, spelled out: a date that exists, a time of day, a fraction of one to nine
    digits if any, and Z or an offset below a day (RFC 3339, section 5.6, with capital letters and no leap second).
    The text a horizon is printed as is one of them and reads back as the instant, to the second. */
module InstantTexts {
  import opened Texts
  import opened JsonGrammar
  import opened Instants
  import opened Calendar
  import opened Brussels
  import opened Horizons

  /** The nineteen characters of a date and a time. */
  function Stamp(f: Fields): (r: Text)
  {
    Pad(f.date.y, 4) + ['-' as int] + Pad(f.date.m, 2) + ['-' as int] + Pad(f.date.d, 2) + ['T' as int]
    + Pad(f.h, 2) + [':' as int] + Pad(f.mi, 2) + [':' as int] + Pad(f.s, 2)
  }

  /** A time of a day that exists in the calendar, in a year of four digits. */
  predicate OnTheClock(f: Fields)
  {
    && ValidDate(f.date) && 0 <= f.date.y <= 9999 && 0 <= f.h <= 23 && 0 <= f.mi <= 59 && 0 <= f.s <= 59
  }

  /** Nothing, or a point and one to nine digits. */
  predicate IsFraction(t: Text)
  {
    t == [] || (2 <= |t| <= 10 && t[0] == '.' as int && forall k :: 1 <= k < |t| ==> IsDigit(t[k]))
  }

  /** An offset of h hours and m minutes, east of UTC or west. */
  function Offset(sign: int, h: int, m: int): (r: Text) { [sign] + Pad(h, 2) + [':' as int] + Pad(m, 2) }

  ghost predicate IsZone(t: Text)
  {
    t == Lit("Z")
    || exists sign, h, m :: sign in {'+' as int, '-' as int} && 0 <= h <= 23 && 0 <= m <= 59 && t == Offset(sign, h, m)
  }

  /** The parts of an instant. */
  ghost predicate WrittenAs(t: Text, f: Fields, fraction: Text, zone: Text)
  {
    OnTheClock(f) && IsFraction(fraction) && IsZone(zone) && t == Stamp(f) + fraction + zone
  }

  // ---- digits --------------------------------------------------------------------------------------

  lemma TwoDigits(n: int)
    requires 0 <= n <= 99
    ensures Pad(n, 2) == [48 + n / 10, 48 + n % 10]
  {
    assert n / 10 % 10 == n / 10;
    assert Pad(n / 10, 1) == Pad(n / 10 / 10, 0) + [48 + n / 10];
  }

  lemma FourDigits(n: int)
    requires 0 <= n <= 9999
    ensures Pad(n, 4) == Pad(n / 100, 2) + Pad(n % 100, 2)
  {
    assert n / 10 / 10 == n / 100 && n % 100 / 10 == n / 10 % 10 && n % 100 % 10 == n % 10;
    TwoDigits(n / 100);
    TwoDigits(n % 100);
    assert Pad(n / 10, 3) == Pad(n / 10 / 10, 2) + [48 + n / 10 % 10];
  }

  /** Two digits are the number they are read as. */
  lemma ReadTwo(s: Text, i: nat)
    requires i + 2 <= |s| && Digits(s, i, i + 2)
    ensures 0 <= Two(s, i) <= 99 && s[i..i + 2] == Pad(Two(s, i), 2)
  {
    assert IsDigit(s[i]) && IsDigit(s[i + 1]);
    TwoDigits(Two(s, i));
  }

  /** And a number written in two digits is read as itself. */
  lemma WrittenTwo(s: Text, i: nat, n: int)
    requires i + 2 <= |s| && 0 <= n <= 99 && s[i..i + 2] == Pad(n, 2)
    ensures Digits(s, i, i + 2) && Two(s, i) == n
  {
    TwoDigits(n);
    assert s[i] == s[i..i + 2][0] && s[i + 1] == s[i..i + 2][1];
  }

  // ---- the date and the time -----------------------------------------------------------------------

  /** The fields the digits of a text stand for. */
  function ReadFields(s: Text): (f: Fields)
    requires |s| >= 19
  {
    Fields(Date(Two(s, 0) * 100 + Two(s, 2), Two(s, 5), Two(s, 8)), Two(s, 11), Two(s, 14), Two(s, 17))
  }

  /** A text starts with a date and a time of the right shape and fields exactly when it starts with those of its
      fields. */
  lemma StampRead(s: Text)
    requires |s| >= 19 && DateTimeShape(s)
    ensures s[..19] == Stamp(ReadFields(s))
  {
    hide Pad, Two;
    var y := Two(s, 0) * 100 + Two(s, 2);
    assert Digits(s, 0, 2) && Digits(s, 2, 4);
    ReadTwo(s, 0);
    ReadTwo(s, 2);
    ReadTwo(s, 5);
    ReadTwo(s, 8);
    ReadTwo(s, 11);
    ReadTwo(s, 14);
    ReadTwo(s, 17);
    FourDigits(y);
    assert y / 100 == Two(s, 0) && y % 100 == Two(s, 2);
    assert s[..19] == s[0..2] + s[2..4] + [s[4]] + s[5..7] + [s[7]] + s[8..10] + [s[10]] + s[11..13] + [s[13]]
      + s[14..16] + [s[16]] + s[17..19];
  }

  lemma StampLength(f: Fields)
    requires OnTheClock(f)
    ensures |Stamp(f)| == 19
  {
    hide Pad, DaysInMonth;
    StampDigits(f);
  }

  lemma StampDigits(f: Fields)
    requires OnTheClock(f)
    ensures |Pad(f.date.y, 4)| == 4 && |Pad(f.date.m, 2)| == 2 && |Pad(f.date.d, 2)| == 2
    ensures |Pad(f.h, 2)| == 2 && |Pad(f.mi, 2)| == 2 && |Pad(f.s, 2)| == 2
  {
    hide Pad;
    FourDigits(f.date.y);
    TwoDigits(f.date.y / 100);
    TwoDigits(f.date.y % 100);
    TwoDigits(f.date.m);
    SomeDays(f.date.y, f.date.m);
    TwoDigits(f.date.d);
    TwoDigits(f.h);
    TwoDigits(f.mi);
    TwoDigits(f.s);
  }

  lemma StampWritten(s: Text, f: Fields)
    requires |s| >= 19 && OnTheClock(f) && s[..19] == Stamp(f)
    ensures DateTimeShape(s) && ReadFields(s) == f && FieldsExist(s)
  {
    hide Pad, Two, Digits;
    StampDigits(f);
    SomeDays(f.date.y, f.date.m);
    FourDigits(f.date.y);
    TwoDigits(f.date.y / 100);
    TwoDigits(f.date.y % 100);
    var t := Stamp(f);
    assert forall k :: 0 <= k < 19 ==> s[k] == t[k];
    assert t[4] == MINUS && t[7] == MINUS && t[10] == LETTER_T && t[13] == COLON && t[16] == COLON;
    PieceOf(s, t, 0, 2, Pad(f.date.y / 100, 2));
    PieceOf(s, t, 2, 4, Pad(f.date.y % 100, 2));
    PieceOf(s, t, 5, 7, Pad(f.date.m, 2));
    PieceOf(s, t, 8, 10, Pad(f.date.d, 2));
    PieceOf(s, t, 11, 13, Pad(f.h, 2));
    PieceOf(s, t, 14, 16, Pad(f.mi, 2));
    PieceOf(s, t, 17, 19, Pad(f.s, 2));
    WrittenTwo(s, 0, f.date.y / 100);
    WrittenTwo(s, 2, f.date.y % 100);
    WrittenTwo(s, 5, f.date.m);
    WrittenTwo(s, 8, f.date.d);
    WrittenTwo(s, 11, f.h);
    WrittenTwo(s, 14, f.mi);
    WrittenTwo(s, 17, f.s);
    JoinDigits(s);
  }

  lemma PieceOf(s: Text, t: Text, i: nat, j: nat, p: Text)
    requires i <= j <= |t| <= |s| && (forall k :: 0 <= k < |t| ==> s[k] == t[k]) && t[i..j] == p
    ensures s[i..j] == p
  {}

  lemma JoinDigits(s: Text)
    requires |s| >= 4 && Digits(s, 0, 2) && Digits(s, 2, 4)
    ensures Digits(s, 0, 4)
  {}

  // ---- the rest ------------------------------------------------------------------------------------

  lemma LitZ()
    ensures Lit("Z") == [LETTER_Z]
  {}

  /** What follows place j is a zone whose numbers are in range exactly when it is the text of one. */
  lemma ZoneRead(s: Text, j: nat)
    requires 19 <= j <= |s|
    ensures IsZone(s[j..]) <==>
      ZoneAt(s, j) && (s[|s| - 1] == LETTER_Z || (Two(s, |s| - 5) <= 23 && Two(s, |s| - 2) <= 59))
  {
    hide Pad, Two;
    LitZ();
    var z := s[j..];
    assert forall k :: 0 <= k < |z| ==> z[k] == s[j + k];
    if j + 1 == |s| {
      assert z == [s[j]];
      if IsZone(z) && z != Lit("Z") { OffsetIsSix(z); }
    } else if j + 6 == |s| {
      SixIsOffset(s, j, z);
    } else if IsZone(z) {
      OffsetIsSix(z);
      assert |z| == |s| - j;
    }
  }

  lemma OffsetIsSix(z: Text)
    requires IsZone(z) && z != Lit("Z")
    ensures |z| == 6
  {
    hide Pad;
    var sign, h, m :| sign in {'+' as int, '-' as int} && 0 <= h <= 23 && 0 <= m <= 59 && z == Offset(sign, h, m);
    TwoDigits(h);
    TwoDigits(m);
  }

  lemma SixIsOffset(s: Text, j: nat, z: Text)
    requires 19 <= j && j + 6 == |s| && z == s[j..]
    ensures IsZone(z) <==>
      ZoneAt(s, j) && (s[|s| - 1] == LETTER_Z || (Two(s, |s| - 5) <= 23 && Two(s, |s| - 2) <= 59))
  {
    hide Pad, Two;
    LitZ();
    assert forall k :: 0 <= k < 6 ==> z[k] == s[j + k];
    if ZoneAt(s, j) {
      ReadTwo(s, j + 1);
      ReadTwo(s, j + 4);
      assert IsDigit(s[j + 5]);
      var sign, h, m := s[j], Two(s, j + 1), Two(s, j + 4);
      assert z == [s[j]] + s[j + 1..j + 3] + [s[j + 3]] + s[j + 4..j + 6];
      assert z == Offset(sign, h, m);
      if IsZone(z) { OffsetNumbers(s, j, z); }
    } else if IsZone(z) {
      OffsetNumbers(s, j, z);
    }
  }

  lemma OffsetNumbers(s: Text, j: nat, z: Text)
    requires j + 6 == |s| && z == s[j..] && IsZone(z)
    ensures ZoneAt(s, j) && Two(s, j + 1) <= 23 && Two(s, j + 4) <= 59
  {
    hide Pad, Two;
    LitZ();
    var sign, h, m :| sign in {'+' as int, '-' as int} && 0 <= h <= 23 && 0 <= m <= 59 && z == Offset(sign, h, m);
    TwoDigits(h);
    TwoDigits(m);
    assert forall k :: 0 <= k < 6 ==> z[k] == s[j + k];
    assert s[j + 1..j + 3] == Pad(h, 2) && s[j + 4..j + 6] == Pad(m, 2);
    WrittenTwo(s, j + 1, h);
    WrittenTwo(s, j + 4, m);
  }

  lemma FractionRead(s: Text, j: nat)
    requires 19 <= j <= |s|
    ensures IsFraction(s[19..j]) <==> j == 19 || (21 <= j <= 29 && s[19] == DOT && Digits(s, 20, j))
  {
    var t := s[19..j];
    assert forall k :: 0 <= k < |t| ==> t[k] == s[19 + k];
    if IsFraction(t) && j > 19 {
      forall k | 20 <= k < j ensures IsDigit(s[k]) { assert t[k - 19] == s[k]; }
    }
  }

  // ---- the instants --------------------------------------------------------------------------------

  lemma ShapeSplits(s: Text)
    requires |s| >= 19 && DateTimeShape(s)
    ensures InstantShape(s) <==> exists j :: 19 <= j <= |s| && IsFraction(s[19..j]) && ZoneAt(s, j)
  {
    hide DateTimeShape, ZoneAt, IsFraction, Digits;
    if InstantShape(s) {
      if ZoneAt(s, 19) {
        FractionRead(s, 19);
      } else {
        var f :| 1 <= f <= 9 && FractionOf(s, f);
        FractionRead(s, 20 + f);
      }
    }
    forall j | 19 <= j <= |s| && IsFraction(s[19..j]) && ZoneAt(s, j) ensures InstantShape(s) {
      FractionRead(s, j);
      if j > 19 { assert FractionOf(s, j - 20); }
    }
  }

  /** What the tests accept: the text of a time of a day that exists, with a fraction and a zone. Its fields are the
      ones the digits stand for. */
  lemma InstantMeans(s: Text)
    ensures PyInstant(s) <==> exists f, fraction, zone :: WrittenAs(s, f, fraction, zone)
  {
    hide DateTimeShape, ZoneAt, IsFraction, IsZone, Stamp, Two, InstantShape, FieldsExist;
    if PyInstant(s) {
      InstantSplits(s);
    }
    forall f, fraction, zone | WrittenAs(s, f, fraction, zone) ensures PyInstant(s) {
      PartsJoin(s, f, fraction, zone);
    }
  }

  lemma InstantSplits(s: Text)
    requires PyInstant(s)
    ensures exists f, fraction, zone :: WrittenAs(s, f, fraction, zone)
  {
    hide DateTimeShape, ZoneAt, IsFraction, IsZone, Stamp, Digits;
    assert DateTimeShape(s) && |s| >= 19 by { ShapeStarts(s); }
    ShapeSplits(s);
    var j :| 19 <= j <= |s| && IsFraction(s[19..j]) && ZoneAt(s, j);
    ZoneRead(s, j);
    StampRead(s);
    FieldsRead(s);
    assert s == s[..19] + s[19..j] + s[j..];
    assert WrittenAs(s, ReadFields(s), s[19..j], s[j..]);
  }

  lemma ShapeStarts(s: Text)
    requires InstantShape(s)
    ensures |s| >= 19 && DateTimeShape(s)
  {}

  lemma FieldsRead(s: Text)
    requires |s| >= 19 && DateTimeShape(s) && FieldsExist(s)
    ensures OnTheClock(ReadFields(s))
  {
    hide Two, DaysInMonth;
    assert Digits(s, 0, 2) && Digits(s, 2, 4);
    ReadTwo(s, 0);
    ReadTwo(s, 2);
    ReadTwo(s, 11);
    ReadTwo(s, 14);
    ReadTwo(s, 17);
  }

  lemma PartsJoin(s: Text, f: Fields, fraction: Text, zone: Text)
    requires WrittenAs(s, f, fraction, zone)
    ensures PyInstant(s) && |s| >= 19 && ReadFields(s) == f
  {
    hide DateTimeShape, ZoneAt, IsFraction, IsZone, Stamp, Two, OnTheClock, InstantShape, FieldsExist;
    StampLength(f);
    var j := 19 + |fraction|;
    assert s[..19] == Stamp(f) && s[19..j] == fraction && s[j..] == zone;
    StampWritten(s, f);
    ZoneRead(s, j);
    ShapeSplits(s);
  }

  /** The text of an instant is accepted, and its digits read back as the fields of the instant; read back through the
      calendar these are the instant, to the second. */
  lemma IsoReads(t: int)
    requires Printable4(t)
    ensures |Iso(t)| >= 19 && PyInstant(Iso(t)) && RustInstant(Iso(t))
    ensures WrittenAs(Iso(t), FieldsOf(t), [], Lit("+00:00"))
    ensures var f := ReadFields(Iso(t));
      ValidDate(f.date)
      && t / SECOND == Ordinal(f.date) * 86400 + f.h * 3600 + f.mi * 60 + f.s
  {
    hide Pad, Ordinal, ValidDate, DaysInMonth, Stamp, IsFraction, IsZone, PyInstant, RustInstant, OnTheClock, IsoText,
      ReadFields;
    var f := FieldsOf(t);
    FieldsFollowTime(t, t);
    Fits(f);
    IsoIsStamp(f);
    UtcZone();
    NoFraction();
    var text := Iso(t);
    assert text == Stamp(f) + [] + Lit("+00:00");
    PartsJoin(text, f, [], Lit("+00:00"));
    InstantsAgree(text);
    Seconds(t);
    Sixty(t % DAY / SECOND);
    DateExists(t / DAY);
  }

  lemma Fits(f: Fields)
    requires FieldsFit(f)
    ensures OnTheClock(f)
  {}

  lemma IsoIsStamp(f: Fields)
    ensures IsoText(f) == Stamp(f) + Lit("+00:00")
  {}

  lemma NoFraction()
    ensures IsFraction([])
  {}

  lemma UtcZone()
    ensures IsZone(Lit("+00:00"))
  {
    TwoDigits(0);
    assert Lit("+00:00") == Offset(PLUS, 0, 0);
  }
}
