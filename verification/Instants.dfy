/** The instants a signature or a tip may be dated with: signing.py `is_instant` (a regular expression and
    field ranges) and main.rs `is_instant` (a hand-written scan), and their agreement on every text. */
module Instants {
  import opened Texts
  import opened JsonGrammar

  const LETTER_T := 84
  const LETTER_Z := 90
  const PLUS := 43
  const DOT := 46

  predicate Digits(s: Text, i: nat, j: nat)
    requires i <= j <= |s|
  {
    forall k :: i <= k < j ==> IsDigit(s[k])
  }

  function Two(s: Text, i: nat): (r: int)
    requires i + 2 <= |s|
  {
    (s[i] - 48) * 10 + (s[i + 1] - 48)
  }

  predicate IsLeap(y: int) { (y % 4 == 0 && y % 100 != 0) || y % 400 == 0 }

  function DaysInMonth(y: int, m: int): (r: int)
    requires 1 <= m <= 12
  {
    [31, if IsLeap(y) then 29 else 28, 31, 30, 31, 30, 31, 31, 30, 31, 30, 31][m - 1]
  }

  // ---- signing.py ----------------------------------------------------------------------------------

  /** YYYY-MM-DDThh:mm:ss */
  predicate DateTimeShape(s: Text)
  {
    && |s| >= 19
    && Digits(s, 0, 4) && s[4] == MINUS && Digits(s, 5, 7) && s[7] == MINUS && Digits(s, 8, 10)
    && s[10] == LETTER_T
    && Digits(s, 11, 13) && s[13] == COLON && Digits(s, 14, 16) && s[16] == COLON && Digits(s, 17, 19)
  }

  /** Z or an offset, up to the end. */
  predicate ZoneAt(s: Text, j: nat)
  {
    || (j + 1 == |s| && s[j] == LETTER_Z)
    || (j + 6 == |s| && (s[j] == PLUS || s[j] == MINUS) && Digits(s, j + 1, j + 3) && s[j + 3] == COLON
        && Digits(s, j + 4, j + 6))
  }

  /** The regular expression as a match of the whole text: one to nine digits of a second, if any. */
  predicate InstantShape(s: Text)
  {
    && DateTimeShape(s)
    && (ZoneAt(s, 19) || (|s| > 19 && s[19] == DOT && exists f :: 1 <= f <= 9 && FractionOf(s, f)))
  }

  predicate FractionOf(s: Text, f: nat)
  {
    20 + f <= |s| && Digits(s, 20, 20 + f) && ZoneAt(s, 20 + f)
  }

  predicate FieldsExist(s: Text)
    requires |s| >= 19
  {
    var y, mo, d := Two(s, 0) * 100 + Two(s, 2), Two(s, 5), Two(s, 8);
    1 <= mo <= 12 && 1 <= d <= DaysInMonth(y, mo) && Two(s, 11) <= 23 && Two(s, 14) <= 59 && Two(s, 17) <= 59
  }

  /** signing.py `is_instant`. The offset is read from the end of the text. */
  predicate PyInstant(s: Text)
  {
    && InstantShape(s)
    && FieldsExist(s)
    && (s[|s| - 1] == LETTER_Z || (Two(s, |s| - 5) <= 23 && Two(s, |s| - 2) <= 59))
  }

  // ---- main.rs -------------------------------------------------------------------------------------

  function CountDigits(s: Text): (n: nat)
    ensures n <= |s|
  {
    if s == [] || !IsDigit(s[0]) then 0 else 1 + CountDigits(s[1..])
  }

  /** `fold(0, |v, c| v * 10 + (c - '0'))` over a range of bytes. */
  function Fold(s: Text, i: nat, j: nat): (r: int)
    requires i <= j <= |s|
  {
    if i == j then 0 else Fold(s, i, j - 1) * 10 + (s[j - 1] - 48)
  }

  /** What is left after the seconds and their fraction. */
  function ZoneText(s: Text): (r: Option<Text>)
    requires |s| >= 20
  {
    if s[19] == DOT then
      var r := s[20..];
      var n := CountDigits(r);
      if n == 0 || n > 9 then None else Some(r[n..])
    else Some(s[19..])
  }

  predicate ZoneShape(r: Text)
  {
    || r == [LETTER_Z]
    || (|r| == 6 && (r[0] == PLUS || r[0] == MINUS) && Digits(r, 1, 3) && r[3] == COLON && Digits(r, 4, 6))
  }

  /** main.rs `is_instant`, with its early returns. */
  predicate RustInstant(s: Text)
  {
    if exists k :: 0 <= k < |s| && !(0 <= s[k] < 0x80) then false
    else if |s| < 20 || s[4] != MINUS || s[7] != MINUS || s[10] != LETTER_T || s[13] != COLON || s[16] != COLON then
      false
    else if !(Digits(s, 0, 4) && Digits(s, 5, 7) && Digits(s, 8, 10) && Digits(s, 11, 13) && Digits(s, 14, 16)
              && Digits(s, 17, 19))
      then false
    else
      var rest := ZoneText(s);
      if rest.None? || !ZoneShape(rest.value) then false
      else
        var y, mo, d := Fold(s, 0, 4), Fold(s, 5, 7), Fold(s, 8, 10);
        if mo < 1 || mo > 12 || d < 1 || d > DaysInMonth(y, mo) then false
        else if Fold(s, 11, 13) > 23 || Fold(s, 14, 16) > 59 || Fold(s, 17, 19) > 59 then false
        else rest.value == [LETTER_Z] || (Fold(rest.value, 1, 3) <= 23 && Fold(rest.value, 4, 6) <= 59)
  }

  // ---- agreement -----------------------------------------------------------------------------------

  lemma FoldTwo(s: Text, i: nat)
    requires i + 2 <= |s|
    ensures Fold(s, i, i + 2) == Two(s, i)
  {
    assert Fold(s, i, i) == 0;
    assert Fold(s, i, i + 1) == s[i] - 48;
  }

  lemma FoldFour(s: Text, i: nat)
    requires i + 4 <= |s|
    ensures Fold(s, i, i + 4) == Two(s, i) * 100 + Two(s, i + 2)
  {
    FoldTwo(s, i);
    assert Fold(s, i, i + 3) == Two(s, i) * 10 + (s[i + 2] - 48);
    assert Fold(s, i, i + 4) == Fold(s, i, i + 3) * 10 + (s[i + 3] - 48);
  }

  lemma {:induction false} CountStops(r: Text)
    ensures forall k :: 0 <= k < CountDigits(r) ==> IsDigit(r[k])
    ensures CountDigits(r) < |r| ==> !IsDigit(r[CountDigits(r)])
  {
    if r != [] && IsDigit(r[0]) {
      CountStops(r[1..]);
      assert forall k :: 1 <= k < CountDigits(r) ==> r[k] == r[1..][k - 1];
    }
  }

  lemma ZoneTextAt(s: Text, j: nat)
    requires j <= |s|
    ensures ZoneShape(s[j..]) <==> ZoneAt(s, j)
  {
    var r := s[j..];
    assert |r| == |s| - j && forall k :: 0 <= k < |r| ==> r[k] == s[j + k];
    if r == [LETTER_Z] { assert s[j] == r[0]; }
    if ZoneAt(s, j) && j + 1 == |s| { assert r == [r[0]]; }
  }

  /** Digits run up to a place that is not a digit in one way only. */
  lemma OneRun(s: Text, r: Text, n: nat, f: nat)
    requires |s| >= 20 && r == s[20..] && n <= |r| && FractionOf(s, f)
    requires (forall k :: 0 <= k < n ==> IsDigit(r[k])) && (n < |r| ==> !IsDigit(r[n]))
    ensures n == f
  {
    assert 20 + f < |s| && r[f] == s[20 + f] && !IsDigit(r[f]);
    assert n < |r| ==> !IsDigit(s[20 + n]);
  }

  /** The scan finds a zone exactly where the expression matches one. */
  lemma ZonesAgree(s: Text)
    requires DateTimeShape(s) && |s| >= 20
    ensures InstantShape(s) <==> ZoneText(s).Some? && ZoneShape(ZoneText(s).value)
  {
    hide DateTimeShape;
    if s[19] == DOT {
      var r := s[20..];
      var n := CountDigits(r);
      CountStops(r);
      assert forall k :: 0 <= k < |r| ==> r[k] == s[20 + k];
      assert r[n..] == s[20 + n..];
      ZoneTextAt(s, 20 + n);
      if 1 <= n <= 9 && ZoneAt(s, 20 + n) { assert FractionOf(s, n); }
      forall f | 1 <= f <= 9 && FractionOf(s, f) ensures f == n {
        assert forall k :: 20 <= k < 20 + f ==> IsDigit(s[k]);
        OneRun(s, r, n, f);
      }
    } else {
      ZoneTextAt(s, 19);
    }
  }

  lemma ShapeIsAscii(s: Text)
    requires InstantShape(s)
    ensures forall k :: 0 <= k < |s| ==> 0 <= s[k] < 0x80
    ensures |s| >= 20
  {
    if ZoneAt(s, 19) {
      HeadIsAscii(s, 19);
    } else {
      var f :| 1 <= f <= 9 && FractionOf(s, f);
      HeadIsAscii(s, 20 + f);
    }
  }

  lemma HeadIsAscii(s: Text, j: nat)
    requires DateTimeShape(s) && ZoneAt(s, j) && (j == 19 || (j > 20 && s[19] == DOT && Digits(s, 20, j)))
    ensures forall k :: 0 <= k < |s| ==> 0 <= s[k] < 0x80
  {
    forall k | 0 <= k < |s| ensures 0 <= s[k] < 0x80 {}
  }

  lemma OffsetAgrees(s: Text, j: nat)
    requires j <= |s| && ZoneAt(s, j) && |s| >= 19
    ensures s[j..] == [LETTER_Z] <==> s[|s| - 1] == LETTER_Z
    ensures s[|s| - 1] != LETTER_Z ==>
      |s[j..]| == 6 && Fold(s[j..], 1, 3) == Two(s, |s| - 5) && Fold(s[j..], 4, 6) == Two(s, |s| - 2)
  {
    var r := s[j..];
    if j + 1 == |s| {
      assert r == [s[j]];
    } else {
      assert |r| == 6 && r[5] == s[|s| - 1] && IsDigit(s[|s| - 1]);
      FoldTwo(r, 1);
      FoldTwo(r, 4);
    }
  }

  /** The two implementations date the same texts. */
  lemma InstantsAgree(s: Text)
    ensures PyInstant(s) <==> RustInstant(s)
  {
    hide ZoneAt, ZoneShape, FractionOf, Fold, Two, DaysInMonth;
    if InstantShape(s) { ShapeIsAscii(s); }
    if |s| >= 20 && DateTimeShape(s) {
      ZonesAgree(s);
      FoldTwo(s, 5);
      FoldTwo(s, 8);
      FoldTwo(s, 11);
      FoldTwo(s, 14);
      FoldTwo(s, 17);
      FoldFour(s, 0);
      if ZoneText(s).Some? && ZoneShape(ZoneText(s).value) { ZoneIsOffset(s); }
    }
  }

  lemma ZoneIsOffset(s: Text)
    requires |s| >= 20 && ZoneText(s).Some? && ZoneShape(ZoneText(s).value)
    ensures var r := ZoneText(s).value;
      && (r == [LETTER_Z] <==> s[|s| - 1] == LETTER_Z)
      && (s[|s| - 1] != LETTER_Z ==> |r| == 6 && Fold(r, 1, 3) == Two(s, |s| - 5) && Fold(r, 4, 6) == Two(s, |s| - 2))
  {
    var j := if s[19] == DOT then 20 + CountDigits(s[20..]) else 19;
    assert ZoneText(s).value == s[j..];
    ZoneTextAt(s, j);
    OffsetAgrees(s, j);
  }
}
