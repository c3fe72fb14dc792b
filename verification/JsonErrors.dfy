/** Why the reader refuses a token: the errors of numbers and of the units of a string, each with its circumstance. */
module JsonErrors {
  import opened Texts
  import opened JsonValues
  import opened JsonGrammar
  import opened JsonSyntax
  import JsonFound
  import JsonText

  /** The character is one of these. */
  predicate OneOf(c: int, chars: string) { exists k :: 0 <= k < |chars| && c == chars[k] as int }

  // ---- numbers -------------------------------------------------------------------------------------

  const NUMBER_CHARS := "+-0123456789.eE"

  lemma NumberChars(c: int)
    ensures IsNumChar(c) <==> OneOf(c, NUMBER_CHARS)
  {
    var s := NUMBER_CHARS;
    if IsNumChar(c) {
      var k := if c == 43 then 0 else if c == 45 then 1 else if c == 46 then 12 else if c == 101 then 13
        else if c == 69 then 14 else c - 48 + 2;
      assert c == s[k] as int;
    }
  }

  /** The token of a number: the longest run of its characters. */
  lemma {:induction false} TokenIs(s: Text, i: nat, e: nat)
    requires i <= e <= |s| && (forall k :: i <= k < e ==> OneOf(s[k], NUMBER_CHARS))
    requires e == |s| || !OneOf(s[e], NUMBER_CHARS)
    ensures NumEnd(s, i) == e
    decreases e - i
  {
    hide OneOf, IsNumChar;
    if i < |s| { NumberChars(s[i]); }
    if i < e { TokenIs(s, i + 1, e); }
  }

  /** Digits without a leading zero, after a minus or not. */
  predicate WholeNumber(tok: Text)
  {
    if tok != [] && tok[0] == '-' as int then Magnitude(tok[1..]) else Magnitude(tok)
  }

  predicate Magnitude(t: Text)
  {
    && t != [] && (forall k :: 0 <= k < |t| ==> '0' as int <= t[k] <= '9' as int)
    && (t[0] == '0' as int ==> |t| == 1)
  }

  lemma MagnitudeIs(t: Text)
    ensures Magnitude(t) <==> t != [] && (forall k :: 0 <= k < |t| ==> IsDigit(t[k])) && (|t| == 1 || t[0] != ZERO)
  {}

  function NumberOf(tok: Text): (n: int)
  {
    if tok != [] && tok[0] == '-' as int then -JsonText.DigitsNumber(tok[1..]) else JsonText.DigitsNumber(tok)
  }

  lemma {:induction false} DigitsAre(t: Text)
    ensures DecimalValue(t) == JsonText.DigitsNumber(t)
  {
    if t != [] { DigitsAre(t[..|t| - 1]); }
  }

  lemma GrammarIs(tok: Text)
    ensures JsonIntGrammar(tok) <==> WholeNumber(tok)
  {
    hide Magnitude;
    assert MINUS == '-' as int;
    if tok == [] {
      MagnitudeIs([]);
    } else if tok[0] == MINUS {
      MagnitudeIs(tok[1..]);
      if JsonIntGrammar(tok) { JsonFound.GrammarMeans(tok); }
    } else {
      MagnitudeIs(tok);
      if JsonIntGrammar(tok) { JsonFound.GrammarMeans(tok); }
    }
  }

  /** What a token of a number comes to: nothing there; a float; no integer of JSON; beyond 64 bits; beyond what every
      reader can hold; or the integer. */
  lemma NumberMeans(tok: Text)
    ensures NumberToken(tok) ==
      if tok == [] then Some(BadNumber)
      else if exists c :: c in tok && OneOf(c, ".eE") then Some(FloatNumber)
      else if !WholeNumber(tok) then Some(NotJsonInt)
      else if NumberOf(tok) < -0x8000_0000_0000_0000 || NumberOf(tok) > 0x7fff_ffff_ffff_ffff then Some(BadInt)
      else if NumberOf(tok) < -0x1f_ffff_ffff_ffff || NumberOf(tok) > 0x1f_ffff_ffff_ffff then Some(OutOfRange)
      else None
    ensures NumberToken(tok) == None ==> IntValue(tok) == NumberOf(tok)
  {
    hide DecimalValue, JsonText.DigitsNumber, OneOf, HasFloatMark;
    assert MAX_SAFE_INT == 0x1f_ffff_ffff_ffff;
    FloatMarks(tok);
    DigitsAre(tok);
    if tok != [] { DigitsAre(tok[1..]); }
    assert IntValue(tok) == NumberOf(tok);
    GrammarIs(tok);
    assert HasFloatMark(tok) <==> exists c :: c in tok && OneOf(c, ".eE");
    assert -0x8000_0000_0000_0000 <= IntValue(tok) < 0x8000_0000_0000_0000 <==>
      !(NumberOf(tok) < -0x8000_0000_0000_0000 || NumberOf(tok) > 0x7fff_ffff_ffff_ffff);
  }

  lemma FloatMarks(tok: Text)
    ensures HasFloatMark(tok) <==> exists c :: c in tok && OneOf(c, ".eE")
  {
    forall c ensures OneOf(c, ".eE") <==> c == 46 || c == 101 || c == 69 { ThreeMarks(c); }
    hide OneOf;
    if HasFloatMark(tok) {
      var k :| 0 <= k < |tok| && (tok[k] == 46 || tok[k] == 101 || tok[k] == 69);
      assert tok[k] in tok;
    }
  }

  lemma ThreeMarks(c: int)
    ensures OneOf(c, ".eE") <==> c == 46 || c == 101 || c == 69
  {
    var s := ".eE";
    assert s[0] as int == 46 && s[1] as int == 101 && s[2] as int == 69;
  }

  // ---- strings -------------------------------------------------------------------------------------

  /** Four hexadecimal digits of n stand at i. */
  ghost predicate HexAt(s: Text, i: nat, n: int) { i + 4 <= |s| && FourDigits(s[i..i + 4], n) }

  lemma HexMeans(s: Text, i: nat, n: int)
    ensures Hex4(s, i) == Some(n) <==> HexAt(s, i, n)
  {
    hide FourDigits;
    if i + 4 <= |s| { FourMean(s[i], s[i + 1], s[i + 2], s[i + 3], n, s[i..i + 4]); }
  }

  lemma DigitMeans(c: int, v: int)
    ensures IsHexDigit(c) && HexDigit(c) == v <==> DigitOf(c, v)
  {
    if IsHexDigit(c) && HexDigit(c) == v {
      assert c == LOWER_DIGITS[v] as int || c == UPPER_DIGITS[v] as int;
    }
  }

  lemma FourMean(a: int, b: int, c: int, d: int, n: int, ds: Text)
    requires ds == [a, b, c, d]
    ensures IsHexDigit(a) && IsHexDigit(b) && IsHexDigit(c) && IsHexDigit(d)
      && ((HexDigit(a) * 16 + HexDigit(b)) * 16 + HexDigit(c)) * 16 + HexDigit(d) == n
      <==> FourDigits(ds, n)
  {
    hide HexDigit, IsHexDigit, DigitOf;
    forall x, v ensures IsHexDigit(x) && HexDigit(x) == v <==> DigitOf(x, v) { DigitMeans(x, v); }
    if IsHexDigit(a) && IsHexDigit(b) && IsHexDigit(c) && IsHexDigit(d) {
      Places(HexDigit(a), HexDigit(b), HexDigit(c), HexDigit(d));
    }
    if FourDigits(ds, n) {
      Places(n / 4096, n / 256 % 16, n / 16 % 16, n % 16);
      Rebuilt(n);
    }
  }

  lemma Places(a: int, b: int, c: int, d: int)
    requires 0 <= a < 16 && 0 <= b < 16 && 0 <= c < 16 && 0 <= d < 16
    ensures var n := ((a * 16 + b) * 16 + c) * 16 + d;
      0 <= n < 0x10000 && n / 4096 == a && n / 256 % 16 == b && n / 16 % 16 == c && n % 16 == d
  {}

  lemma Rebuilt(n: int)
    requires 0 <= n < 0x10000
    ensures ((n / 4096 * 16 + n / 256 % 16) * 16 + n / 16 % 16) * 16 + n % 16 == n
  {}

  /** A `\u` escape stands at i, with four digits or without. */
  predicate EscapeAt(s: Text, i: nat) { i + 1 < |s| && s[i] == '\\' as int && s[i + 1] == 'u' as int }

  ghost predicate NoHexAt(s: Text, i: nat) { forall n :: !HexAt(s, i, n) }

  /** A surrogate escape without its partner: a low one, or a high one that no `\u` follows, or one that does not stand
      for a low one. */
  ghost predicate Lone(s: Text, i: nat)
  {
    LowAt(s, i + 2) || (HighAt(s, i + 2) && (!EscapeAt(s, i + 6) || OtherAt(s, i + 8)))
  }

  ghost predicate HighAt(s: Text, i: nat) { exists n :: HexAt(s, i, n) && 0xD800 <= n <= 0xDBFF }

  ghost predicate LowAt(s: Text, i: nat) { exists n :: HexAt(s, i, n) && 0xDC00 <= n <= 0xDFFF }

  ghost predicate OtherAt(s: Text, i: nat) { exists n :: HexAt(s, i, n) && !(0xDC00 <= n <= 0xDFFF) }

  /** Why a unit of a string is refused, in either mode: the strict reader alone refuses an unpaired surrogate. */
  lemma UnitErrors(s: Text, i: nat, m: Mode)
    requires i < |s|
    ensures StringUnit(s, i, m) == Fail(ControlCharacter) <==> s[i] < ' ' as int
    ensures StringUnit(s, i, m) == Fail(BadEscape) <==>
      s[i] == '\\' as int && (i + 1 == |s| || !OneOf(s[i + 1], "\"\\/bfnrtu"))
    ensures StringUnit(s, i, m) == Fail(BadUnicode) <==>
      EscapeAt(s, i)
      && (NoHexAt(s, i + 2) || (HighAt(s, i + 2) && EscapeAt(s, i + 6) && NoHexAt(s, i + 8)))
    ensures StringUnit(s, i, m) == Fail(LoneSurrogate) <==> m.strict && EscapeAt(s, i) && Lone(s, i)
    ensures StringUnit(s, i, m).Fail? ==>
      StringUnit(s, i, m).e in {ControlCharacter, BadEscape, BadUnicode, LoneSurrogate}
  {
    hide Hex4, HexAt, Pair, OneOf, SimpleEscape;
    forall k, n ensures Hex4(s, k) == Some(n) <==> HexAt(s, k, n) { HexMeans(s, k, n); }
    assert forall k :: NoHexAt(s, k) <==> Hex4(s, k) == None by {
      forall k ensures NoHexAt(s, k) <==> Hex4(s, k) == None {
        if Hex4(s, k).Some? { assert HexAt(s, k, Hex4(s, k).value); }
      }
    }
    if i + 1 < |s| { Letters(s[i + 1]); }
  }

  lemma Letters(e: int)
    ensures SimpleEscape(e).Some? || e == LOWER_U <==> OneOf(e, "\"\\/bfnrtu")
  {
    var s := "\"\\/bfnrtu";
    assert s[0] as int == 34 && s[1] as int == 92 && s[2] as int == 47 && s[3] as int == 98 && s[4] as int == 102
      && s[5] as int == 110 && s[6] as int == 114 && s[7] as int == 116 && s[8] as int == 117;
  }
}
