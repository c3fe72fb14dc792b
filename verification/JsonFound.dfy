/** Everything the strict reader accepts was written as a syntax tree of the profile. With JsonReads: it accepts exactly
    these texts. */
module JsonFound {
  import opened Texts
  import opened JsonValues
  import opened JsonGrammar
  import opened JsonPrinter
  import opened JsonRoundTrip
  import opened JsonSyntax
  import opened JsonReads
  import JsonStructure

  // ---- white space and strings ---------------------------------------------------------------------

  lemma {:induction false} WsFound(s: Text, i: nat)
    requires i <= |s|
    ensures Blank(s[i..SkipWs(s, i)])
    decreases |s| - i
  {
    if i < |s| && IsWs(s[i]) {
      WsFound(s, i + 1);
      assert s[i..SkipWs(s, i)] == [s[i]] + s[i + 1..SkipWs(s, i + 1)];
    }
  }

  lemma DigitFound(c: int)
    requires IsHexDigit(c)
    ensures DigitOf(c, HexDigit(c))
  {
    var v := HexDigit(c);
    LowerTable(v);
    UpperTable(v);
  }

  lemma DigitsOfNumber(a: int, b: int, c: int, d: int)
    requires 0 <= a < 16 && 0 <= b < 16 && 0 <= c < 16 && 0 <= d < 16
    ensures var n := ((a * 16 + b) * 16 + c) * 16 + d;
      0 <= n < 0x10000 && n / 4096 == a && n / 256 % 16 == b && n / 16 % 16 == c && n % 16 == d
  {
    var n := ((a * 16 + b) * 16 + c) * 16 + d;
    assert n / 16 == (a * 16 + b) * 16 + c;
    assert n / 256 == a * 16 + b;
  }

  lemma FourFound(s: Text, i: nat)
    requires Hex4(s, i).Some?
    ensures FourDigits(s[i..i + 4], Hex4(s, i).value)
  {
    hide DigitOf, HexDigit, IsHexDigit;
    var a, b, c, d := HexDigit(s[i]), HexDigit(s[i + 1]), HexDigit(s[i + 2]), HexDigit(s[i + 3]);
    DigitFound(s[i]);
    DigitFound(s[i + 1]);
    DigitFound(s[i + 2]);
    DigitFound(s[i + 3]);
    DigitsOfNumber(a, b, c, d);
  }

  lemma PairValue(hi: int, lo: int)
    requires IsHigh(hi) && IsLow(lo)
    ensures var c := Pair(hi, lo);
      0x10000 <= c <= 0x10FFFF && 0xD800 + (c - 0x10000) / 0x400 == hi && 0xDC00 + (c - 0x10000) % 0x400 == lo
  {}

  lemma LettersFound(c: int)
    requires SimpleEscape(c).Some?
    ensures 0 <= c < 128 && LetterValue(c as char) == SimpleEscape(c)
  {}

  lemma OneEscapeAt(s: Text, i: nat)
    requires i + 6 <= |s| && s[i] == 0x5C && s[i + 1] == 'u' as int
    ensures At(s, i, [0x5C, 'u' as int] + s[i + 2..i + 6])
  {}

  lemma TwoEscapesAt(s: Text, i: nat)
    requires i + 12 <= |s| && s[i] == s[i + 6] == 0x5C && s[i + 1] == s[i + 7] == 'u' as int
    ensures At(s, i, [0x5C, 'u' as int] + s[i + 2..i + 6] + [0x5C, 'u' as int] + s[i + 8..i + 12])
  {
    hide At;
    OneEscapeAt(s, i);
    OneEscapeAt(s, i + 6);
    var a, b := [0x5C, 'u' as int] + s[i + 2..i + 6], [0x5C, 'u' as int] + s[i + 8..i + 12];
    AtJoin(s, i, a, b);
    assert a + b == a + [0x5C, 'u' as int] + s[i + 8..i + 12];
  }

  lemma EscapeFound(s: Text, i: nat, m: Mode) returns (p: Piece)
    requires m.strict && i + 1 < |s| && s[i] == BACKSLASH && s[i + 1] == LOWER_U && UnicodeEscape(s, i + 2, m).Push?
    ensures PieceOk(p) && At(s, i, PieceText(p)) && PieceValue(p) == UnicodeEscape(s, i + 2, m).c
    ensures UnicodeEscape(s, i + 2, m).next == i + |PieceText(p)|
  {
    hide Hex4, FourDigits, At, Pair;
    var u := UnicodeEscape(s, i + 2, m);
    FourFound(s, i + 2);
    if u.next == i + 6 {
      OneEscapeAt(s, i);
      p := Escape4(u.c, s[i + 2..i + 6]);
    } else {
      FourFound(s, i + 8);
      TwoEscapesAt(s, i);
      PairValue(Hex4(s, i + 2).value, Hex4(s, i + 8).value);
      p := Escape8(u.c, s[i + 2..i + 6], s[i + 8..i + 12]);
    }
  }

  lemma UnitFound(s: Text, i: nat, m: Mode) returns (p: Piece)
    requires Scalars(s) && m.strict && i < |s| && StringUnit(s, i, m).Push?
    ensures PieceOk(p) && At(s, i, PieceText(p)) && PieceValue(p) == StringUnit(s, i, m).c
    ensures StringUnit(s, i, m).next == i + |PieceText(p)|
  {
    hide UnicodeEscape, FourDigits;
    if s[i] != BACKSLASH {
      p := Plain(s[i]);
    } else if s[i + 1] != LOWER_U {
      LettersFound(s[i + 1]);
      p := Letter(s[i + 1] as char);
    } else {
      p := EscapeFound(s, i, m);
    }
  }

  lemma {:induction false} CharsFound(s: Text, i: nat, out: Text, m: Mode) returns (ps: seq<Piece>)
    requires Scalars(s) && m.strict && i <= |s| && ParseChars(s, i, out, m).Ok?
    ensures PiecesOk(ps) && At(s, i, PiecesText(ps) + [0x22])
    ensures ParseChars(s, i, out, m) == Ok(out + PiecesValue(ps), i + |PiecesText(ps)| + 1)
    decreases |s| - i
  {
    hide StringUnit, PieceText, PieceValue, PieceOk;
    match StringUnit(s, i, m) {
      case Close(n) =>
        ps := [];
        CloseFound(s, i, m);
        assert out + PiecesValue(ps) == out;
      case Push(c, n) =>
        var p := UnitFound(s, i, m);
        var rest := CharsFound(s, n, out + [c], m);
        ps := [p] + rest;
        assert ps[1..] == rest;
        AtJoin(s, i, PieceText(p), PiecesText(rest) + [0x22]);
        assert PiecesText(ps) + [0x22] == PieceText(p) + (PiecesText(rest) + [0x22]);
        assert out + [c] + PiecesValue(rest) == out + PiecesValue(ps);
    }
  }

  lemma CloseFound(s: Text, i: nat, m: Mode)
    requires i < |s| && StringUnit(s, i, m).Close?
    ensures s[i] == QUOTE && StringUnit(s, i, m).next == i + 1 && At(s, i, PiecesText([]) + [0x22])
  {
    hide UnicodeEscape;
  }

  lemma StringFound(s: Text, i: nat, m: Mode) returns (ps: seq<Piece>)
    requires Scalars(s) && m.strict && i <= |s| && ParseString(s, i, m).Ok?
    ensures PiecesOk(ps) && At(s, i, StringText(ps))
    ensures ParseString(s, i, m) == Ok(PiecesValue(ps), i + |StringText(ps)|)
  {
    ps := CharsFound(s, i + 1, [], m);
    AtJoin(s, i, [0x22], PiecesText(ps) + [0x22]);
    assert [] + PiecesValue(ps) == PiecesValue(ps);
  }

  // ---- numbers -------------------------------------------------------------------------------------

  lemma {:induction false} DecimalFound(t: Text)
    requires t != [] && (forall k :: 0 <= k < |t| ==> IsDigit(t[k])) && (|t| == 1 || t[0] != ZERO)
    ensures DecimalValue(t) >= 0 && DecimalText(DecimalValue(t)) == t && (t[0] != ZERO ==> DecimalValue(t) >= 1)
    decreases |t|
  {
    var less, last := t[..|t| - 1], t[|t| - 1];
    assert t == less + [last];
    if |t| == 1 {
      assert less == [] && DecimalValue(less) == 0;
    } else {
      DecimalFound(less);
      var v := DecimalValue(t);
      assert v == 10 * DecimalValue(less) + (last - 48) && v / 10 == DecimalValue(less) && v % 10 == last - 48;
    }
  }

  lemma GrammarMeans(tok: Text)
    requires JsonIntGrammar(tok)
    ensures tok != []
    ensures var t := if tok[0] == MINUS then tok[1..] else tok;
      t != [] && (forall k :: 0 <= k < |t| ==> IsDigit(t[k])) && (|t| == 1 || t[0] != ZERO)
  {}

  lemma NumberFound(s: Text, i: nat) returns (t: Tree)
    requires i <= |s| && ParseNumber(s, i).Ok?
    ensures TreeOk(t) && At(s, i, TreeText(t)) && ParseNumber(s, i) == Ok(TreeValue(t), i + |TreeText(t)|)
    ensures t.TreeInt? || t.TreeMinusZero?
  {
    hide NumEnd, DecimalText, DecimalValue, JsonIntGrammar, HasFloatMark, At;
    var e := NumEnd(s, i);
    var tok := s[i..e];
    var n := IntValue(tok);
    assert NumberToken(tok) == None && JsonIntGrammar(tok);
    GrammarMeans(tok);
    assert At(s, i, tok) by { SliceAt(s, i, e); }
    if tok[0] == MINUS {
      var digits := tok[1..];
      DecimalFound(digits);
      assert tok == [MINUS] + digits;
      if n == 0 {
        ZeroText();
        t := TreeMinusZero;
        assert tok == Lit("-0");
      } else {
        t := TreeInt(n);
      }
    } else {
      DecimalFound(tok);
      t := TreeInt(n);
    }
  }

  lemma SliceAt(s: Text, i: nat, e: nat)
    requires i <= e <= |s|
    ensures At(s, i, s[i..e])
  {}

  lemma ZeroText()
    ensures DecimalText(0) == [ZERO] && Lit("-0") == [MINUS, ZERO]
  {}

  // ---- values --------------------------------------------------------------------------------------

  /** What a tree found at i is: its text stands there, and its value was read. */
  ghost predicate FoundAt(s: Text, i: nat, w: Text, t: Tree, p: Parsed<Json>)
  {
    Blank(w) && TreeOk(t) && At(s, i, w + TreeText(t)) && p == Ok(TreeValue(t), i + |w| + |TreeText(t)|)
  }

  lemma {:induction false} ValueFound(s: Text, i: nat, d: nat, m: Mode) returns (w: Text, t: Tree)
    requires Scalars(s) && m.strict && i <= |s| && ParseValue(s, i, d, m).Ok?
    ensures FoundAt(s, i, w, t, ParseValue(s, i, d, m))
    decreases |s| - i, 3
  {
    hide ParseNumber, ParseString, ParseObject, ParseArray, SkipWs, ParseLiteral;
    var j := SkipWs(s, i);
    w := s[i..j];
    WsFound(s, i);
    LiteralNames();
    if s[j] == LBRACE {
      t := ObjectFound(s, j, d + 1, m);
    } else if s[j] == LBRACKET {
      t := ArrayFound(s, j, d + 1, m);
    } else if s[j] == QUOTE {
      var ps := StringFound(s, j, m);
      t := TreeString(ps);
    } else if s[j] == 116 {
      t := TreeTrue;
      LiteralFound(s, j, "true", Bool(true));
    } else if s[j] == 102 {
      t := TreeFalse;
      LiteralFound(s, j, "false", Bool(false));
    } else if s[j] == 110 {
      t := TreeNull;
      LiteralFound(s, j, "null", Null);
    } else {
      t := NumberFound(s, j);
    }
    AtJoin(s, i, w, TreeText(t));
  }

  lemma LiteralFound(s: Text, i: nat, w: string, v: Json)
    requires i <= |s| && w != [] && ParseLiteral(s, i, Lit(w), v).Ok?
    ensures At(s, i, Lit(w)) && ParseLiteral(s, i, Lit(w), v) == Ok(v, i + |w|)
  {}

  lemma LiteralNames()
    ensures Lit("null") == NULL_TEXT && Lit("true") == TRUE_TEXT && Lit("false") == FALSE_TEXT
  {}

  /** White space, then a comma or the closing bracket. */
  lemma SeparatorFound(s: Text, n: nat, close: int) returns (after: Text)
    requires n <= |s| && ParseSeparator(s, n, close).Ok? && close != COMMA
    ensures Blank(after) && ParseSeparator(s, n, close).next == n + |after| + 1
    ensures At(s, n, after + [if ParseSeparator(s, n, close).value then COMMA else close])
  {
    hide SkipWs;
    WsFound(s, n);
    after := s[n..SkipWs(s, n)];
  }

  lemma ItemsParts(s: Text, i: nat, d: nat, m: Mode, acc: seq<Json>)
    requires i <= |s| && ParseItems(s, i, d, m, acc).Ok?
    ensures ParseValue(s, i, d, m).Ok?
    ensures var n := ParseValue(s, i, d, m).next; n <= |s| && ParseSeparator(s, n, RBRACKET).Ok?
  {
    hide ParseValue, ParseSeparator;
  }

  lemma {:induction false} ItemsFound(s: Text, i: nat, d: nat, m: Mode, acc: seq<Json>) returns (items: seq<Slot>)
    requires Scalars(s) && m.strict && i <= |s| && ParseItems(s, i, d, m, acc).Ok?
    ensures items != [] && forall k :: 0 <= k < |items| ==> SlotOk(items[k])
    ensures At(s, i, SlotsText(items) + Lit("]"))
    ensures ParseItems(s, i, d, m, acc) == Ok(Array(acc + SlotValues(items)), i + |SlotsText(items)| + 1)
    decreases |s| - i, 5
  {
    hide ParseValue, ParseSeparator, TreeText, TreeOk, Blank, Lit, TreeValue, At, SlotsText, SlotValues, ParseItems;
    ItemsParts(s, i, d, m, acc);
    Marks();
    var v, n := ParseValue(s, i, d, m).value, ParseValue(s, i, d, m).next;
    var w, t := ValueFound(s, i, d, m);
    var after := SeparatorFound(s, n, RBRACKET);
    var sep := ParseSeparator(s, n, RBRACKET);
    ItemsStep(s, i, d, m, acc, v, n);
    var x := Slot(w, t, after);
    AtJoin(s, i, w + TreeText(t), after + [if sep.value then COMMA else RBRACKET]);
    assert w + TreeText(t) + (after + [if sep.value then COMMA else RBRACKET])
        == SlotText(x) + [if sep.value then COMMA else RBRACKET];
    if sep.value {
      var rest := ItemsFound(s, sep.next, d, m, acc + [v]);
      items := [x] + rest;
      assert items[1..] == rest;
      SlotsShape(items);
      AtJoin(s, i, SlotText(x) + [COMMA], SlotsText(rest) + Lit("]"));
      assert SlotText(x) + [COMMA] + (SlotsText(rest) + Lit("]")) == SlotsText(items) + Lit("]");
      assert acc + [v] + SlotValues(rest) == acc + SlotValues(items);
    } else {
      items := [x];
      SlotsShape(items);
    }
  }

  lemma {:induction false} ArrayFound(s: Text, i: nat, d: nat, m: Mode) returns (t: Tree)
    requires Scalars(s) && m.strict && i < |s| && s[i] == LBRACKET && ParseArray(s, i, d, m).Ok?
    ensures TreeOk(t) && At(s, i, TreeText(t)) && ParseArray(s, i, d, m) == Ok(TreeValue(t), i + |TreeText(t)|)
    decreases |s| - i, 2
  {
    hide ParseItems, SkipWs, Lit, SlotsText, SlotOk, Blank, SlotValues, TreeText, TreeValue, TreeOk, At;
    Marks();
    var j := SkipWs(s, i + 1);
    WsFound(s, i + 1);
    if j < |s| && s[j] == RBRACKET {
      var gap := s[i + 1..j];
      t := TreeArray(gap, []);
      ArrayTree(gap, []);
      ArrayOk(gap, []);
      GapAt(s, i, gap, LBRACKET, RBRACKET);
    } else {
      SkipWsStops(s, i + 1);
      SameItems(s, j, i + 1, d, m);
      var items := ItemsFound(s, i + 1, d, m, []);
      NothingBlank();
      t := TreeArray([], items);
      ArrayTree([], items);
      ArrayOk([], items);
      assert [] + SlotValues(items) == SlotValues(items);
      AtBracket(s, i, LBRACKET);
      AtJoin(s, i, [LBRACKET], SlotsText(items) + Lit("]"));
    }
  }

  lemma ArrayTree(gap: Text, items: seq<Slot>)
    ensures TreeText(TreeArray(gap, items)) ==
      [LBRACKET] + ((if items == [] then gap else SlotsText(items)) + [RBRACKET])
    ensures TreeValue(TreeArray(gap, items)) == Array(SlotValues(items)) && SlotValues([]) == []
  {
    hide SlotsText;
    Marks();
  }

  lemma ArrayOk(gap: Text, items: seq<Slot>)
    requires Blank(gap) && forall k :: 0 <= k < |items| ==> SlotOk(items[k])
    ensures TreeOk(TreeArray(gap, items))
  {
    hide SlotOk, Blank;
  }

  lemma GapAt(s: Text, i: nat, gap: Text, open: int, close: int)
    requires i + 1 + |gap| < |s| && s[i] == open && s[i + 1..i + 1 + |gap|] == gap && s[i + 1 + |gap|] == close
    ensures At(s, i, [open] + (gap + [close]))
  {
    assert forall k :: 0 <= k < |gap| ==> gap[k] == s[i + 1 + k];
  }

  lemma AtBracket(s: Text, i: nat, open: int)
    requires i < |s| && s[i] == open
    ensures At(s, i, [open])
  {}

  lemma NothingBlank()
    ensures Blank([])
  {}

  lemma SameItems(s: Text, i: nat, j: nat, d: nat, m: Mode)
    requires i <= |s| && j <= |s| && SkipWs(s, i) == SkipWs(s, j)
    ensures ParseItems(s, i, d, m, []) == ParseItems(s, j, d, m, [])
  {
    hide ParseValue;
    ValueAfterWs(s, i, j, d, m);
  }

  lemma SameMembers(s: Text, i: nat, j: nat, d: nat, m: Mode)
    requires i <= |s| && j <= |s| && SkipWs(s, i) == SkipWs(s, j)
    ensures ParseMembers(s, i, d, m, []) == ParseMembers(s, j, d, m, [])
  {
    hide ParseValue, ParseString;
  }

  /** A member, but for the white space after it. */
  lemma {:induction false} MemberFound(s: Text, i: nat, d: nat, m: Mode, acc: seq<Member>) returns (f: Field)
    requires Scalars(s) && m.strict && i <= |s| && ParseMember(s, i, d, m, acc).Ok?
    ensures FieldOk(f) && f.after == [] && At(s, i, FieldText(f)) && !Has(acc, KeyOf(f))
    ensures ParseMember(s, i, d, m, acc) == Ok(Member(KeyOf(f), TreeValue(f.tree)), i + |FieldText(f)|)
    decreases |s| - i, 4
  {
    hide ParseString, ParseValue, SkipWs, Has, TreeText, TreeOk, Blank, Lit, TreeValue, StringText, PiecesOk;
    Marks();
    var a := SkipWs(s, i);
    WsFound(s, i);
    var before := s[i..a];
    var key := StringFound(s, a, m);
    var b := ParseString(s, a, m).next;
    var c := SkipWs(s, b);
    WsFound(s, b);
    var mid := s[b..c];
    var gap, tree := ValueFound(s, c + 1, d, m);
    NothingBlank();
    f := Field(before, key, mid, gap, tree, []);
    var q, x := StringText(key), TreeText(tree);
    assert x + [] == x;
    AtJoin(s, c, [COLON], gap + x);
    AtJoin(s, b, mid, [COLON] + (gap + x));
    AtJoin(s, a, q, mid + ([COLON] + (gap + x)));
    AtJoin(s, i, before, q + (mid + ([COLON] + (gap + x))));
  }

  /** The field with its trailing white space and what separates it from the next. */
  lemma WithAfter(f: Field, after: Text, s: Text, i: nat, mark: Text) returns (g: Field)
    requires FieldOk(f) && f.after == [] && At(s, i, FieldText(f))
    requires At(s, i + |FieldText(f)|, after + mark) && Blank(after)
    ensures g == f.(after := after) && FieldOk(g) && At(s, i, FieldText(g) + mark)
    ensures |FieldText(g)| == |FieldText(f)| + |after|
  {
    hide TreeText, TreeOk, Blank, Lit, StringText, PiecesOk, At;
    g := f.(after := after);
    var q, x := StringText(f.key), TreeText(f.tree);
    assert x + [] == x;
    AtJoin(s, i, FieldText(f), after + mark);
    assert FieldText(g) == FieldText(f) + after by { Regroup(f.before, q, f.mid, Lit(":"), f.gap, x, after); }
    assert FieldText(f) + (after + mark) == FieldText(g) + mark;
  }

  lemma Regroup(a: Text, b: Text, c: Text, d: Text, e: Text, f: Text, g: Text)
    ensures a + (b + (c + (d + (e + (f + g))))) == (a + (b + (c + (d + (e + (f + [])))))) + g
  {}

  lemma {:induction false} MembersFound(s: Text, i: nat, d: nat, m: Mode, acc: seq<Member>) returns (fields: seq<Field>)
    requires Scalars(s) && m.strict && i <= |s| && ParseMembers(s, i, d, m, acc).Ok?
    ensures fields != [] && (forall k :: 0 <= k < |fields| ==> FieldOk(fields[k])) && Fresh(acc, fields)
    ensures At(s, i, FieldsText(fields) + Lit("}"))
    ensures ParseMembers(s, i, d, m, acc) == Ok(Object(FieldValues(acc, fields)), i + |FieldsText(fields)| + 1)
    decreases |s| - i, 5
  {
    hide ParseMember, ParseSeparator, FieldText, FieldOk, Lit, Put, Has, At, KeyOf, TreeValue, Fresh;
    Marks();
    var mem, n := ParseMember(s, i, d, m, acc).value, ParseMember(s, i, d, m, acc).next;
    var f := MemberFound(s, i, d, m, acc);
    var after := SeparatorFound(s, n, RBRACE);
    var sep := ParseSeparator(s, n, RBRACE);
    var mark := [if sep.value then COMMA else RBRACE];
    var g := WithAfter(f, after, s, i, mark);
    assert KeyOf(g) == KeyOf(f) by { SameKey(f, after); }
    if sep.value {
      var acc' := Put(acc, mem.key, mem.val);
      var rest := MembersFound(s, sep.next, d, m, acc');
      fields := [g] + rest;
      assert fields[1..] == rest;
      FreshMore(acc, g, mem.val, rest);
      AtJoin(s, i, FieldText(g) + mark, FieldsText(rest) + Lit("}"));
      assert FieldText(g) + mark + (FieldsText(rest) + Lit("}")) == FieldsText(fields) + Lit("}");
    } else {
      fields := [g];
      assert fields[1..] == [];
      FreshOne(acc, g);
    }
  }

  lemma SameKey(f: Field, after: Text)
    ensures KeyOf(f.(after := after)) == KeyOf(f)
  {}

  lemma FreshOne(acc: seq<Member>, g: Field)
    requires !Has(acc, KeyOf(g))
    ensures Fresh(acc, [g])
  {}

  lemma FreshMore(acc: seq<Member>, g: Field, v: Json, rest: seq<Field>)
    requires !Has(acc, KeyOf(g)) && Fresh(Put(acc, KeyOf(g), v), rest)
    ensures Fresh(acc, [g] + rest)
  {
    hide Put, KeyOf;
    var k0 := KeyOf(g);
    var more, all := Put(acc, k0, v), [g] + rest;
    PutMembers(acc, k0, v);
    assert Member(k0, v) in more;
    forall k | 0 <= k < |all| ensures !Has(acc, KeyOf(all[k])) && (k > 0 ==> KeyOf(all[k]) != k0) {
      if k > 0 {
        assert all[k] == rest[k - 1];
        var x := KeyOf(rest[k - 1]);
        forall i | 0 <= i < |acc| ensures acc[i].key != x { assert acc[i] in more; Absent(more, x, acc[i]); }
        Absent(more, x, Member(k0, v));
      }
    }
    forall j, k | 0 <= j < k < |all| ensures KeyOf(all[j]) != KeyOf(all[k]) {
      assert all[k] == rest[k - 1];
      if j > 0 { assert all[j] == rest[j - 1]; }
    }
  }

  lemma Absent(ms: seq<Member>, x: Text, m: Member)
    requires !Has(ms, x) && m in ms
    ensures m.key != x
  {}

  lemma {:induction false} ObjectFound(s: Text, i: nat, d: nat, m: Mode) returns (t: Tree)
    requires Scalars(s) && m.strict && i < |s| && s[i] == LBRACE && ParseObject(s, i, d, m).Ok?
    ensures TreeOk(t) && At(s, i, TreeText(t)) && ParseObject(s, i, d, m) == Ok(TreeValue(t), i + |TreeText(t)|)
    decreases |s| - i, 2
  {
    hide ParseMembers, SkipWs, Lit, FieldsText, FieldOk, Blank, KeyOf;
    Marks();
    var j := SkipWs(s, i + 1);
    WsFound(s, i + 1);
    if j < |s| && s[j] == RBRACE {
      var gap := s[i + 1..j];
      t := TreeObject(gap, []);
      assert At(s, i, [LBRACE] + (gap + [RBRACE]));
    } else {
      SkipWsStops(s, i + 1);
      SameMembers(s, j, i + 1, d, m);
      var fields := MembersFound(s, i + 1, d, m, []);
      NothingBlank();
      t := TreeObject([], fields);
      AtJoin(s, i, [LBRACE], FieldsText(fields) + Lit("}"));
    }
  }

  // ---- the texts the reader accepts ----------------------------------------------------------------

  /** The text is white space, a tree of the profile with this value, and white space. */
  ghost predicate WrittenAs(s: Text, before: Text, t: Tree, after: Text, v: Json)
  {
    Blank(before) && TreeOk(t) && Blank(after) && s == before + TreeText(t) + after && v == TreeValue(t)
  }

  /** The strict reader accepts a text with a value exactly if the text is one of the ways RFC 8259 allows that value
      to be written: any white space, any escapes, any order of the members, no member twice, integers of the profile
      only, no unpaired surrogate, and nesting within the bound. */
  lemma ReadsExactly(s: Text, m: Mode, v: Json)
    requires Scalars(s) && m.strict
    ensures ParseText(s, m) == Ok(v, |s|) <==>
      Depth(v) <= m.limit && exists before, t, after :: WrittenAs(s, before, t, after, v)
  {
    hide ParseValue, TreeText, TreeOk, TreeValue, Blank, SkipWs, Depth;
    if ParseText(s, m) == Ok(v, |s|) {
      JsonStructure.AcceptedIsProfile(s, m);
      var before, t := ValueFound(s, 0, 0, m);
      var n := ParseValue(s, 0, 0, m).next;
      WsFound(s, n);
      assert s == s[..n] + s[n..];
      assert s[..n] == before + TreeText(t);
      assert s[n..SkipWs(s, n)] == s[n..];
      assert WrittenAs(s, before, t, s[n..], v);
    }
    if Depth(v) <= m.limit && exists before, t, after :: WrittenAs(s, before, t, after, v) {
      var before, t, after :| WrittenAs(s, before, t, after, v);
      WrittenReads(s, m, before, t, after);
    }
  }

  lemma WrittenReads(s: Text, m: Mode, before: Text, t: Tree, after: Text)
    requires Blank(before) && TreeOk(t) && Blank(after) && s == before + TreeText(t) + after
    requires Depth(TreeValue(t)) <= m.limit
    ensures ParseText(s, m) == Ok(TreeValue(t), |s|)
  {
    hide ParseValue, TreeText, TreeOk, TreeValue, Depth, Blank, SkipWs;
    var x := TreeText(t);
    var n := |before| + |x|;
    BlankIsWs(before);
    BlankIsWs(after);
    assert At(s, 0, before) && At(s, |before|, x) && At(s, n, after);
    SkipOver(s, 0, before);
    SkipOver(s, n, after);
    EndsBlank(s, n, after);
    TreeReads(t, s, |before|, 0, m);
    ValueAfterWs(s, 0, |before|, 0, m);
    NothingLeft(s);
  }

  lemma EndsBlank(s: Text, n: nat, after: Text)
    requires At(s, n, after) && AllWs(after) && n + |after| == |s|
    ensures Ends(s, n)
  {
    if after != [] { AtChar(s, n, after, 0); }
  }

  lemma NothingLeft(s: Text)
    ensures SkipWs(s, |s|) == |s|
  {}
}
