/** The reader on a written syntax tree: it gives the value of the tree, and stops where the tree ends. */
module JsonReads {
  import opened Texts
  import opened JsonValues
  import opened JsonGrammar
  import opened JsonPrinter
  import opened JsonRoundTrip
  import opened JsonSyntax

  // ---- strings -------------------------------------------------------------------------------------

  lemma DigitReads(c: int, v: int)
    requires DigitOf(c, v)
    ensures IsHexDigit(c) && HexDigit(c) == v
  {
    assert LOWER_DIGITS[v] as int == if v < 10 then 48 + v else 87 + v by { LowerTable(v); }
    assert UPPER_DIGITS[v] as int == if v < 10 then 48 + v else 55 + v by { UpperTable(v); }
  }

  lemma LowerTable(v: int)
    requires 0 <= v < 16
    ensures LOWER_DIGITS[v] as int == if v < 10 then 48 + v else 87 + v
  {}

  lemma UpperTable(v: int)
    requires 0 <= v < 16
    ensures UPPER_DIGITS[v] as int == if v < 10 then 48 + v else 55 + v
  {}

  lemma FourRead(ds: Text, n: int, s: Text, i: nat)
    requires FourDigits(ds, n) && At(s, i, ds)
    ensures Hex4(s, i) == Some(n)
  {
    hide DigitOf, IsHexDigit, HexDigit;
    AtChar(s, i, ds, 0);
    AtChar(s, i, ds, 1);
    AtChar(s, i, ds, 2);
    AtChar(s, i, ds, 3);
    DigitReads(ds[0], n / 4096);
    DigitReads(ds[1], n / 256 % 16);
    DigitReads(ds[2], n / 16 % 16);
    DigitReads(ds[3], n % 16);
    Nibbles(n);
  }

  lemma EscapeReads(ds: Text, n: int, s: Text, i: nat)
    requires FourDigits(ds, n) && At(s, i, [0x5C, 'u' as int] + ds)
    ensures EscapeU(s, i) && Hex4(s, i + 2) == Some(n)
  {
    hide Hex4;
    AtSplit(s, i, [0x5C, 'u' as int], ds);
    AtChar(s, i, [0x5C, 'u' as int], 0);
    AtChar(s, i, [0x5C, 'u' as int], 1);
    FourRead(ds, n, s, i + 2);
  }

  lemma PieceReads(p: Piece, s: Text, i: nat, m: Mode)
    requires PieceOk(p) && At(s, i, PieceText(p))
    ensures i < |s| && StringUnit(s, i, m) == Push(PieceValue(p), i + |PieceText(p)|)
  {
    hide Hex4, FourDigits;
    var t := PieceText(p);
    AtChar(s, i, t, 0);
    match p {
      case Plain(_) =>
      case Letter(_) => AtChar(s, i, t, 1);
      case Escape4(c, ds) =>
        EscapeReads(ds, c, s, i);
        FourLong(ds, c);
      case Escape8(c, hi, lo) =>
        var h, l := 0xD800 + (c - 0x10000) / 0x400, 0xDC00 + (c - 0x10000) % 0x400;
        FourLong(hi, h);
        FourLong(lo, l);
        assert t == ([0x5C, 'u' as int] + hi) + ([0x5C, 'u' as int] + lo);
        AtSplit(s, i, [0x5C, 'u' as int] + hi, [0x5C, 'u' as int] + lo);
        EscapeReads(hi, h, s, i);
        EscapeReads(lo, l, s, i + 6);
    }
  }

  lemma FourLong(ds: Text, n: int)
    requires FourDigits(ds, n)
    ensures |ds| == 4
  {}

  lemma PiecesShape(ps: seq<Piece>)
    ensures PiecesText(ps) == if ps == [] then [] else PieceText(ps[0]) + PiecesText(ps[1..])
    ensures PiecesValue(ps) == if ps == [] then [] else [PieceValue(ps[0])] + PiecesValue(ps[1..])
  {
    hide PieceText, PieceValue;
  }

  lemma {:induction false} PiecesRead(ps: seq<Piece>, s: Text, i: nat, out: Text, m: Mode)
    requires PiecesOk(ps) && At(s, i, PiecesText(ps) + [0x22])
    ensures ParseChars(s, i, out, m) == Ok(out + PiecesValue(ps), i + |PiecesText(ps)| + 1)
    decreases |ps|
  {
    hide StringUnit, PieceText, PieceValue, PieceOk, PiecesText, PiecesValue;
    PiecesShape(ps);
    if ps == [] {
      AtChar(s, i, PiecesText(ps) + [0x22], 0);
      CloseUnit(s, i, m);
      assert out + PiecesValue(ps) == out;
    } else {
      var rest := PiecesText(ps[1..]) + [0x22];
      assert PiecesText(ps) + [0x22] == PieceText(ps[0]) + rest;
      AtSplit(s, i, PieceText(ps[0]), rest);
      PieceReads(ps[0], s, i, m);
      PiecesRead(ps[1..], s, i + |PieceText(ps[0])|, out + [PieceValue(ps[0])], m);
      assert out + [PieceValue(ps[0])] + PiecesValue(ps[1..]) == out + PiecesValue(ps);
    }
  }

  lemma StringReads(ps: seq<Piece>, s: Text, i: nat, m: Mode)
    requires PiecesOk(ps) && At(s, i, StringText(ps))
    ensures ParseString(s, i, m) == Ok(PiecesValue(ps), i + |StringText(ps)|)
    ensures i < |s| && s[i] == QUOTE
  {
    AtSplit(s, i, [0x22], PiecesText(ps) + [0x22]);
    AtChar(s, i, [0x22], 0);
    PiecesRead(ps, s, i + 1, [], m);
    assert [] + PiecesValue(ps) == PiecesValue(ps);
  }

  // ---- values --------------------------------------------------------------------------------------

  lemma BlankIsWs(w: Text)
    ensures Blank(w) <==> AllWs(w)
  {}

  lemma MinusZeroReads(s: Text, i: nat)
    requires At(s, i, Lit("-0")) && Ends(s, i + 2)
    ensures ParseNumber(s, i) == Ok(Int(0), i + 2)
  {
    var t := Lit("-0");
    assert t == [MINUS, ZERO];
    NumEndAt(s, i, t);
    AtSlice(s, i, t);
    assert t[1..] == [ZERO] && [ZERO][..0] == [];
    assert DecimalValue([ZERO]) == 0;
  }

  lemma TreeStarts(t: Tree)
    requires TreeOk(t)
    ensures TreeText(t) != [] && !IsWs(TreeText(t)[0]) && TreeText(t)[0] != RBRACKET && TreeText(t)[0] != RBRACE
    ensures var c := TreeText(t)[0];
      match t
      case TreeNull => c == 110
      case TreeTrue => c == 116
      case TreeFalse => c == 102
      case TreeInt(_) => IsDigit(c) || c == MINUS
      case TreeMinusZero => c == MINUS
      case TreeString(_) => c == QUOTE
      case TreeArray(_, _) => c == LBRACKET
      case TreeObject(_, _) => c == LBRACE
  {
    hide SlotsText, FieldsText;
    if t.TreeInt? { DecimalRound(if t.n < 0 then -t.n else t.n); }
  }

  lemma {:induction false} TreeReads(t: Tree, s: Text, i: nat, d: nat, m: Mode)
    requires TreeOk(t) && At(s, i, TreeText(t)) && Ends(s, i + |TreeText(t)|) && d + Depth(TreeValue(t)) <= m.limit
    ensures ParseValue(s, i, d, m) == Ok(TreeValue(t), i + |TreeText(t)|)
    decreases t, 3
  {
    hide ParseNumber, ParseString, ParseObject, ParseArray, SlotsText, FieldsText, IntText;
    var p := TreeText(t);
    TreeStarts(t);
    AtChar(s, i, p, 0);
    assert SkipWs(s, i) == i;
    match t {
      case TreeNull => LiteralReads(s, i, "null");
      case TreeTrue => LiteralReads(s, i, "true");
      case TreeFalse => LiteralReads(s, i, "false");
      case TreeInt(n) => IntRound(n, s, i);
      case TreeMinusZero => MinusZeroReads(s, i);
      case TreeString(ps) => StringReads(ps, s, i, m);
      case TreeArray(gap, items) => ArrayReads(gap, items, s, i, d + 1, m);
      case TreeObject(gap, fields) => ObjectReads(gap, fields, s, i, d + 1, m);
    }
  }

  lemma LiteralReads(s: Text, i: nat, w: string)
    requires At(s, i, Lit(w))
    ensures i + |w| <= |s| && s[i..i + |w|] == Lit(w)
    ensures Lit("null") == NULL_TEXT && Lit("true") == TRUE_TEXT && Lit("false") == FALSE_TEXT
  {}

  lemma Marks()
    ensures Lit("[") == [LBRACKET] && Lit("]") == [RBRACKET] && Lit("{") == [LBRACE] && Lit("}") == [RBRACE]
    ensures Lit(",") == [COMMA] && Lit(":") == [COLON]
    ensures !IsNumChar(RBRACKET) && !IsWs(RBRACKET) && !IsNumChar(RBRACE) && !IsWs(RBRACE)
  {}

  /** An element and what is around it: the white space before it is skipped, and it ends before what follows. */
  lemma SlotAt(before: Text, x: Text, after: Text, tail: Text, s: Text, i: nat)
    requires At(s, i, before + (x + after) + tail) && Blank(before) && Blank(after) && x != [] && !IsWs(x[0])
    requires tail != [] && !IsNumChar(tail[0]) && !IsWs(tail[0])
    ensures At(s, i + |before|, x) && SkipWs(s, i) == i + |before| && Ends(s, i + |before| + |x|)
    ensures var n := i + |before| + |x|; SkipWs(s, n) == n + |after| < |s| && s[n + |after|] == tail[0]
    ensures At(s, i + |before| + |x| + |after|, tail)
  {
    var n := i + |before| + |x|;
    BlankIsWs(before);
    BlankIsWs(after);
    AtSplit(s, i, before + (x + after), tail);
    AtSplit(s, i, before, x + after);
    AtSplit(s, i + |before|, x, after);
    AtChar(s, i + |before|, x, 0);
    SkipOver(s, i, before);
    AtChar(s, n + |after|, tail, 0);
    SkipOver(s, n, after);
    if after != [] { AtChar(s, n, after, 0); }
  }

  lemma {:induction false} ArrayReads(gap: Text, items: seq<Slot>, s: Text, i: nat, d: nat, m: Mode)
    requires TreeOk(TreeArray(gap, items)) && At(s, i, TreeText(TreeArray(gap, items)))
    requires d + ItemsDepth(SlotValues(items)) <= m.limit
    ensures i < |s| && s[i] == LBRACKET
    ensures ParseArray(s, i, d, m) == Ok(Array(SlotValues(items)), i + |TreeText(TreeArray(gap, items))|)
    decreases items, 2
  {
    hide ParseItems, SlotsText, SkipWs, Lit, Blank;
    Marks();
    var inner := if items == [] then gap else SlotsText(items);
    AtSplit(s, i, Lit("["), inner + Lit("]"));
    AtChar(s, i, Lit("["), 0);
    BlankIsWs(gap);
    if items == [] {
      Closes(s, i + 1, gap, RBRACKET);
      NotSeparator(s, i + 1, RBRACKET);
    } else {
      var tail := SlotsStart(items, s, i + 1, Lit("]"));
      SkipWsStops(s, i + 1);
      SlotsRead(items, s, SkipWs(s, i + 1), i + 1, d, m, []);
      assert [] + SlotValues(items) == SlotValues(items);
    }
  }

  /** Where the first element stands. */
  lemma SlotsStart(items: seq<Slot>, s: Text, i: nat, close: Text) returns (tail: Text)
    requires items != [] && SlotOk(items[0]) && At(s, i, SlotsText(items) + close)
    requires close != [] && !IsNumChar(close[0]) && !IsWs(close[0])
    ensures tail == if |items| == 1 then close else Lit(",") + (SlotsText(items[1..]) + close)
    ensures At(s, i, items[0].before + (TreeText(items[0].tree) + items[0].after) + tail)
    ensures tail != [] && !IsNumChar(tail[0]) && !IsWs(tail[0])
    ensures SkipWs(s, i) == i + |items[0].before| < |s| && s[SkipWs(s, i)] == TreeText(items[0].tree)[0]
    ensures var x := TreeText(items[0].tree); x != [] && x[0] != RBRACKET && !IsWs(x[0])
    ensures close == Lit("]") ==> tail[0] == if |items| == 1 then RBRACKET else COMMA
  {
    hide TreeText;
    var x := items[0];
    TreeStarts(x.tree);
    if |items| == 1 {
      tail := close;
    } else {
      tail := Lit(",") + (SlotsText(items[1..]) + close);
      assert SlotsText(items) + close == SlotText(x) + tail;
    }
    SlotAt(x.before, TreeText(x.tree), x.after, tail, s, i);
    AtChar(s, i + |x.before|, TreeText(x.tree), 0);
  }

  /** One turn of the loop over the items: an item, then what the separator says. */
  lemma ItemsStep(s: Text, i: nat, d: nat, m: Mode, acc: seq<Json>, v: Json, n: nat)
    requires i <= |s| && ParseValue(s, i, d, m) == Ok(v, n) && n <= |s| && ParseSeparator(s, n, RBRACKET).Ok?
    ensures var sep := ParseSeparator(s, n, RBRACKET);
      ParseItems(s, i, d, m, acc) ==
        if sep.value then ParseItems(s, sep.next, d, m, acc + [v]) else Ok(Array(acc + [v]), sep.next)
  {
    hide ParseValue, ParseSeparator;
  }

  /** And over the members. */
  lemma MembersStep(s: Text, i: nat, d: nat, m: Mode, acc: seq<Member>, mem: Member, n: nat)
    requires i <= |s| && ParseMember(s, i, d, m, acc) == Ok(mem, n) && n <= |s| && ParseSeparator(s, n, RBRACE).Ok?
    ensures var sep, more := ParseSeparator(s, n, RBRACE), Put(acc, mem.key, mem.val);
      ParseMembers(s, i, d, m, acc) ==
        if sep.value then ParseMembers(s, sep.next, d, m, more) else Ok(Object(more), sep.next)
  {
    hide ParseMember, ParseSeparator, Put;
  }

  /** The first element of a list and the rest, as text and as values. */
  lemma SlotsShape(items: seq<Slot>)
    requires items != []
    ensures |SlotText(items[0])| == |items[0].before| + |TreeText(items[0].tree)| + |items[0].after|
    ensures SlotsText(items) ==
      if |items| == 1 then SlotText(items[0]) else SlotText(items[0]) + (Lit(",") + SlotsText(items[1..]))
    ensures SlotValues(items) == [TreeValue(items[0].tree)] + SlotValues(items[1..])
    ensures |items| == 1 ==> SlotValues(items[1..]) == [] && SlotValues(items) == [TreeValue(items[0].tree)]
  {
    hide TreeText, TreeValue;
  }

  lemma ListDepth(v: Json, vs: seq<Json>)
    ensures ItemsDepth([v] + vs) == Max(Depth(v), ItemsDepth(vs))
  {
    hide Depth;
    assert ([v] + vs)[1..] == vs;
  }

  lemma SlotsTextShape(items: seq<Slot>)
    requires |items| > 1
    ensures SlotsText(items) == SlotText(items[0]) + (Lit(",") + SlotsText(items[1..]))
  {
    hide SlotText;
  }

  /** The rest of the elements stands after the first and its comma. */
  lemma NextSlots(items: seq<Slot>, s: Text, i: nat)
    requires |items| > 1 && At(s, i, SlotsText(items) + Lit("]"))
    ensures |SlotsText(items)| == |SlotText(items[0])| + 1 + |SlotsText(items[1..])|
    ensures At(s, i + |SlotText(items[0])| + 1, SlotsText(items[1..]) + Lit("]"))
  {
    hide SlotText, SlotsText, At, Lit;
    Marks();
    SlotsTextShape(items);
    var x, rest := SlotText(items[0]), SlotsText(items[1..]) + Lit("]");
    assert SlotsText(items) + Lit("]") == x + (Lit(",") + rest);
    AtSplit(s, i, x, Lit(",") + rest);
    AtSplit(s, i + |x|, Lit(","), rest);
  }

  /** An element read with the white space before it. */
  lemma {:induction false} ItemReads(x: Slot, tail: Text, s: Text, from: nat, i: nat, d: nat, m: Mode)
    requires SlotOk(x) && At(s, i, x.before + (TreeText(x.tree) + x.after) + tail)
    requires from <= |s| && SkipWs(s, from) == SkipWs(s, i)
    requires tail != [] && !IsNumChar(tail[0]) && !IsWs(tail[0]) && d + Depth(TreeValue(x.tree)) <= m.limit
    ensures var n := i + |x.before| + |TreeText(x.tree)|;
      && n <= |s| && ParseValue(s, from, d, m) == Ok(TreeValue(x.tree), n)
      && SkipWs(s, n) == n + |x.after| < |s| && s[n + |x.after|] == tail[0]
    decreases x, 4
  {
    hide ParseValue, TreeText, TreeOk, Blank, SkipWs, TreeValue, At, IsNumChar, IsWs;
    TreeStarts(x.tree);
    SlotAt(x.before, TreeText(x.tree), x.after, tail, s, i);
    TreeReads(x.tree, s, i + |x.before|, d, m);
    SkipWsStops(s, i);
    ValueAfterWs(s, from, i + |x.before|, d, m);
  }

  /** What follows the first element. */
  lemma SlotsTail(items: seq<Slot>, s: Text, i: nat) returns (tail: Text)
    requires items != [] && SlotOk(items[0]) && At(s, i, SlotsText(items) + Lit("]"))
    ensures At(s, i, items[0].before + (TreeText(items[0].tree) + items[0].after) + tail)
    ensures tail != [] && !IsNumChar(tail[0]) && !IsWs(tail[0]) && tail[0] == if |items| == 1 then RBRACKET else COMMA
  {
    hide SlotsText, SlotOk, At, TreeText, IsWs, IsNumChar, Lit;
    Marks();
    tail := SlotsStart(items, s, i, Lit("]"));
  }

  lemma SlotLength(x: Slot)
    ensures |SlotText(x)| == |x.before| + |TreeText(x.tree)| + |x.after|
  {
    hide TreeText;
  }

  /** The first element is read, and what follows it says whether more come. */
  lemma {:induction false} FirstItemRead(items: seq<Slot>, s: Text, from: nat, i: nat, d: nat, m: Mode, acc: seq<Json>)
    requires items != [] && SlotOk(items[0])
    requires At(s, i, SlotsText(items) + Lit("]")) && from <= |s| && SkipWs(s, from) == SkipWs(s, i)
    requires d + Depth(TreeValue(items[0].tree)) <= m.limit
    ensures i + |SlotText(items[0])| < |s|
    ensures var next, more := i + |SlotText(items[0])| + 1, acc + [TreeValue(items[0].tree)];
      ParseItems(s, from, d, m, acc) ==
        if |items| > 1 then ParseItems(s, next, d, m, more) else Ok(Array(more), next)
    decreases items, 0
  {
    hide ParseItems, ParseValue, ParseSeparator, TreeText, SkipWs, SlotOk, Lit, TreeValue, At, Depth, IsNumChar, IsWs,
      SlotsText, SlotText;
    var x := items[0];
    SlotLength(x);
    var tail := SlotsTail(items, s, i);
    ItemReads(x, tail, s, from, i, d, m);
    var n := i + |x.before| + |TreeText(x.tree)|;
    SeparatorIs(s, n, RBRACKET);
    ItemsStep(s, from, d, m, acc, TreeValue(x.tree), n);
  }

  lemma {:induction false} SlotsRead(items: seq<Slot>, s: Text, from: nat, i: nat, d: nat, m: Mode, acc: seq<Json>)
    requires items != [] && (forall k :: 0 <= k < |items| ==> SlotOk(items[k]))
    requires At(s, i, SlotsText(items) + Lit("]")) && from <= |s| && SkipWs(s, from) == SkipWs(s, i)
    requires d + ItemsDepth(SlotValues(items)) <= m.limit
    ensures ParseItems(s, from, d, m, acc) == Ok(Array(acc + SlotValues(items)), i + |SlotsText(items)| + 1)
    decreases items, 1
  {
    hide ParseItems, TreeText, SkipWs, SlotOk, Lit, TreeValue, At, Depth, SlotsText, SlotText, SlotValues, ItemsDepth;
    SlotsShape(items);
    var v := TreeValue(items[0].tree);
    ListDepth(v, SlotValues(items[1..]));
    FirstItemRead(items, s, from, i, d, m, acc);
    if |items| > 1 {
      NextSlots(items, s, i);
      var next := i + |SlotText(items[0])| + 1;
      SlotsRead(items[1..], s, next, next, d, m, acc + [v]);
      assert acc + [v] + SlotValues(items[1..]) == acc + SlotValues(items);
    }
  }

  /** Where the separator is the closing bracket, it stands after the white space. */
  lemma NotSeparator(s: Text, i: nat, close: int)
    requires i <= |s| && close != COMMA && ParseSeparator(s, i, close).Ok? && !ParseSeparator(s, i, close).value
    ensures SkipWs(s, i) < |s| && s[SkipWs(s, i)] == close
    ensures ParseSeparator(s, i, close).next == SkipWs(s, i) + 1
  {
    hide SkipWs;
  }

  lemma SeparatorIs(s: Text, n: nat, close: int)
    requires n <= |s| && SkipWs(s, n) < |s|
    ensures s[SkipWs(s, n)] == COMMA ==> ParseSeparator(s, n, close) == Ok(true, SkipWs(s, n) + 1)
    ensures s[SkipWs(s, n)] == close && close != COMMA ==> ParseSeparator(s, n, close) == Ok(false, SkipWs(s, n) + 1)
  {}

  // ---- objects -------------------------------------------------------------------------------------

  lemma {:induction false} FieldsDeep(acc: seq<Member>, fields: seq<Field>)
    ensures MembersDepth(acc) <= MembersDepth(FieldValues(acc, fields))
    decreases |fields|
  {
    hide KeyOf, TreeValue, Put;
    if fields != [] {
      PutMembers(acc, KeyOf(fields[0]), TreeValue(fields[0].tree));
      FieldsDeep(Put(acc, KeyOf(fields[0]), TreeValue(fields[0].tree)), fields[1..]);
    }
  }

  /** A member read with the white space in it. */
  lemma FieldTurn(s: Text, i: nat, d: nat, m: Mode, acc: seq<Member>, k: Text, a: nat, v: Json, n: nat)
    requires i <= |s| && ParseString(s, SkipWs(s, i), m) == Ok(k, a) && !Has(acc, k)
    requires a <= |s| && SkipWs(s, a) < |s| && s[SkipWs(s, a)] == COLON
    requires ParseValue(s, SkipWs(s, a) + 1, d, m) == Ok(v, n)
    ensures ParseMember(s, i, d, m, acc) == Ok(Member(k, v), n)
  {
    hide ParseString, Has, ParseValue, SkipWs;
  }

  /** The pieces of a member, at their places. */
  lemma FieldPlaces(f: Field, s: Text, i: nat, tail: Text)
    requires FieldOk(f) && At(s, i, FieldText(f) + tail)
    requires tail != [] && !IsNumChar(tail[0]) && !IsWs(tail[0])
    ensures var a := i + |f.before|; var b := a + |StringText(f.key)|; var c := b + |f.mid|;
      && SkipWs(s, i) == a && At(s, a, StringText(f.key)) && SkipWs(s, b) == c < |s| && s[c] == COLON
      && At(s, c + 1, f.gap + (TreeText(f.tree) + f.after) + tail)
  {
    hide TreeText, StringText, TreeOk, PiecesOk;
    var q, x := StringText(f.key), TreeText(f.tree);
    var after := f.gap + (x + f.after);
    BlankIsWs(f.before);
    BlankIsWs(f.mid);
    AtSplit(s, i, FieldText(f), tail);
    var rest := f.mid + (Lit(":") + after);
    AtSplit(s, i, f.before, q + rest);
    var a := i + |f.before|;
    AtSplit(s, a, q, rest);
    var b := a + |q|;
    AtSplit(s, b, f.mid, Lit(":") + after);
    var c := b + |f.mid|;
    AtSplit(s, c, Lit(":"), after);
    AtChar(s, c, Lit(":"), 0);
    SkipOver(s, i, f.before);
    SkipOver(s, b, f.mid);
    QuoteStarts(f.key, s, a);
    AtJoin(s, c + 1, after, tail);
    assert c + 1 + |after| == i + |FieldText(f)|;
  }

  lemma QuoteStarts(ps: seq<Piece>, s: Text, a: nat)
    requires At(s, a, StringText(ps))
    ensures a < |s| && s[a] == QUOTE && SkipWs(s, a) == a
  {
    AtChar(s, a, StringText(ps), 0);
  }

  lemma AtJoin(s: Text, i: nat, a: Text, b: Text)
    requires At(s, i, a) && At(s, i + |a|, b)
    ensures At(s, i, a + b)
  {}

  lemma {:induction false} FieldReads(f: Field, tail: Text, s: Text, from: nat, i: nat, d: nat, m: Mode,
                                      acc: seq<Member>)
    requires FieldOk(f) && At(s, i, FieldText(f) + tail) && from <= |s| && SkipWs(s, from) == SkipWs(s, i)
    requires tail != [] && !IsNumChar(tail[0]) && !IsWs(tail[0])
    requires !Has(acc, KeyOf(f)) && d + Depth(TreeValue(f.tree)) <= m.limit
    ensures var n := i + |FieldText(f)| - |f.after|;
      && n <= |s| && ParseMember(s, from, d, m, acc) == Ok(Member(KeyOf(f), TreeValue(f.tree)), n)
      && SkipWs(s, n) == n + |f.after| < |s| && s[n + |f.after|] == tail[0] && At(s, n + |f.after|, tail)
    decreases f, 4
  {
    hide ParseValue, ParseString, TreeText, StringText, TreeOk, Blank, SkipWs, ParseMember, Has, PiecesOk;
    FieldPlaces(f, s, i, tail);
    var a := i + |f.before|;
    var b := a + |StringText(f.key)|;
    var c := b + |f.mid|;
    StringReads(f.key, s, a, m);
    TreeStarts(f.tree);
    SlotAt(f.gap, TreeText(f.tree), f.after, tail, s, c + 1);
    TreeReads(f.tree, s, c + 1 + |f.gap|, d, m);
    SkipWsStops(s, c + 1);
    ValueAfterWs(s, c + 1, c + 1 + |f.gap|, d, m);
    FieldTurn(s, from, d, m, acc, KeyOf(f), b, TreeValue(f.tree), c + 1 + |f.gap| + |TreeText(f.tree)|);
  }

  /** The keys still to come are not in the map yet. */
  ghost predicate Fresh(acc: seq<Member>, fields: seq<Field>)
  {
    && (forall k :: 0 <= k < |fields| ==> !Has(acc, KeyOf(fields[k])))
    && forall j, k :: 0 <= j < k < |fields| ==> KeyOf(fields[j]) != KeyOf(fields[k])
  }

  lemma FirstFresh(acc: seq<Member>, fields: seq<Field>)
    requires fields != [] && Fresh(acc, fields)
    ensures !Has(acc, KeyOf(fields[0]))
  {}

  lemma StillFresh(acc: seq<Member>, fields: seq<Field>, v: Json)
    requires fields != [] && Fresh(acc, fields)
    ensures Fresh(Put(acc, KeyOf(fields[0]), v), fields[1..])
  {
    hide Put, KeyOf;
    var k0 := KeyOf(fields[0]);
    var more := Put(acc, k0, v);
    PutMembers(acc, k0, v);
    forall k | 0 <= k < |fields[1..]| ensures !Has(more, KeyOf(fields[1..][k])) {
      assert fields[1..][k] == fields[k + 1];
      forall i | 0 <= i < |more| ensures more[i].key != KeyOf(fields[k + 1]) {
        assert more[i] in more;
        if more[i] in acc { var j :| 0 <= j < |acc| && acc[j] == more[i]; }
      }
    }
    forall j, k | 0 <= j < k < |fields[1..]| ensures KeyOf(fields[1..][j]) != KeyOf(fields[1..][k]) {
      assert fields[1..][j] == fields[j + 1] && fields[1..][k] == fields[k + 1];
    }
  }

  /** What follows the first member. */
  lemma FieldsTail(fields: seq<Field>, s: Text, i: nat) returns (tail: Text)
    requires fields != [] && At(s, i, FieldsText(fields) + Lit("}"))
    ensures tail == if |fields| == 1 then Lit("}") else Lit(",") + (FieldsText(fields[1..]) + Lit("}"))
    ensures At(s, i, FieldText(fields[0]) + tail) && tail != [] && !IsNumChar(tail[0]) && !IsWs(tail[0])
    ensures tail[0] == if |fields| == 1 then RBRACE else COMMA
  {
    hide FieldText;
    if |fields| == 1 {
      tail := Lit("}");
    } else {
      tail := Lit(",") + (FieldsText(fields[1..]) + Lit("}"));
      assert FieldsText(fields) + Lit("}") == FieldText(fields[0]) + tail;
    }
  }

  lemma FieldsTextShape(fields: seq<Field>)
    requires |fields| > 1
    ensures FieldsText(fields) == FieldText(fields[0]) + (Lit(",") + FieldsText(fields[1..]))
  {
    hide FieldText;
  }

  /** The first member and the rest, as text and as values. */
  lemma FieldsShape(acc: seq<Member>, fields: seq<Field>)
    requires fields != []
    ensures FieldsText(fields) ==
      if |fields| == 1 then FieldText(fields[0]) else FieldText(fields[0]) + (Lit(",") + FieldsText(fields[1..]))
    ensures FieldValues(acc, fields) == FieldValues(Put(acc, KeyOf(fields[0]), TreeValue(fields[0].tree)), fields[1..])
    ensures |fields| == 1 ==>
      FieldValues(acc, fields) == Put(acc, KeyOf(fields[0]), TreeValue(fields[0].tree))
  {
    hide FieldText, Put, KeyOf, TreeValue;
  }

  /** The rest of the members stands after the first and its comma. */
  lemma NextFields(fields: seq<Field>, s: Text, i: nat)
    requires |fields| > 1 && At(s, i, FieldsText(fields) + Lit("}"))
    ensures |FieldsText(fields)| == |FieldText(fields[0])| + 1 + |FieldsText(fields[1..])|
    ensures At(s, i + |FieldText(fields[0])| + 1, FieldsText(fields[1..]) + Lit("}"))
  {
    hide FieldText, FieldsText, At, Lit;
    Marks();
    FieldsTextShape(fields);
    var x, rest := FieldText(fields[0]), FieldsText(fields[1..]) + Lit("}");
    assert FieldsText(fields) + Lit("}") == x + (Lit(",") + rest);
    AtSplit(s, i, x, Lit(",") + rest);
    AtSplit(s, i + |x|, Lit(","), rest);
  }

  lemma FieldsEnd(fields: seq<Field>, s: Text, i: nat) returns (tail: Text)
    requires fields != [] && At(s, i, FieldsText(fields) + Lit("}"))
    ensures At(s, i, FieldText(fields[0]) + tail) && tail != [] && !IsNumChar(tail[0]) && !IsWs(tail[0])
    ensures tail[0] == if |fields| == 1 then RBRACE else COMMA
  {
    hide FieldText, FieldsText, At, Lit, IsNumChar, IsWs;
    tail := FieldsTail(fields, s, i);
  }

  /** The first member is read, and what follows it says whether more come. */
  lemma {:induction false} FirstRead(fields: seq<Field>, s: Text, from: nat, i: nat, d: nat, m: Mode, acc: seq<Member>)
    requires fields != [] && FieldOk(fields[0]) && !Has(acc, KeyOf(fields[0]))
    requires At(s, i, FieldsText(fields) + Lit("}")) && from <= |s| && SkipWs(s, from) == SkipWs(s, i)
    requires d + Depth(TreeValue(fields[0].tree)) <= m.limit
    ensures i + |FieldText(fields[0])| < |s|
    ensures var next, more := i + |FieldText(fields[0])| + 1, Put(acc, KeyOf(fields[0]), TreeValue(fields[0].tree));
      ParseMembers(s, from, d, m, acc) ==
        if |fields| > 1 then ParseMembers(s, next, d, m, more) else Ok(Object(more), next)
    decreases fields, 0
  {
    hide ParseMember, ParseSeparator, SkipWs, FieldText, FieldOk, KeyOf, Put, Has, TreeValue, Lit, At, Depth, IsNumChar,
      IsWs, FieldsText, ParseMembers;
    var f := fields[0];
    var tail := FieldsEnd(fields, s, i);
    FieldReads(f, tail, s, from, i, d, m, acc);
    AfterLonger(f);
    var n := i + |FieldText(f)| - |f.after|;
    SeparatorIs(s, n, RBRACE);
    MembersStep(s, from, d, m, acc, Member(KeyOf(f), TreeValue(f.tree)), n);
  }

  lemma {:induction false} FieldsRead(fields: seq<Field>, s: Text, from: nat, i: nat, d: nat, m: Mode, acc: seq<Member>)
    requires fields != [] && (forall k :: 0 <= k < |fields| ==> FieldOk(fields[k])) && Fresh(acc, fields)
    requires At(s, i, FieldsText(fields) + Lit("}")) && from <= |s| && SkipWs(s, from) == SkipWs(s, i)
    requires d + MembersDepth(FieldValues(acc, fields)) <= m.limit
    ensures ParseMembers(s, from, d, m, acc) == Ok(Object(FieldValues(acc, fields)), i + |FieldsText(fields)| + 1)
    decreases fields, 1
  {
    hide SkipWs, FieldText, FieldOk, KeyOf, Put, Has, TreeValue, Lit, At, Depth, Fresh, FieldsText, FieldValues,
      MembersDepth, ParseMembers;
    FieldsShape(acc, fields);
    assert !Has(acc, KeyOf(fields[0])) by { FirstFresh(acc, fields); }
    var v := TreeValue(fields[0].tree);
    var more := Put(acc, KeyOf(fields[0]), v);
    PutMembers(acc, KeyOf(fields[0]), v);
    FieldsDeep(more, fields[1..]);
    FirstRead(fields, s, from, i, d, m, acc);
    if |fields| > 1 {
      StillFresh(acc, fields, v);
      NextFields(fields, s, i);
      var next := i + |FieldText(fields[0])| + 1;
      FieldsRead(fields[1..], s, next, next, d, m, more);
    }
  }

  lemma AfterLonger(f: Field)
    ensures |FieldText(f)| >= |f.after|
  {}

  lemma ObjectTree(gap: Text, fields: seq<Field>)
    ensures TreeText(TreeObject(gap, fields)) ==
      Lit("{") + ((if fields == [] then gap else FieldsText(fields)) + Lit("}"))
    ensures TreeValue(TreeObject(gap, fields)) == Object(FieldValues([], fields)) && FieldValues([], []) == []
  {
    hide FieldsText;
  }

  lemma ObjectParts(gap: Text, fields: seq<Field>)
    requires TreeOk(TreeObject(gap, fields))
    ensures Blank(gap) && Fresh([], fields)
    ensures forall k :: 0 <= k < |fields| ==> FieldOk(fields[k])
  {
    hide FieldOk, Blank, KeyOf;
  }

  lemma EmptyObjectReads(gap: Text, s: Text, i: nat, d: nat, m: Mode)
    requires Blank(gap) && At(s, i, Lit("{") + (gap + Lit("}")))
    ensures i < |s| && s[i] == LBRACE && ParseObject(s, i, d, m) == Ok(Object([]), i + |gap| + 2)
  {
    hide ParseMembers, SkipWs, Lit, Blank, At;
    Marks();
    AtSplit(s, i, Lit("{"), gap + Lit("}"));
    AtChar(s, i, Lit("{"), 0);
    BlankIsWs(gap);
    Closes(s, i + 1, gap, RBRACE);
    NotSeparator(s, i + 1, RBRACE);
  }

  lemma FirstQuote(fields: seq<Field>, s: Text, i: nat)
    requires fields != [] && FieldOk(fields[0]) && At(s, i, FieldsText(fields) + Lit("}"))
    ensures SkipWs(s, i) < |s| && s[SkipWs(s, i)] == QUOTE
  {
    hide SkipWs, FieldsText, FieldText, FieldOk, Lit, At, StringText, IsWs, IsNumChar;
    var tail := FieldsTail(fields, s, i);
    FieldPlaces(fields[0], s, i, tail);
    QuoteStarts(fields[0].key, s, i + |fields[0].before|);
  }

  lemma {:induction false} ObjectReads(gap: Text, fields: seq<Field>, s: Text, i: nat, d: nat, m: Mode)
    requires TreeOk(TreeObject(gap, fields)) && At(s, i, TreeText(TreeObject(gap, fields)))
    requires d + MembersDepth(FieldValues([], fields)) <= m.limit
    ensures i < |s| && s[i] == LBRACE
    ensures ParseObject(s, i, d, m) == Ok(Object(FieldValues([], fields)), i + |TreeText(TreeObject(gap, fields))|)
    decreases fields, 2
  {
    hide ParseMembers, FieldsText, SkipWs, Lit, Blank, FieldValues, At, TreeText, TreeOk, FieldOk, Fresh, MembersDepth;
    Marks();
    ObjectTree(gap, fields);
    ObjectParts(gap, fields);
    if fields == [] {
      EmptyObjectReads(gap, s, i, d, m);
    } else {
      AtSplit(s, i, Lit("{"), FieldsText(fields) + Lit("}"));
      AtChar(s, i, Lit("{"), 0);
      FirstQuote(fields, s, i + 1);
      SkipWsStops(s, i + 1);
      FieldsRead(fields, s, SkipWs(s, i + 1), i + 1, d, m, []);
    }
  }
}
