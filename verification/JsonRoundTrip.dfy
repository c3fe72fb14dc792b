/** The reader undoes the printer: every profile value, in either layout, is read back as itself. */
module JsonRoundTrip {
  import opened Texts
  import opened JsonValues
  import opened JsonGrammar
  import opened JsonPrinter

  /** Where a printed value may stand: nothing that could prolong a number follows it. */
  ghost predicate Ends(s: Text, i: nat) { i == |s| || (i < |s| && !IsNumChar(s[i])) }

  // ---- white space ---------------------------------------------------------------------------

  ghost predicate AllWs(t: Text) { forall k :: 0 <= k < |t| ==> IsWs(t[k]) }

  lemma {:induction false} SkipOver(s: Text, i: nat, w: Text)
    requires At(s, i, w) && AllWs(w)
    ensures SkipWs(s, i) == SkipWs(s, i + |w|)
    decreases |w|
  {
    if w != [] {
      assert w == [w[0]] + w[1..];
      AtSplit(s, i, [w[0]], w[1..]);
      AtChar(s, i, w, 0);
      SkipOver(s, i + 1, w[1..]);
    }
  }

  lemma BreakIsWs(l: Layout, level: nat)
    ensures AllWs(Break(l, level))
  {
    SpacesAreWs(level);
  }

  lemma {:induction false} SpacesAreWs(n: nat)
    ensures AllWs(Spaces(n))
  {
    if n > 0 { SpacesAreWs(n - 1); }
  }

  lemma {:induction false} SkipWsStops(s: Text, i: nat)
    requires i <= |s|
    ensures SkipWs(s, SkipWs(s, i)) == SkipWs(s, i)
    decreases |s| - i
  {
    if i < |s| && IsWs(s[i]) { SkipWsStops(s, i + 1); }
  }

  /** A value reads the same from any position whose white space leads to it. */
  lemma ValueAfterWs(s: Text, i: nat, j: nat, d: nat, m: Mode)
    requires i <= |s| && j <= |s| && SkipWs(s, i) == SkipWs(s, j)
    ensures ParseValue(s, i, d, m) == ParseValue(s, j, d, m)
  {}

  // ---- numbers -------------------------------------------------------------------------------

  lemma {:induction false} DecimalRound(n: nat)
    ensures DecimalValue(DecimalText(n)) == n
    ensures forall k :: 0 <= k < |DecimalText(n)| ==> IsDigit(DecimalText(n)[k])
    ensures DecimalText(n)[0] == ZERO ==> n == 0
    ensures n == 0 ==> DecimalText(n) == [ZERO]
  {
    var t := DecimalText(n);
    if n >= 10 {
      DecimalRound(n / 10);
      assert t[..|t| - 1] == DecimalText(n / 10);
    } else {
      assert t[..0] == [];
    }
  }

  lemma {:induction false} NumEndAt(s: Text, i: nat, t: Text)
    requires At(s, i, t) && (forall k :: 0 <= k < |t| ==> IsNumChar(t[k]))
    requires i + |t| == |s| || !IsNumChar(s[i + |t|])
    ensures NumEnd(s, i) == i + |t|
    decreases |t|
  {
    if t != [] {
      assert t == [t[0]] + t[1..];
      AtSplit(s, i, [t[0]], t[1..]);
      AtChar(s, i, t, 0);
      NumEndAt(s, i + 1, t[1..]);
    }
  }

  lemma IntTextShape(n: int)
    requires -MAX_SAFE_INT <= n <= MAX_SAFE_INT
    ensures NumberToken(IntText(n)) == None && IntValue(IntText(n)) == n
    ensures forall k :: 0 <= k < |IntText(n)| ==> IsNumChar(IntText(n)[k])
  {
    hide DecimalText, DecimalValue;
    var t := IntText(n);
    DecimalRound(if n < 0 then -n else n);
    var digits := if n < 0 then t[1..] else t;
    assert digits == DecimalText(if n < 0 then -n else n);
    assert forall k :: 0 <= k < |t| ==> t[k] == (if n < 0 then if k == 0 then MINUS else digits[k - 1] else digits[k]);
  }

  lemma AtSlice(s: Text, i: nat, t: Text)
    requires At(s, i, t)
    ensures s[i..i + |t|] == t
  {}

  lemma IntRound(n: int, s: Text, i: nat)
    requires -MAX_SAFE_INT <= n <= MAX_SAFE_INT
    requires At(s, i, IntText(n)) && Ends(s, i + |IntText(n)|)
    ensures ParseNumber(s, i) == Ok(Int(n), i + |IntText(n)|)
  {
    IntTextShape(n);
    NumEndAt(s, i, IntText(n));
    AtSlice(s, i, IntText(n));
  }

  // ---- strings -------------------------------------------------------------------------------

  lemma Nibbles(n: int)
    requires 0 <= n < 0x10000
    ensures ((n / 4096 * 16 + n / 256 % 16) * 16 + n / 16 % 16) * 16 + n % 16 == n
  {
    assert n / 256 == n / 4096 * 16 + n / 256 % 16;
    assert n / 16 == n / 256 * 16 + n / 16 % 16;
  }

  lemma Hex4At(n: int, s: Text, i: nat)
    requires 0 <= n < 0x10000 && At(s, i, UnicodeText(n))
    ensures EscapeU(s, i) && Hex4(s, i + 2) == Some(n)
  {
    Nibbles(n);
    var t := UnicodeText(n);
    AtChar(s, i, t, 0);
    AtChar(s, i, t, 1);
    AtChar(s, i, t, 2);
    AtChar(s, i, t, 3);
    AtChar(s, i, t, 4);
    AtChar(s, i, t, 5);
  }

  lemma AstralRound(c: int, s: Text, i: nat, m: Mode)
    requires IsScalar(c) && c > 0xFFFF && At(s, i, Escaped(c))
    ensures i < |s| && StringUnit(s, i, m) == Push(c, i + |Escaped(c)|)
  {
    var hi, lo := 0xD800 + (c - 0x10000) / 0x400, 0xDC00 + (c - 0x10000) % 0x400;
    AtSplit(s, i, UnicodeText(hi), UnicodeText(lo));
    Hex4At(hi, s, i);
    Hex4At(lo, s, i + 6);
  }

  lemma BasicRound(c: int, s: Text, i: nat, m: Mode)
    requires IsScalar(c) && c <= 0xFFFF && At(s, i, UnicodeText(c))
    ensures i < |s| && StringUnit(s, i, m) == Push(c, i + 6)
  {
    Hex4At(c, s, i);
  }

  lemma PlainRound(c: int, t: Text, s: Text, i: nat, m: Mode)
    requires IsScalar(c) && Escaped(c) == t && |t| <= 2 && At(s, i, t)
    ensures i < |s| && StringUnit(s, i, m) == Push(c, i + |t|)
  {
    AtChar(s, i, t, 0);
    if |t| == 2 { AtChar(s, i, t, 1); }
  }

  /** Each escape is read back as the one code point it was made from. */
  lemma UnitRound(c: int, s: Text, i: nat, m: Mode)
    requires IsScalar(c) && At(s, i, Escaped(c))
    ensures i < |s| && StringUnit(s, i, m) == Push(c, i + |Escaped(c)|)
  {
    if c > 0xFFFF {
      AstralRound(c, s, i, m);
    } else if |Escaped(c)| <= 2 {
      PlainRound(c, Escaped(c), s, i, m);
    } else {
      BasicRound(c, s, i, m);
    }
  }

  lemma CloseUnit(s: Text, i: nat, m: Mode)
    requires i < |s| && s[i] == QUOTE
    ensures StringUnit(s, i, m) == Close(i + 1)
  {}

  lemma {:induction false} CharsRound(t: Text, s: Text, i: nat, out: Text, m: Mode)
    requires Scalars(t) && At(s, i, EscapedAll(t) + [QUOTE])
    ensures ParseChars(s, i, out, m) == Ok(out + t, i + |EscapedAll(t)| + 1)
  {
    hide StringUnit, Escaped;
    if t == [] {
      AtChar(s, i, EscapedAll(t) + [QUOTE], 0);
      CloseUnit(s, i, m);
      assert out + t == out;
    } else {
      var rest := EscapedAll(t[1..]) + [QUOTE];
      assert EscapedAll(t) + [QUOTE] == Escaped(t[0]) + rest;
      AtSplit(s, i, Escaped(t[0]), rest);
      UnitRound(t[0], s, i, m);
      CharsRound(t[1..], s, i + |Escaped(t[0])|, out + [t[0]], m);
      assert out + [t[0]] + t[1..] == out + t;
    }
  }

  lemma StringRound(t: Text, s: Text, i: nat, m: Mode)
    requires Scalars(t) && At(s, i, Quoted(t))
    ensures ParseString(s, i, m) == Ok(t, i + |Quoted(t)|)
    ensures i < |s| && s[i] == QUOTE
  {
    assert Quoted(t) == [QUOTE] + (EscapedAll(t) + [QUOTE]);
    AtSplit(s, i, [QUOTE], EscapedAll(t) + [QUOTE]);
    AtChar(s, i, [QUOTE], 0);
    CharsRound(t, s, i + 1, [], m);
    assert [] + t == t;
  }

  // ---- values --------------------------------------------------------------------------------

  lemma FirstChar(v: Json, l: Layout, level: nat)
    requires Profile(v)
    ensures Print(v, l, level) != [] && !IsWs(Print(v, l, level)[0])
    ensures var c := Print(v, l, level)[0];
      c == (match v case Null => 110 case Bool(b) => if b then 116 else 102 case Str(_) => QUOTE
                    case Array(_) => LBRACKET case Object(_) => LBRACE case Int(_) => c)
    ensures v.Int? ==> IsDigit(Print(v, l, level)[0]) || Print(v, l, level)[0] == MINUS
  {
    if v.Int? { DecimalRound(if v.n < 0 then -v.n else v.n); }
  }

  /** After the last item: an optional break, then the closing bracket. */
  lemma Closes(s: Text, i: nat, w: Text, close: int)
    requires At(s, i, w + [close]) && AllWs(w) && !IsWs(close) && close != COMMA
    ensures ParseSeparator(s, i, close) == Ok(false, i + |w| + 1)
  {
    AtSplit(s, i, w, [close]);
    AtChar(s, i + |w|, [close], 0);
    SkipOver(s, i, w);
  }

  lemma {:induction false} ValueRound(v: Json, l: Layout, level: nat, s: Text, i: nat, d: nat, m: Mode)
    requires Profile(v) && At(s, i, Print(v, l, level)) && Ends(s, i + |Print(v, l, level)|)
    requires d + Depth(v) <= m.limit
    ensures ParseValue(s, i, d, m) == Ok(v, i + |Print(v, l, level)|)
    decreases v, 2
  {
    var p := Print(v, l, level);
    FirstChar(v, l, level);
    AtChar(s, i, p, 0);
    assert SkipWs(s, i) == i;
    match v {
      case Null => assert s[i..i + |p|] == p;
      case Bool(b) => assert s[i..i + |p|] == p;
      case Int(n) => IntRound(n, s, i);
      case Str(t) => StringRound(t, s, i, m);
      case Array(items) => ArrayRound(items, l, level, s, i, d + 1, m);
      case Object(ms) => ObjectRound(ms, l, level, s, i, d + 1, m);
    }
  }

  // The text of a list taken apart: where its first element stands and what follows it.

  lemma ListText(b: Text, p: Text, tail: Text, s: Text, i: nat)
    requires At(s, i, b + (p + tail)) && AllWs(b) && p != [] && !IsWs(p[0])
    ensures SkipWs(s, i) == i + |b| < |s| && s[i + |b|] == p[0]
    ensures At(s, i + |b|, p) && At(s, i + |b| + |p|, tail)
  {
    AtSplit(s, i, b, p + tail);
    AtSplit(s, i + |b|, p, tail);
    SkipOver(s, i, b);
    AtChar(s, i + |b|, p, 0);
  }

  lemma CommaText(rest: Text, s: Text, n: nat)
    requires At(s, n, [COMMA] + rest)
    ensures n < |s| && s[n] == COMMA && At(s, n + 1, rest)
  {
    AtSplit(s, n, [COMMA], rest);
    AtChar(s, n, [COMMA], 0);
  }

  lemma ItemsText(items: seq<Json>, l: Layout, level: nat, s: Text, i: nat) returns (a: nat, n: nat)
    requires items != [] && forall k :: 0 <= k < |items| ==> Profile(items[k])
    requires At(s, i, PrintItems(items, l, level))
    ensures SkipWs(s, i) == a < |s| && At(s, a, Print(items[0], l, level))
    ensures !IsWs(s[a]) && s[a] != RBRACKET && n == a + |Print(items[0], l, level)|
    ensures |items| == 1 ==> n == i + |PrintItems(items, l, level)|
    ensures |items| > 1 ==> n < |s| && s[n] == COMMA && At(s, n + 1, PrintItems(items[1..], l, level))
                            && n + 1 + |PrintItems(items[1..], l, level)| == i + |PrintItems(items, l, level)|
  {
    var b, p := Break(l, level), Print(items[0], l, level);
    a := i + |b|;
    n := a + |p|;
    BreakIsWs(l, level);
    FirstChar(items[0], l, level);
    if |items| == 1 {
      ListText(b, p, [], s, i);
    } else {
      var rest := PrintItems(items[1..], l, level);
      ListText(b, p, [COMMA] + rest, s, i);
      CommaText(rest, s, n);
    }
  }

  lemma MemberStart(mem: Member, l: Layout, level: nat)
    requires Scalars(mem.key) && Profile(mem.val)
    ensures PrintMember(mem, l, level) != [] && PrintMember(mem, l, level)[0] == QUOTE
  {
    assert Quoted(mem.key)[0] == QUOTE;
  }

  lemma MembersText(ms: seq<Member>, l: Layout, level: nat, s: Text, i: nat) returns (a: nat, n: nat)
    requires ms != [] && forall k :: 0 <= k < |ms| ==> Scalars(ms[k].key) && Profile(ms[k].val)
    requires At(s, i, PrintMembers(ms, l, level))
    ensures SkipWs(s, i) == a < |s| && At(s, a, PrintMember(ms[0], l, level))
    ensures s[a] == QUOTE && n == a + |PrintMember(ms[0], l, level)|
    ensures |ms| == 1 ==> n == i + |PrintMembers(ms, l, level)|
    ensures |ms| > 1 ==> n < |s| && s[n] == COMMA && At(s, n + 1, PrintMembers(ms[1..], l, level))
                         && n + 1 + |PrintMembers(ms[1..], l, level)| == i + |PrintMembers(ms, l, level)|
  {
    var b, p := Break(l, level), PrintMember(ms[0], l, level);
    a := i + |b|;
    n := a + |p|;
    BreakIsWs(l, level);
    MemberStart(ms[0], l, level);
    if |ms| == 1 {
      ListText(b, p, [], s, i);
    } else {
      var rest := PrintMembers(ms[1..], l, level);
      ListText(b, p, [COMMA] + rest, s, i);
      CommaText(rest, s, n);
    }
  }

  // One turn of the reading loops, in terms of positions alone.

  lemma ItemsTurn(s: Text, i: nat, a: nat, d: nat, m: Mode, acc: seq<Json>, v: Json, n: nat)
    requires i <= |s| && SkipWs(s, i) == a < |s| && ParseValue(s, a, d, m) == Ok(v, n) && n <= |s|
    ensures match ParseSeparator(s, n, RBRACKET)
            case Ok(true, e) => ParseItems(s, i, d, m, acc) == ParseItems(s, e, d, m, acc + [v])
            case Ok(false, e) => ParseItems(s, i, d, m, acc) == Ok(Array(acc + [v]), e)
            case Err(_) => true
  {
    SkipWsStops(s, i);
    ValueAfterWs(s, i, a, d, m);
  }

  lemma MembersTurn(s: Text, i: nat, a: nat, d: nat, m: Mode, acc: seq<Member>, mem: Member, n: nat)
    requires i <= |s| && SkipWs(s, i) == a < |s| && ParseMember(s, a, d, m, acc) == Ok(mem, n) && n <= |s|
    requires Put(acc, mem.key, mem.val) == acc + [mem]
    ensures match ParseSeparator(s, n, RBRACE)
            case Ok(true, e) => ParseMembers(s, i, d, m, acc) == ParseMembers(s, e, d, m, acc + [mem])
            case Ok(false, e) => ParseMembers(s, i, d, m, acc) == Ok(Object(acc + [mem]), e)
            case Err(_) => true
  {
    SkipWsStops(s, i);
    assert ParseMember(s, i, d, m, acc) == ParseMember(s, a, d, m, acc);
  }

  lemma SeparatorAtComma(s: Text, n: nat, close: int)
    requires n < |s| && s[n] == COMMA
    ensures ParseSeparator(s, n, close) == Ok(true, n + 1)
  {}

  /** The brackets around a non-empty list. */
  lemma Brackets(open: int, inner: Text, l: Layout, level: nat, close: int, s: Text, i: nat)
    requires At(s, i, [open] + (inner + (Break(l, level) + [close])))
    ensures i < |s| && s[i] == open && At(s, i + 1, inner) && At(s, i + 1 + |inner|, Break(l, level) + [close])
  {
    AtChar(s, i, [open] + (inner + (Break(l, level) + [close])), 0);
    AtSplit(s, i, [open], inner + (Break(l, level) + [close]));
    AtSplit(s, i + 1, inner, Break(l, level) + [close]);
  }

  lemma EndsBeforeClose(s: Text, n: nat, w: Text, close: int)
    requires At(s, n, w + [close]) && AllWs(w) && !IsNumChar(close)
    ensures Ends(s, n)
  {
    AtChar(s, n, w + [close], 0);
  }

  lemma {:induction false} ArrayRound(items: seq<Json>, l: Layout, level: nat, s: Text, i: nat, d: nat, m: Mode)
    requires Profile(Array(items)) && At(s, i, Print(Array(items), l, level))
    requires d + ItemsDepth(items) <= m.limit
    ensures i < |s| && s[i] == LBRACKET
    ensures ParseArray(s, i, d, m) == Ok(Array(items), i + |Print(Array(items), l, level)|)
    decreases items, 1
  {
    hide ParseItems, PrintItems, Break;
    BreakIsWs(l, level);
    if items == [] {
      AtChar(s, i, Print(Array(items), l, level), 0);
      AtChar(s, i, Print(Array(items), l, level), 1);
    } else {
      var inner := PrintItems(items, l, level + 1);
      Brackets(LBRACKET, inner, l, level, RBRACKET, s, i);
      var a, n := ItemsText(items, l, level + 1, s, i + 1);
      ItemsRound(items, l, level + 1, s, a, i + 1, d, m, [], Break(l, level));
      assert [] + items == items;
    }
  }

  /** The loop reads the same from `at`, the first value, as from the text before its break. */
  lemma {:induction false} ItemsRound(items: seq<Json>, l: Layout, level: nat, s: Text, from: nat, i: nat, d: nat,
                                      m: Mode, acc: seq<Json>, w: Text)
    requires items != [] && forall k :: 0 <= k < |items| ==> Profile(items[k])
    requires At(s, i, PrintItems(items, l, level)) && from <= |s| && SkipWs(s, from) == SkipWs(s, i)
    requires At(s, i + |PrintItems(items, l, level)|, w + [RBRACKET]) && AllWs(w)
    requires d + ItemsDepth(items) <= m.limit
    ensures ParseItems(s, from, d, m, acc) == Ok(Array(acc + items), i + |PrintItems(items, l, level)| + |w| + 1)
    decreases items, 0
  {
    hide ParseValue, Print, ParseSeparator, Break, SkipWs;
    var a, n := ItemsText(items, l, level, s, i);
    var v := items[0];
    if |items| == 1 {
      EndsBeforeClose(s, n, w, RBRACKET);
      ValueRound(v, l, level, s, a, d, m);
      Closes(s, n, w, RBRACKET);
      ItemsTurn(s, from, a, d, m, acc, v, n);
      assert items == [v];
    } else {
      ValueRound(v, l, level, s, a, d, m);
      SeparatorAtComma(s, n, RBRACKET);
      ItemsTurn(s, from, a, d, m, acc, v, n);
      ItemsRound(items[1..], l, level, s, n + 1, n + 1, d, m, acc + [v], w);
      assert acc + [v] + items[1..] == acc + items;
    }
  }

  lemma {:induction false} ObjectRound(ms: seq<Member>, l: Layout, level: nat, s: Text, i: nat, d: nat, m: Mode)
    requires Profile(Object(ms)) && At(s, i, Print(Object(ms), l, level))
    requires d + MembersDepth(ms) <= m.limit
    ensures i < |s| && s[i] == LBRACE
    ensures ParseObject(s, i, d, m) == Ok(Object(ms), i + |Print(Object(ms), l, level)|)
    decreases ms, 1
  {
    hide ParseMembers, PrintMembers, Break;
    BreakIsWs(l, level);
    if ms == [] {
      AtChar(s, i, Print(Object(ms), l, level), 0);
      AtChar(s, i, Print(Object(ms), l, level), 1);
    } else {
      var inner := PrintMembers(ms, l, level + 1);
      Brackets(LBRACE, inner, l, level, RBRACE, s, i);
      var a, n := MembersText(ms, l, level + 1, s, i + 1);
      assert [] + ms == ms;
      MembersRound(ms, l, level + 1, s, a, i + 1, d, m, [], Break(l, level));
    }
  }

  lemma KeyText(q: Text, c: Text, p: Text, s: Text, i: nat)
    requires At(s, i, q + (c + p)) && (c == [COLON] || c == [COLON, 0x20]) && p != [] && !IsWs(p[0])
    ensures At(s, i, q) && At(s, i + |q| + |c|, p)
    ensures i + |q| < |s| && s[i + |q|] == COLON && SkipWs(s, i + |q|) == i + |q|
    ensures i + |q| + |c| < |s| && SkipWs(s, i + |q| + 1) == i + |q| + |c| == SkipWs(s, i + |q| + |c|)
  {
    AtSplit(s, i, q, c + p);
    AtSplit(s, i + |q|, c, p);
    AtChar(s, i + |q|, c, 0);
    AtChar(s, i + |q| + |c|, p, 0);
    if |c| == 2 { AtChar(s, i + |q|, c, 1); }
  }

  /** One turn of reading a member, in terms of positions alone. */
  lemma MemberTurn(s: Text, i: nat, d: nat, m: Mode, acc: seq<Member>, k: Text, a: nat, b: nat, v: Json, n: nat)
    requires i <= |s| && SkipWs(s, i) == i && ParseString(s, i, m) == Ok(k, a) && !Has(acc, k)
    requires a < |s| && SkipWs(s, a) == a && s[a] == COLON
    requires b <= |s| && SkipWs(s, a + 1) == SkipWs(s, b) && ParseValue(s, b, d, m) == Ok(v, n)
    ensures ParseMember(s, i, d, m, acc) == Ok(Member(k, v), n)
  {
    hide ParseString, Has, ParseValue, SkipWs;
    ValueAfterWs(s, a + 1, b, d, m);
  }

  lemma {:induction false} MemberRound(mem: Member, l: Layout, level: nat, s: Text, i: nat, d: nat, m: Mode,
                                       acc: seq<Member>)
    requires Scalars(mem.key) && Profile(mem.val) && !Has(acc, mem.key)
    requires At(s, i, PrintMember(mem, l, level)) && Ends(s, i + |PrintMember(mem, l, level)|)
    requires d + Depth(mem.val) <= m.limit
    ensures ParseMember(s, i, d, m, acc) == Ok(mem, i + |PrintMember(mem, l, level)|)
    decreases mem, 3
  {
    hide ParseMember, ParseValue, ParseString, Print, Quoted;
    var q, c, p := Quoted(mem.key), KeyColon(l), Print(mem.val, l, level);
    FirstChar(mem.val, l, level);
    KeyText(q, c, p, s, i);
    StringRound(mem.key, s, i, m);
    ValueRound(mem.val, l, level, s, i + |q| + |c|, d, m);
    MemberTurn(s, i, d, m, acc, mem.key, i + |q|, i + |q| + |c|, mem.val, i + |q| + |c| + |p|);
  }

  lemma KeysBelow(acc: seq<Member>, ms: seq<Member>)
    requires ms != [] && Sorted(acc + ms)
    ensures Put(acc, ms[0].key, ms[0].val) == acc + [ms[0]] && !Has(acc, ms[0].key)
    ensures acc + [ms[0]] + ms[1..] == acc + ms
  {
    forall k | 0 <= k < |acc| ensures Less(acc[k].key, ms[0].key) {
      assert (acc + ms)[k] == acc[k] && (acc + ms)[|acc|] == ms[0];
    }
    PutLast(acc, ms[0].key, ms[0].val);
  }

  lemma {:induction false} MembersRound(ms: seq<Member>, l: Layout, level: nat, s: Text, from: nat, i: nat, d: nat,
                                        m: Mode, acc: seq<Member>, w: Text)
    requires ms != [] && forall k :: 0 <= k < |ms| ==> Scalars(ms[k].key) && Profile(ms[k].val)
    requires Sorted(acc + ms)
    requires At(s, i, PrintMembers(ms, l, level)) && from <= |s| && SkipWs(s, from) == SkipWs(s, i)
    requires At(s, i + |PrintMembers(ms, l, level)|, w + [RBRACE]) && AllWs(w)
    requires d + MembersDepth(ms) <= m.limit
    ensures ParseMembers(s, from, d, m, acc) == Ok(Object(acc + ms), i + |PrintMembers(ms, l, level)| + |w| + 1)
    decreases ms, 0
  {
    hide ParseMember, PrintMember, ParseSeparator, Break, Profile, Put;
    var a, n := MembersText(ms, l, level, s, i);
    KeysBelow(acc, ms);
    if |ms| == 1 {
      EndsBeforeClose(s, n, w, RBRACE);
      MemberRound(ms[0], l, level, s, a, d, m, acc);
      Closes(s, n, w, RBRACE);
      MembersTurn(s, from, a, d, m, acc, ms[0], n);
      assert ms == [ms[0]];
    } else {
      MemberRound(ms[0], l, level, s, a, d, m, acc);
      SeparatorAtComma(s, n, RBRACE);
      MembersTurn(s, from, a, d, m, acc, ms[0], n);
      MembersRound(ms[1..], l, level, s, n + 1, n + 1, d, m, acc + [ms[0]], w);
    }
  }

  /** Parse after print is the identity, for every profile value within the nesting bound and in either
      layout, and it consumes the whole text (RFC 8259 sections 2, 6 and 7). */
  lemma RoundTrip(v: Json, l: Layout, m: Mode)
    requires Profile(v) && Depth(v) <= m.limit
    ensures ParseText(Print(v, l, 0), m) == Ok(v, |Print(v, l, 0)|)
  {
    var s := Print(v, l, 0);
    assert At(s, 0, s) by { assert s[0..|s|] == s; }
    ValueRound(v, l, 0, s, 0, 0, m);
  }
}
