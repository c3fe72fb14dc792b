/** The printed text of a value, spelled out: each escape by its characters, numbers by their digits, and containers as
    their parts joined by commas, on one line or one part a line. */
module JsonText {
  import opened Texts
  import opened JsonValues
  import opened JsonGrammar
  import opened JsonPrinter
  import opened JsonSyntax

  // ---- strings -------------------------------------------------------------------------------------

  /** `\uXXXX` with the four lower-case digits of n. */
  ghost predicate LowerEscape(t: Text, n: int)
  {
    && |t| == 6 && t[..2] == Lit("\\u") && 0 <= n < 0x10000
    && t[2] == LOWER_DIGITS[n / 4096] as int && t[3] == LOWER_DIGITS[n / 256 % 16] as int
    && t[4] == LOWER_DIGITS[n / 16 % 16] as int && t[5] == LOWER_DIGITS[n % 16] as int
  }

  /** How a code point is written: the short escapes, the printable ASCII characters as they are, and the rest by
      number, beyond the first plane as a surrogate pair. */
  ghost predicate WrittenAs(t: Text, c: int)
  {
    if c == '"' as int then t == Lit("\\\"")
    else if c == '\\' as int then t == Lit("\\\\")
    else if c == '\n' as int then t == Lit("\\n")
    else if c == '\r' as int then t == Lit("\\r")
    else if c == '\t' as int then t == Lit("\\t")
    else if c == 0x08 then t == Lit("\\b")
    else if c == 0x0C then t == Lit("\\f")
    else if ' ' as int <= c <= '~' as int then t == [c]
    else if c <= 0xFFFF then LowerEscape(t, c)
    else
      exists hi, lo :: 0xD800 <= hi < 0xDC00 && 0xDC00 <= lo < 0xE000
        && c == 0x10000 + (hi - 0xD800) * 0x400 + (lo - 0xDC00)
        && |t| == 12 && LowerEscape(t[..6], hi) && LowerEscape(t[6..], lo)
  }

  lemma LowerDigit(n: int)
    requires 0 <= n < 16
    ensures HexChar(n) == LOWER_DIGITS[n] as int
  {}

  lemma UnicodeIs(n: int)
    requires 0 <= n < 0x10000
    ensures LowerEscape(UnicodeText(n), n)
  {
    hide HexChar;
    LowerDigit(n / 4096);
    LowerDigit(n / 256 % 16);
    LowerDigit(n / 16 % 16);
    LowerDigit(n % 16);
    assert UnicodeText(n)[..2] == Lit("\\u");
  }

  lemma EscapedIs(c: int)
    requires IsScalar(c)
    ensures WrittenAs(Escaped(c), c)
  {
    hide UnicodeText, LowerEscape;
    ShortEscapes();
    if c > 0xFFFF {
      var v := c - 0x10000;
      var hi, lo := 0xD800 + v / 0x400, 0xDC00 + v % 0x400;
      assert v == v / 0x400 * 0x400 + v % 0x400;
      UnicodeIs(hi);
      UnicodeIs(lo);
      assert Escaped(c) == UnicodeText(hi) + UnicodeText(lo);
      assert Escaped(c)[..6] == UnicodeText(hi) && Escaped(c)[6..] == UnicodeText(lo);
    } else if c < 0x20 || c > 0x7e {
      UnicodeIs(c);
    }
  }

  lemma ShortEscapes()
    ensures Lit("\\\"") == [BACKSLASH, QUOTE] && Lit("\\\\") == [BACKSLASH, BACKSLASH]
    ensures Lit("\\n") == [BACKSLASH, 110] && Lit("\\r") == [BACKSLASH, 114] && Lit("\\t") == [BACKSLASH, 116]
    ensures Lit("\\b") == [BACKSLASH, 98] && Lit("\\f") == [BACKSLASH, 102]
  {}

  /** A quoted text is its code points as they are written, one after the other, between quotes. */
  lemma QuotedIs(t: Text, c: int)
    requires Scalars(t) && IsScalar(c)
    ensures Quoted([]) == Lit("\"\"")
    ensures exists e :: WrittenAs(e, c) && exists inside ::
      Quoted(t) == Lit("\"") + inside + Lit("\"") && Quoted(t + [c]) == Lit("\"") + inside + e + Lit("\"")
  {
    hide Escaped, WrittenAs;
    EscapedIs(c);
    EscapedAllAppend(t, c);
    assert Lit("\"") == [QUOTE];
    var inside := EscapedAll(t);
    assert Quoted(t) == Lit("\"") + inside + Lit("\"");
    assert Quoted(t + [c]) == Lit("\"") + inside + Escaped(c) + Lit("\"");
  }

  // ---- numbers and words ---------------------------------------------------------------------------

  /** The number some decimal digits stand for. */
  function DigitsNumber(t: Text): (n: int)
  {
    if t == [] then 0 else DigitsNumber(t[..|t| - 1]) * 10 + (t[|t| - 1] - '0' as int)
  }

  /** Digits, without a leading zero except in zero itself. */
  lemma {:induction false} DecimalIs(n: nat)
    ensures var t := DecimalText(n);
      && t != [] && (forall k :: 0 <= k < |t| ==> '0' as int <= t[k] <= '9' as int)
      && DigitsNumber(t) == n && (t[0] == '0' as int ==> n == 0)
  {
    var t := DecimalText(n);
    if n >= 10 {
      DecimalIs(n / 10);
      assert t[..|t| - 1] == DecimalText(n / 10);
    } else {
      assert t[..0] == [];
    }
  }

  lemma WordsAre(l: Layout, level: nat)
    ensures Print(Null, l, level) == Lit("null")
    ensures Print(Bool(true), l, level) == Lit("true") && Print(Bool(false), l, level) == Lit("false")
    ensures Print(Array([]), l, level) == Lit("[]") && Print(Object([]), l, level) == Lit("{}")
  {}

  lemma AtomsAre(v: Json, l: Layout, level: nat)
    requires Profile(v)
    ensures v.Str? ==> Print(v, l, level) == Quoted(v.s)
    ensures v.Int? ==> Print(v, l, level) == if v.n < 0 then Lit("-") + DecimalText(-v.n) else DecimalText(v.n)
  {
    assert Lit("-") == [MINUS];
  }

  // ---- containers ----------------------------------------------------------------------------------

  function Join(parts: seq<Text>, comma: Text): (r: Text)
  {
    if parts == [] then [] else if |parts| == 1 then parts[0] else parts[0] + comma + Join(parts[1..], comma)
  }

  /** Nothing, or a new line and one space for each level. */
  function Indent(l: Layout, level: nat): (r: Text)
  {
    if l == Compact then [] else ['\n' as int] + seq(level, i => ' ' as int)
  }

  /** The parts of a container that is not empty, between its brackets. */
  function Listed(open: Text, parts: seq<Text>, close: Text, l: Layout, level: nat): (r: Text)
  {
    open + Indent(l, level + 1) + Join(parts, Lit(",") + Indent(l, level + 1)) + Indent(l, level) + close
  }

  lemma {:induction false} SpacesAre(n: nat)
    ensures Spaces(n) == seq(n, i => ' ' as int)
  {
    if n > 0 {
      SpacesAre(n - 1);
      assert seq(n, i => ' ' as int) == [' ' as int] + seq(n - 1, i => ' ' as int);
    }
  }

  lemma BreakIs(l: Layout, level: nat)
    ensures Break(l, level) == Indent(l, level)
  {
    SpacesAre(level);
  }

  function ItemTexts(items: seq<Json>, l: Layout, level: nat): (r: seq<Text>)
    requires forall k :: 0 <= k < |items| ==> Profile(items[k])
    ensures |r| == |items| && forall k :: 0 <= k < |items| ==> r[k] == Print(items[k], l, level)
  {
    seq(|items|, k requires 0 <= k < |items| => Print(items[k], l, level))
  }

  /** A key, a colon, and on lines of its own a space, then the value. */
  function PairText(m: Member, l: Layout, level: nat): (r: Text)
    requires Scalars(m.key) && Profile(m.val)
  {
    Quoted(m.key) + (if l == Compact then Lit(":") else Lit(": ")) + Print(m.val, l, level)
  }

  function PairTexts(ms: seq<Member>, l: Layout, level: nat): (r: seq<Text>)
    requires forall k :: 0 <= k < |ms| ==> Scalars(ms[k].key) && Profile(ms[k].val)
    ensures |r| == |ms| && forall k :: 0 <= k < |ms| ==> r[k] == PairText(ms[k], l, level)
  {
    seq(|ms|, k requires 0 <= k < |ms| => PairText(ms[k], l, level))
  }

  lemma {:induction false} ItemsJoined(items: seq<Json>, l: Layout, level: nat)
    requires items != [] && forall k :: 0 <= k < |items| ==> Profile(items[k])
    ensures PrintItems(items, l, level) ==
      Indent(l, level) + Join(ItemTexts(items, l, level), Lit(",") + Indent(l, level))
    decreases |items|
  {
    hide Print, Profile, Break, Indent;
    BreakIs(l, level);
    var parts := ItemTexts(items, l, level);
    if |items| > 1 {
      ItemsJoined(items[1..], l, level);
      assert parts[1..] == ItemTexts(items[1..], l, level);
      JoinMore(parts, [COMMA], Indent(l, level));
    }
    assert Lit(",") == [COMMA];
  }

  lemma JoinMore(parts: seq<Text>, comma: Text, gap: Text)
    requires |parts| > 1
    ensures gap + (parts[0] + (comma + (gap + Join(parts[1..], comma + gap)))) == gap + Join(parts, comma + gap)
  {
    var rest := Join(parts[1..], comma + gap);
    assert Join(parts, comma + gap) == parts[0] + (comma + gap) + rest;
    assert parts[0] + (comma + (gap + rest)) == parts[0] + (comma + gap) + rest;
  }

  lemma PairIs(m: Member, l: Layout, level: nat)
    requires Scalars(m.key) && Profile(m.val)
    ensures PrintMember(m, l, level) == PairText(m, l, level)
  {
    hide Print, Profile, Quoted;
    assert Lit(":") == [COLON] && Lit(": ") == [COLON, 0x20];
    var value := Print(m.val, l, level);
    assert Quoted(m.key) + (KeyColon(l) + value) == Quoted(m.key) + KeyColon(l) + value;
  }

  lemma {:induction false} MembersJoined(ms: seq<Member>, l: Layout, level: nat)
    requires ms != [] && forall k :: 0 <= k < |ms| ==> Scalars(ms[k].key) && Profile(ms[k].val)
    ensures PrintMembers(ms, l, level) ==
      Indent(l, level) + Join(PairTexts(ms, l, level), Lit(",") + Indent(l, level))
    decreases |ms|
  {
    hide Print, Profile, Break, Indent, PairText, PrintMember, Scalars;
    BreakIs(l, level);
    PairIs(ms[0], l, level);
    var parts := PairTexts(ms, l, level);
    if |ms| > 1 {
      MembersJoined(ms[1..], l, level);
      assert parts[1..] == PairTexts(ms[1..], l, level);
      JoinMore(parts, [COMMA], Indent(l, level));
    }
    assert Lit(",") == [COMMA];
  }

  /** The text of an array or object that is not empty: its elements or pairs, in order, in either layout. */
  lemma ContainersAre(v: Json, l: Layout, level: nat)
    requires Profile(v)
    ensures v.Array? && v.items != [] ==>
      Print(v, l, level) == Listed(Lit("["), ItemTexts(v.items, l, level + 1), Lit("]"), l, level)
    ensures v.Object? && v.members != [] ==>
      Print(v, l, level) == Listed(Lit("{"), PairTexts(v.members, l, level + 1), Lit("}"), l, level)
  {
    hide Profile, Break, Indent, PairText, PrintItems, PrintMembers, Scalars, Join;
    assert Lit("[") == [LBRACKET] && Lit("]") == [RBRACKET] && Lit("{") == [LBRACE] && Lit("}") == [RBRACE];
    BreakIs(l, level);
    PartsProfile(v);
    if v.Array? && v.items != [] {
      ItemsJoined(v.items, l, level + 1);
      Bracketed([LBRACKET], Indent(l, level + 1),
                Join(ItemTexts(v.items, l, level + 1), Lit(",") + Indent(l, level + 1)), Indent(l, level), [RBRACKET]);
    }
    if v.Object? && v.members != [] {
      MembersJoined(v.members, l, level + 1);
      Bracketed([LBRACE], Indent(l, level + 1),
                Join(PairTexts(v.members, l, level + 1), Lit(",") + Indent(l, level + 1)), Indent(l, level), [RBRACE]);
    }
  }

  lemma PartsProfile(v: Json)
    requires Profile(v)
    ensures v.Array? ==> forall k :: 0 <= k < |v.items| ==> Profile(v.items[k])
    ensures v.Object? ==> forall k :: 0 <= k < |v.members| ==> Scalars(v.members[k].key) && Profile(v.members[k].val)
  {}

  lemma Bracketed(open: Text, gap: Text, body: Text, last: Text, close: Text)
    ensures open + ((gap + body) + (last + close)) == open + gap + body + last + close
  {}
}
