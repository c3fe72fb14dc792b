/** The printers: the canonical form every digest commits to, and the indented form a pack is stored in.
    Both are the same recursion over the value; they differ in the white space between tokens. */
module JsonPrinter {
  import opened Texts
  import opened JsonValues
  import opened JsonGrammar

  /** `Compact`: separators "," and ":" and nothing else. `Indented`: one space per level. */
  datatype Layout = Compact | Indented

  function HexChar(n: int): (c: int)
    requires 0 <= n < 16
    ensures IsLowerHex(c) && HexDigit(c) == n
  {
    if n < 10 then 48 + n else 87 + n
  }

  /** `\uXXXX` with lower-case digits. */
  function UnicodeText(n: int): (t: Text)
    requires 0 <= n < 0x10000
    ensures |t| == 6
  {
    [BACKSLASH, LOWER_U, HexChar(n / 4096), HexChar(n / 256 % 16), HexChar(n / 16 % 16), HexChar(n % 16)]
  }

  /** One code point inside a string: ASCII only, astral code points as a surrogate pair. */
  function Escaped(c: int): (t: Text)
    requires IsScalar(c)
    ensures t != []
  {
    if c == QUOTE then [BACKSLASH, QUOTE]
    else if c == BACKSLASH then [BACKSLASH, BACKSLASH]
    else if c == 0x0A then [BACKSLASH, 110]
    else if c == 0x0D then [BACKSLASH, 114]
    else if c == 0x09 then [BACKSLASH, 116]
    else if c == 0x08 then [BACKSLASH, 98]
    else if c == 0x0C then [BACKSLASH, 102]
    else if c < 0x20 || c > 0x7e then
      if c > 0xFFFF then
        UnicodeText(0xD800 + (c - 0x10000) / 0x400) + UnicodeText(0xDC00 + (c - 0x10000) % 0x400)
      else UnicodeText(c)
    else [c]
  }

  function EscapedAll(t: Text): (r: Text)
    requires Scalars(t)
  {
    if t == [] then [] else Escaped(t[0]) + EscapedAll(t[1..])
  }

  function Quoted(t: Text): (r: Text)
    requires Scalars(t)
  {
    [QUOTE] + EscapedAll(t) + [QUOTE]
  }

  lemma {:induction false} EscapedAllAppend(t: Text, c: int)
    requires Scalars(t) && IsScalar(c)
    ensures EscapedAll(t + [c]) == EscapedAll(t) + Escaped(c)
  {
    if t == [] {
      assert [c][1..] == [];
    } else {
      assert (t + [c])[1..] == t[1..] + [c];
      EscapedAllAppend(t[1..], c);
    }
  }

  /** The push loop of json.rs `escape`. */
  method Escape(t: Text) returns (out: Text)
    requires Scalars(t)
    ensures out == Quoted(t)
  {
    hide Escaped;
    out := [QUOTE];
    for k := 0 to |t|
      invariant out == [QUOTE] + EscapedAll(t[..k])
    {
      EscapedAllAppend(t[..k], t[k]);
      assert t[..k + 1] == t[..k] + [t[k]];
      out := out + Escaped(t[k]);
    }
    assert t[..|t|] == t;
    out := out + [QUOTE];
  }

  function DecimalText(n: nat): (t: Text)
    ensures t != []
  {
    if n < 10 then [48 + n] else DecimalText(n / 10) + [48 + n % 10]
  }

  function IntText(n: int): (r: Text)
  {
    if n < 0 then [MINUS] + DecimalText(-n) else DecimalText(n)
  }

  function Spaces(n: nat): (r: Text) { if n == 0 then [] else [0x20] + Spaces(n - 1) }

  function Break(l: Layout, level: nat): (r: Text)
  {
    if l == Compact then [] else [0x0A] + Spaces(level)
  }

  function KeyColon(l: Layout): (r: Text) { if l == Compact then [COLON] else [COLON, 0x20] }

  function Print(v: Json, l: Layout, level: nat): (r: Text)
    requires Profile(v)
  {
    match v
    case Null => NULL_TEXT
    case Bool(b) => if b then TRUE_TEXT else FALSE_TEXT
    case Int(n) => IntText(n)
    case Str(s) => Quoted(s)
    case Array(items) =>
      if items == [] then [LBRACKET, RBRACKET]
      else [LBRACKET] + (PrintItems(items, l, level + 1) + (Break(l, level) + [RBRACKET]))
    case Object(ms) =>
      if ms == [] then [LBRACE, RBRACE]
      else [LBRACE] + (PrintMembers(ms, l, level + 1) + (Break(l, level) + [RBRACE]))
  }

  /** The items joined by commas, each after the break of its level. */
  function PrintItems(items: seq<Json>, l: Layout, level: nat): (r: Text)
    requires items != [] && forall k :: 0 <= k < |items| ==> Profile(items[k])
  {
    Break(l, level) + (Print(items[0], l, level)
    + (if |items| == 1 then [] else [COMMA] + PrintItems(items[1..], l, level)))
  }

  function PrintMember(m: Member, l: Layout, level: nat): (r: Text)
    requires Scalars(m.key) && Profile(m.val)
  {
    Quoted(m.key) + (KeyColon(l) + Print(m.val, l, level))
  }

  function PrintMembers(ms: seq<Member>, l: Layout, level: nat): (r: Text)
    requires ms != [] && forall k :: 0 <= k < |ms| ==> Scalars(ms[k].key) && Profile(ms[k].val)
  {
    Break(l, level) + (PrintMember(ms[0], l, level)
    + (if |ms| == 1 then [] else [COMMA] + PrintMembers(ms[1..], l, level)))
  }

  /** The text every digest and signature commits to. */
  function Canonical(v: Json): (r: Text)
    requires Profile(v)
  {
    Print(v, Compact, 0)
  }
}
