/** The recursive-descent reader of verifiers/rust/src/json.rs as functions of the text, the cursor and
    the depth. The class in JsonParser.dfy is the reader itself; these functions are its specification.

    The mode has two settings the other readers of the repository vary. `limit` is the nesting bound
    (512 in json.rs; none in a reader that relies on a pre-scan). `strict` says what happens to a
    surrogate escape without its partner: json.rs refuses it, a general JSON decoder keeps it in the
    string and leaves the refusal to a separate scan. */
module JsonGrammar {
  import opened Texts
  import opened JsonValues

  const QUOTE := 34
  const BACKSLASH := 92
  const LBRACE := 123
  const RBRACE := 125
  const LBRACKET := 91
  const RBRACKET := 93
  const COMMA := 44
  const COLON := 58
  const MINUS := 45
  const ZERO := 48
  const LOWER_U := 117

  const NULL_TEXT: Text := [110, 117, 108, 108]
  const TRUE_TEXT: Text := [116, 114, 117, 101]
  const FALSE_TEXT: Text := [102, 97, 108, 115, 101]

  datatype Mode = Mode(limit: nat, strict: bool)

  const RUST_MODE := Mode(MAX_JSON_DEPTH, true)

  datatype ParseError =
    | Eof | TooDeep | Literal | Expected(c: int) | DuplicateKey | TrailingData
    | BadEscape | BadUnicode | LoneSurrogate | ControlCharacter | Unterminated
    | BadNumber | FloatNumber | NotJsonInt | BadInt | OutOfRange

  datatype Parsed<+T> = Ok(value: T, next: nat) | Err(error: ParseError)

  // ---- tokens --------------------------------------------------------------------------------

  predicate IsWs(c: int) { c == 0x20 || c == 0x09 || c == 0x0A || c == 0x0D }

  function SkipWs(s: Text, i: nat): (r: nat)
    requires i <= |s|
    ensures i <= r <= |s|
    decreases |s| - i
  {
    if i < |s| && IsWs(s[i]) then SkipWs(s, i + 1) else i
  }

  predicate IsDigit(c: int) { 48 <= c <= 57 }

  /** The characters a number token is gathered from: + - 0..9 . e E. */
  predicate IsNumChar(c: int) { IsDigit(c) || c == 43 || c == 45 || c == 46 || c == 101 || c == 69 }

  function NumEnd(s: Text, i: nat): (r: nat)
    requires i <= |s|
    ensures i <= r <= |s|
    decreases |s| - i
  {
    if i < |s| && IsNumChar(s[i]) then NumEnd(s, i + 1) else i
  }

  /** The integer grammar of RFC 8259 section 6: no '+', no leading zero. */
  predicate JsonIntGrammar(tok: Text)
  {
    var t := if tok != [] && tok[0] == MINUS then tok[1..] else tok;
    t != [] && (forall k :: 0 <= k < |t| ==> IsDigit(t[k])) && (|t| == 1 || t[0] != ZERO)
  }

  function DecimalValue(t: Text): (r: int)
  {
    if t == [] then 0 else 10 * DecimalValue(t[..|t| - 1]) + (t[|t| - 1] - 48)
  }

  function IntValue(tok: Text): (r: int)
  {
    if tok != [] && tok[0] == MINUS then -DecimalValue(tok[1..]) else DecimalValue(tok)
  }

  predicate HasFloatMark(tok: Text)
  {
    exists k :: 0 <= k < |tok| && (tok[k] == 46 || tok[k] == 101 || tok[k] == 69)
  }

  function NumberToken(tok: Text): (r: Option<ParseError>)
  {
    if tok == [] then Some(BadNumber)
    else if HasFloatMark(tok) then Some(FloatNumber)
    else if !JsonIntGrammar(tok) then Some(NotJsonInt)
    else if !(-0x8000_0000_0000_0000 <= IntValue(tok) < 0x8000_0000_0000_0000) then Some(BadInt)
    else if !(-MAX_SAFE_INT <= IntValue(tok) <= MAX_SAFE_INT) then Some(OutOfRange)
    else None
  }

  function ParseNumber(s: Text, i: nat): (r: Parsed<Json>)
    requires i <= |s|
    ensures r.Ok? ==> i < r.next <= |s|
  {
    var e := NumEnd(s, i);
    match NumberToken(s[i..e])
    case Some(err) => Err(err)
    case None => Ok(Int(IntValue(s[i..e])), e)
  }

  function ParseLiteral(s: Text, i: nat, w: Text, v: Json): (r: Parsed<Json>)
    requires i <= |s| && w != []
    ensures r.Ok? ==> i < r.next <= |s|
  {
    if i + |w| <= |s| && s[i..i + |w|] == w then Ok(v, i + |w|) else Err(Literal)
  }

  // ---- strings -------------------------------------------------------------------------------

  predicate IsHexDigit(c: int) { 48 <= c <= 57 || 97 <= c <= 102 || 65 <= c <= 70 }

  function HexDigit(c: int): (r: int)
    requires IsHexDigit(c)
    ensures 0 <= r < 16
  {
    if c <= 57 then c - 48 else if c >= 97 then c - 87 else c - 55
  }

  function Hex4(s: Text, i: nat): (r: Option<int>)
    ensures r.Some? ==> i + 4 <= |s| && 0 <= r.value < 0x10000
  {
    if i + 4 <= |s| && IsHexDigit(s[i]) && IsHexDigit(s[i + 1]) && IsHexDigit(s[i + 2]) && IsHexDigit(s[i + 3])
    then Some(((HexDigit(s[i]) * 16 + HexDigit(s[i + 1])) * 16 + HexDigit(s[i + 2])) * 16 + HexDigit(s[i + 3]))
    else None
  }

  predicate IsHigh(c: int) { 0xD800 <= c <= 0xDBFF }

  predicate IsLow(c: int) { 0xDC00 <= c <= 0xDFFF }

  function Pair(hi: int, lo: int): (r: int) { 0x10000 + (hi - 0xD800) * 0x400 + (lo - 0xDC00) }

  predicate EscapeU(s: Text, i: nat)
  {
    i + 1 < |s| && s[i] == BACKSLASH && s[i + 1] == LOWER_U
  }

  /** One unit of a string: its closing quote, one decoded code point, or an error. */
  datatype Unit = Close(next: nat) | Push(c: int, next: nat) | Fail(e: ParseError)

  /** The two-character escapes other than \u. */
  function SimpleEscape(e: int): (r: Option<int>)
  {
    if e == 110 then Some(0x0A)        // n
    else if e == 116 then Some(0x09)   // t
    else if e == 114 then Some(0x0D)   // r
    else if e == 98 then Some(0x08)    // b
    else if e == 102 then Some(0x0C)   // f
    else if e == 47 || e == BACKSLASH || e == QUOTE then Some(e)
    else None
  }

  /** The four hexadecimal digits at i and, after a high surrogate, its partner. */
  function UnicodeEscape(s: Text, i: nat, m: Mode): (r: Unit)
    ensures (r.Push? && i < r.next <= |s|) || r.Fail?
  {
    match Hex4(s, i)
    case None => Fail(BadUnicode)
    case Some(code) =>
      if IsHigh(code) then
        if !EscapeU(s, i + 4) then (if m.strict then Fail(LoneSurrogate) else Push(code, i + 4))
        else
          match Hex4(s, i + 6)
          case None => Fail(BadUnicode)
          case Some(lo) =>
            if IsLow(lo) then Push(Pair(code, lo), i + 10)
            else if m.strict then Fail(LoneSurrogate) else Push(code, i + 4)
      else if IsLow(code) && m.strict then Fail(LoneSurrogate)
      else Push(code, i + 4)
  }

  function StringUnit(s: Text, i: nat, m: Mode): (r: Unit)
    requires i < |s|
    ensures !r.Fail? ==> i < r.next <= |s|
  {
    if s[i] == QUOTE then Close(i + 1)
    else if s[i] == BACKSLASH then
      if i + 1 >= |s| then Fail(BadEscape)
      else if s[i + 1] == LOWER_U then UnicodeEscape(s, i + 2, m)
      else
        match SimpleEscape(s[i + 1])
        case None => Fail(BadEscape)
        case Some(c) => Push(c, i + 2)
    else if s[i] < 0x20 then Fail(ControlCharacter)
    else Push(s[i], i + 1)
  }

  function ParseChars(s: Text, i: nat, out: Text, m: Mode): (r: Parsed<Text>)
    requires i <= |s|
    ensures r.Ok? ==> i < r.next <= |s|
    decreases |s| - i
  {
    if i == |s| then Err(Unterminated)
    else
      match StringUnit(s, i, m)
      case Close(n) => Ok(out, n)
      case Fail(e) => Err(e)
      case Push(c, n) => ParseChars(s, n, out + [c], m)
  }

  function ParseString(s: Text, i: nat, m: Mode): (r: Parsed<Text>)
    requires i <= |s|
    ensures r.Ok? ==> i < r.next <= |s|
  {
    if i < |s| && s[i] == QUOTE then ParseChars(s, i + 1, [], m) else Err(Expected(QUOTE))
  }

  /** After a member or an item: a comma (more follows) or the closing bracket. */
  function ParseSeparator(s: Text, i: nat, close: int): (r: Parsed<bool>)
    requires i <= |s|
    ensures r.Ok? ==> i < r.next <= |s|
  {
    var e := SkipWs(s, i);
    if e < |s| && s[e] == COMMA then Ok(true, e + 1)
    else if e < |s| && s[e] == close then Ok(false, e + 1)
    else Err(Expected(close))
  }

  // ---- values --------------------------------------------------------------------------------

  function ParseValue(s: Text, i: nat, d: nat, m: Mode): (r: Parsed<Json>)
    requires i <= |s|
    ensures r.Ok? ==> i < r.next <= |s|
    decreases |s| - i, 3
  {
    var j := SkipWs(s, i);
    if j == |s| then Err(Eof)
    else if s[j] == LBRACE || s[j] == LBRACKET then
      if d + 1 > m.limit then Err(TooDeep)
      else if s[j] == LBRACE then ParseObject(s, j, d + 1, m)
      else ParseArray(s, j, d + 1, m)
    else if s[j] == QUOTE then
      match ParseString(s, j, m)
      case Err(e) => Err(e)
      case Ok(t, n) => Ok(Str(t), n)
    else if s[j] == 116 then ParseLiteral(s, j, TRUE_TEXT, Bool(true))
    else if s[j] == 102 then ParseLiteral(s, j, FALSE_TEXT, Bool(false))
    else if s[j] == 110 then ParseLiteral(s, j, NULL_TEXT, Null)
    else ParseNumber(s, j)
  }

  function ParseObject(s: Text, i: nat, d: nat, m: Mode): (r: Parsed<Json>)
    requires i < |s| && s[i] == LBRACE
    ensures r.Ok? ==> i < r.next <= |s|
    decreases |s| - i, 2
  {
    var j := SkipWs(s, i + 1);
    if j < |s| && s[j] == RBRACE then Ok(Object([]), j + 1) else ParseMembers(s, j, d, m, [])
  }

  /** One `"key": value`; a key the object already has is refused before its value is read. */
  function ParseMember(s: Text, i: nat, d: nat, m: Mode, acc: seq<Member>): (r: Parsed<Member>)
    requires i <= |s|
    ensures r.Ok? ==> i < r.next <= |s|
    decreases |s| - i, 4
  {
    match ParseString(s, SkipWs(s, i), m)
    case Err(e) => Err(e)
    case Ok(k, a) =>
      var b := SkipWs(s, a);
      if b == |s| || s[b] != COLON then Err(Expected(COLON))
      else if Has(acc, k) then Err(DuplicateKey)
      else
        match ParseValue(s, b + 1, d, m)
        case Err(e) => Err(e)
        case Ok(v, n) => Ok(Member(k, v), n)
  }

  function ParseMembers(s: Text, i: nat, d: nat, m: Mode, acc: seq<Member>): (r: Parsed<Json>)
    requires i <= |s|
    ensures r.Ok? ==> i < r.next <= |s|
    decreases |s| - i, 5
  {
    match ParseMember(s, i, d, m, acc)
    case Err(e) => Err(e)
    case Ok(mem, n) =>
      var acc' := Put(acc, mem.key, mem.val);
      match ParseSeparator(s, n, RBRACE)
      case Err(e) => Err(e)
      case Ok(more, e) => if more then ParseMembers(s, e, d, m, acc') else Ok(Object(acc'), e)
  }

  function ParseArray(s: Text, i: nat, d: nat, m: Mode): (r: Parsed<Json>)
    requires i < |s| && s[i] == LBRACKET
    ensures r.Ok? ==> i < r.next <= |s|
    decreases |s| - i, 2
  {
    var j := SkipWs(s, i + 1);
    if j < |s| && s[j] == RBRACKET then Ok(Array([]), j + 1) else ParseItems(s, j, d, m, [])
  }

  function ParseItems(s: Text, i: nat, d: nat, m: Mode, acc: seq<Json>): (r: Parsed<Json>)
    requires i <= |s|
    ensures r.Ok? ==> i < r.next <= |s|
    decreases |s| - i, 5
  {
    match ParseValue(s, i, d, m)
    case Err(e) => Err(e)
    case Ok(v, n) =>
      match ParseSeparator(s, n, RBRACKET)
      case Err(e) => Err(e)
      case Ok(more, e) => if more then ParseItems(s, e, d, m, acc + [v]) else Ok(Array(acc + [v]), e)
  }

  /** A whole text: one value, then nothing but white space. */
  function ParseText(s: Text, m: Mode): (r: Parsed<Json>)
    ensures r.Ok? ==> r.next == |s|
  {
    match ParseValue(s, 0, 0, m)
    case Err(e) => Err(e)
    case Ok(v, n) => if SkipWs(s, n) == |s| then Ok(v, |s|) else Err(TrailingData)
  }
}
