/** The cursor-driven reader of verifiers/rust/src/json.rs. Every method advances the cursor and returns
    exactly what the grammar function of the same construct says, errors included. */
module JsonParser {
  import opened Texts
  import opened JsonValues
  import opened JsonGrammar

  datatype Result<+T> = Success(value: T) | Failure(error: ParseError)

  class Parser {
    const s: Text
    var i: nat
    var depth: nat

    ghost predicate Valid() reads this { i <= |s| }

    constructor (text: Text)
      ensures Valid() && s == text && i == 0 && depth == 0
    {
      s, i, depth := text, 0, 0;
    }

    /** The outcome of a call agrees with the grammar's answer p for the position it started from. */
    ghost predicate Agrees<T>(r: Result<T>, p: Parsed<T>)
      reads this
    {
      match p
      case Ok(v, n) => r == Success(v) && i == n
      case Err(e) => r == Failure(e)
    }

    method Ws()
      requires Valid()
      modifies this`i
      ensures Valid() && i == SkipWs(s, old(i))
    {
      while i < |s| && IsWs(s[i])
        invariant i <= |s| && SkipWs(s, i) == SkipWs(s, old(i))
      {
        i := i + 1;
      }
    }

    method Lit(w: Text, v: Json) returns (r: Result<Json>)
      requires Valid() && w != []
      modifies this`i
      ensures Valid() && Agrees(r, ParseLiteral(s, old(i), w, v))
    {
      var k := 0;
      while k < |w|
        invariant k <= |w| && i == old(i) + k <= |s| && s[old(i)..i] == w[..k]
      {
        if i >= |s| || s[i] != w[k] {
          if old(i) + |w| <= |s| { assert s[old(i)..old(i) + |w|][k] == s[i]; }
          return Failure(Literal);
        }
        i, k := i + 1, k + 1;
      }
      return Success(v);
    }

    method Expect(c: int) returns (ok: bool)
      requires Valid()
      modifies this`i
      ensures Valid() && ok == (old(i) < |s| && s[old(i)] == c)
      ensures i == if ok then old(i) + 1 else old(i)
    {
      ok := i < |s| && s[i] == c;
      if ok { i := i + 1; }
    }

    /** The comma that continues a list, or the bracket that ends it. */
    method Separator(close: int) returns (more: Result<bool>)
      requires Valid()
      modifies this`i
      ensures Valid() && Agrees(more, ParseSeparator(s, old(i), close))
    {
      Ws();
      if i < |s| && s[i] == COMMA {
        i := i + 1;
        return Success(true);
      }
      var ok := Expect(close);
      return if ok then Success(false) else Failure(Expected(close));
    }

    method ReadHex4() returns (r: Option<int>)
      requires Valid()
      modifies this`i
      ensures Valid() && r == Hex4(s, old(i))
      ensures i == if r.Some? then old(i) + 4 else old(i)
    {
      r := Hex4(s, i);
      if r.Some? { i := i + 4; }
    }

    /** What follows `\u`: a scalar, or a high surrogate and its low partner. */
    method Escape() returns (r: Result<int>)
      requires Valid()
      modifies this`i
      ensures Valid()
      ensures match UnicodeEscape(s, old(i), RUST_MODE)
              case Push(c, n) => r == Success(c) && i == n && IsScalar(c)
              case Fail(e) => r == Failure(e)
              case Close(_) => false
    {
      var code := ReadHex4();
      if code == None { return Failure(BadUnicode); }
      if IsHigh(code.value) {
        if !(i + 1 < |s| && s[i] == BACKSLASH && s[i + 1] == LOWER_U) { return Failure(LoneSurrogate); }
        i := i + 2;
        var lo := ReadHex4();
        if lo == None { return Failure(BadUnicode); }
        if !IsLow(lo.value) { return Failure(LoneSurrogate); }
        return Success(Pair(code.value, lo.value));
      } else if IsLow(code.value) {
        return Failure(LoneSurrogate);
      }
      return Success(code.value);
    }

    method String() returns (r: Result<Text>)
      requires Valid()
      modifies this`i
      ensures Valid() && Agrees(r, ParseString(s, old(i), RUST_MODE))
    {
      var q := Expect(QUOTE);
      if !q { return Failure(Expected(QUOTE)); }
      var out: Text := [];
      while i < |s|
        invariant old(i) < i <= |s|
        invariant ParseChars(s, i, out, RUST_MODE) == ParseString(s, old(i), RUST_MODE)
        decreases |s| - i
      {
        var c := s[i];
        i := i + 1;
        if c == QUOTE { return Success(out); }
        if c == BACKSLASH {
          if i >= |s| { return Failure(BadEscape); }
          var e := s[i];
          i := i + 1;
          if e == LOWER_U {
            var u := Escape();
            if u.Failure? { return Failure(u.error); }
            out := out + [u.value];
          } else {
            var se := SimpleEscape(e);
            if se == None { return Failure(BadEscape); }
            out := out + [se.value];
          }
        } else if c < 0x20 {
          return Failure(ControlCharacter);
        } else {
          out := out + [c];
        }
      }
      return Failure(Unterminated);
    }

    method Number() returns (r: Result<Json>)
      requires Valid()
      modifies this`i
      ensures Valid() && Agrees(r, ParseNumber(s, old(i)))
    {
      var start := i;
      while i < |s| && IsNumChar(s[i])
        invariant start <= i <= |s| && NumEnd(s, i) == NumEnd(s, start)
      {
        i := i + 1;
      }
      var tok := s[start..i];
      if tok == [] { return Failure(BadNumber); }
      if HasFloatMark(tok) { return Failure(FloatNumber); }
      if !JsonIntGrammar(tok) { return Failure(NotJsonInt); }
      var n := IntValue(tok);
      if !(-0x8000_0000_0000_0000 <= n < 0x8000_0000_0000_0000) { return Failure(BadInt); }
      if (if n < 0 then -n else n) > MAX_SAFE_INT { return Failure(OutOfRange); }
      return Success(Int(n));
    }

    method Value() returns (r: Result<Json>)
      requires Valid()
      modifies this
      ensures Valid() && Agrees(r, ParseValue(s, old(i), old(depth), RUST_MODE))
      ensures old(depth) <= depth && (r.Success? ==> depth == old(depth))
      decreases |s| - i, 3
    {
      Ws();
      if i >= |s| { return Failure(Eof); }
      var c := s[i];
      if c == LBRACE || c == LBRACKET {
        depth := depth + 1;
        if depth > MAX_JSON_DEPTH { return Failure(TooDeep); }
        if c == LBRACE { r := ReadObject(); } else { r := ReadArray(); }
        depth := depth - 1;
      } else if c == QUOTE {
        var t := String();
        r := if t.Success? then Success(Str(t.value)) else Failure(t.error);
      } else if c == 116 {
        r := Lit(TRUE_TEXT, Bool(true));
      } else if c == 102 {
        r := Lit(FALSE_TEXT, Bool(false));
      } else if c == 110 {
        r := Lit(NULL_TEXT, Null);
      } else {
        r := Number();
      }
    }

    method ReadObject() returns (r: Result<Json>)
      requires Valid() && i < |s| && s[i] == LBRACE
      modifies this
      ensures Valid() && Agrees(r, ParseObject(s, old(i), old(depth), RUST_MODE))
      ensures old(depth) <= depth && (r.Success? ==> depth == old(depth))
      decreases |s| - i, 2
    {
      var _ := Expect(LBRACE);
      var m: seq<Member> := [];
      Ws();
      if i < |s| && s[i] == RBRACE {
        i := i + 1;
        return Success(Object(m));
      }
      while true
        invariant old(i) < i <= |s| && depth == old(depth)
        invariant ParseMembers(s, i, depth, RUST_MODE, m) == ParseObject(s, old(i), depth, RUST_MODE)
        decreases |s| - i
      {
        var kv := ReadMember(m);
        if kv.Failure? { return Failure(kv.error); }
        m := Put(m, kv.value.key, kv.value.val);
        var more := Separator(RBRACE);
        if more.Failure? { return Failure(more.error); }
        if !more.value { return Success(Object(m)); }
      }
    }

    method ReadMember(m: seq<Member>) returns (r: Result<Member>)
      requires Valid()
      modifies this
      ensures Valid() && Agrees(r, ParseMember(s, old(i), old(depth), RUST_MODE, m))
      ensures old(depth) <= depth && (r.Success? ==> depth == old(depth))
      decreases |s| - i, 4
    {
      Ws();
      var k := String();
      if k.Failure? { return Failure(k.error); }
      Ws();
      var colon := Expect(COLON);
      if !colon { return Failure(Expected(COLON)); }
      if Has(m, k.value) { return Failure(DuplicateKey); }
      var v := Value();
      if v.Failure? { return Failure(v.error); }
      return Success(Member(k.value, v.value));
    }

    method ReadArray() returns (r: Result<Json>)
      requires Valid() && i < |s| && s[i] == LBRACKET
      modifies this
      ensures Valid() && Agrees(r, ParseArray(s, old(i), old(depth), RUST_MODE))
      ensures old(depth) <= depth && (r.Success? ==> depth == old(depth))
      decreases |s| - i, 2
    {
      var _ := Expect(LBRACKET);
      Ws();
      if i < |s| && s[i] == RBRACKET {
        i := i + 1;
        return Success(Array([]));
      }
      r := ReadItems();
    }

    method ReadItems() returns (r: Result<Json>)
      requires Valid()
      modifies this
      ensures Valid() && Agrees(r, ParseItems(s, old(i), old(depth), RUST_MODE, []))
      ensures old(depth) <= depth && (r.Success? ==> depth == old(depth))
      decreases |s| - i, 5
    {
      var a: seq<Json> := [];
      ghost var spec := ParseItems(s, i, depth, RUST_MODE, []);
      while true
        invariant old(i) <= i <= |s| && depth == old(depth)
        invariant ParseItems(s, i, depth, RUST_MODE, a) == spec
        decreases |s| - i
      {
        var v := Value();
        if v.Failure? { return Failure(v.error); }
        a := a + [v.value];
        var more := Separator(RBRACKET);
        if more.Failure? { return Failure(more.error); }
        if !more.value { return Success(Array(a)); }
      }
    }
  }

  /** Parser::parse. */
  method Parse(text: Text) returns (r: Result<Json>)
    ensures match ParseText(text, RUST_MODE)
            case Ok(v, _) => r == Success(v)
            case Err(e) => r == Failure(e)
  {
    var p := new Parser(text);
    var v := p.Value();
    if v.Failure? { return v; }
    p.Ws();
    if p.i != |p.s| { return Failure(TrailingData); }
    return v;
  }
}
