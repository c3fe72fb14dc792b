/** What the strict reader guarantees about what it accepts, and how its answer depends on the text. */
module JsonStructure {
  import opened Texts
  import opened JsonValues
  import opened JsonGrammar
  import opened JsonPrinter
  import opened JsonRoundTrip

  // ---- accepted values belong to the profile ---------------------------------------------------

  lemma UnitIsScalar(s: Text, i: nat, m: Mode)
    requires Scalars(s) && m.strict && i < |s|
    ensures StringUnit(s, i, m).Push? ==> IsScalar(StringUnit(s, i, m).c)
  {}

  lemma {:induction false} CharsAreScalars(s: Text, i: nat, out: Text, m: Mode)
    requires Scalars(s) && m.strict && i <= |s| && Scalars(out)
    ensures ParseChars(s, i, out, m).Ok? ==> Scalars(ParseChars(s, i, out, m).value)
    decreases |s| - i
  {
    hide StringUnit;
    if i < |s| {
      UnitIsScalar(s, i, m);
      match StringUnit(s, i, m) {
        case Push(c, n) => CharsAreScalars(s, n, out + [c], m);
        case _ =>
      }
    }
  }

  lemma NumberInRange(s: Text, i: nat)
    requires i <= |s|
    ensures ParseNumber(s, i).Ok? ==> ParseNumber(s, i).value.Int? && Profile(ParseNumber(s, i).value)
  {
    hide NumEnd, JsonIntGrammar, HasFloatMark;
  }

  ghost predicate Fits(p: Parsed<Json>, d: nat, m: Mode)
  {
    p.Ok? ==> Profile(p.value) && d + Depth(p.value) <= m.limit
  }

  lemma {:induction false} ValueFits(s: Text, i: nat, d: nat, m: Mode)
    requires Scalars(s) && m.strict && i <= |s| && d <= m.limit
    ensures Fits(ParseValue(s, i, d, m), d, m)
    decreases |s| - i, 3
  {
    hide ParseNumber, ParseString, ParseObject, ParseArray, SkipWs;
    var j := SkipWs(s, i);
    if j < |s| {
      NumberInRange(s, j);
      if s[j] == QUOTE { StringIsScalars(s, j, m); }
      if d + 1 <= m.limit {
        if s[j] == LBRACE { ObjectFits(s, j, d + 1, m); }
        if s[j] == LBRACKET { ArrayFits(s, j, d + 1, m); }
      }
    }
  }

  lemma StringIsScalars(s: Text, i: nat, m: Mode)
    requires Scalars(s) && m.strict && i <= |s|
    ensures ParseString(s, i, m).Ok? ==> Scalars(ParseString(s, i, m).value)
  {
    if i < |s| { CharsAreScalars(s, i + 1, [], m); }
  }

  lemma {:induction false} ObjectFits(s: Text, i: nat, d: nat, m: Mode)
    requires Scalars(s) && m.strict && i < |s| && s[i] == LBRACE && 1 <= d <= m.limit
    ensures Fits(ParseObject(s, i, d, m), d - 1, m)
    decreases |s| - i, 2
  {
    hide ParseMembers;
    MembersFit(s, SkipWs(s, i + 1), d, m, []);
  }

  lemma {:induction false} MemberFits(s: Text, i: nat, d: nat, m: Mode, acc: seq<Member>)
    requires Scalars(s) && m.strict && i <= |s| && 1 <= d <= m.limit
    ensures var p := ParseMember(s, i, d, m, acc);
      p.Ok? ==>
        Scalars(p.value.key) && Profile(p.value.val) && d + Depth(p.value.val) <= m.limit && !Has(acc, p.value.key)
    decreases |s| - i, 4
  {
    hide ParseString, ParseValue, SkipWs, Has;
    var a := SkipWs(s, i);
    StringIsScalars(s, a, m);
    match ParseString(s, a, m) {
      case Err(_) =>
      case Ok(k, n) =>
        if SkipWs(s, n) < |s| { ValueFits(s, SkipWs(s, n) + 1, d, m); }
    }
  }

  lemma {:induction false} MembersFit(s: Text, i: nat, d: nat, m: Mode, acc: seq<Member>)
    requires Scalars(s) && m.strict && i <= |s| && 1 <= d <= m.limit
    requires Profile(Object(acc)) && d + MembersDepth(acc) <= m.limit
    ensures Fits(ParseMembers(s, i, d, m, acc), d - 1, m)
    decreases |s| - i, 5
  {
    hide ParseMember, ParseSeparator, Put;
    MemberFits(s, i, d, m, acc);
    match ParseMember(s, i, d, m, acc) {
      case Err(_) =>
      case Ok(mem, n) =>
        var next := Put(acc, mem.key, mem.val);
        assert mem == Member(mem.key, mem.val);
        PutSorted(acc, mem.key, mem.val);
        PutMembers(acc, mem.key, mem.val);
        assert forall k :: 0 <= k < |next| ==> next[k] in next;
        match ParseSeparator(s, n, RBRACE) {
          case Ok(more, e) => if more { MembersFit(s, e, d, m, next); }
          case Err(_) =>
        }
    }
  }

  lemma {:induction false} ArrayFits(s: Text, i: nat, d: nat, m: Mode)
    requires Scalars(s) && m.strict && i < |s| && s[i] == LBRACKET && 1 <= d <= m.limit
    ensures Fits(ParseArray(s, i, d, m), d - 1, m)
    decreases |s| - i, 2
  {
    hide ParseItems;
    ItemsFit(s, SkipWs(s, i + 1), d, m, []);
  }

  lemma {:induction false} ItemsFit(s: Text, i: nat, d: nat, m: Mode, acc: seq<Json>)
    requires Scalars(s) && m.strict && i <= |s| && 1 <= d <= m.limit
    requires Profile(Array(acc)) && d + ItemsDepth(acc) <= m.limit
    ensures Fits(ParseItems(s, i, d, m, acc), d - 1, m)
    decreases |s| - i, 5
  {
    hide ParseValue, ParseSeparator;
    ValueFits(s, i, d, m);
    match ParseValue(s, i, d, m) {
      case Err(_) =>
      case Ok(v, n) =>
        ItemsDepthAppend(acc, v);
        match ParseSeparator(s, n, RBRACKET) {
          case Ok(more, e) => if more { ItemsFit(s, e, d, m, acc + [v]); }
          case Err(_) =>
        }
    }
  }

  /** Everything the reader accepts is a profile value within the nesting bound. */
  lemma AcceptedIsProfile(s: Text, m: Mode)
    requires Scalars(s) && m.strict && ParseText(s, m).Ok?
    ensures Profile(ParseText(s, m).value) && Depth(ParseText(s, m).value) <= m.limit
  {
    ValueFits(s, 0, 0, m);
  }

  /** Printing what was read and reading it again gives the same value: the canonical form is a fixpoint. */
  lemma PrintAfterParse(s: Text, m: Mode, l: Layout)
    requires Scalars(s) && m.strict && ParseText(s, m).Ok?
    ensures var v := ParseText(s, m).value;
      Profile(v) && ParseText(Print(v, l, 0), m) == Ok(v, |Print(v, l, 0)|)
  {
    AcceptedIsProfile(s, m);
    RoundTrip(ParseText(s, m).value, l, m);
  }

  /** Distinct values have distinct canonical texts. */
  lemma CanonicalInjective(v: Json, w: Json)
    requires Profile(v) && Profile(w) && Canonical(v) == Canonical(w)
    ensures v == w
  {
    var m := Mode(Max(Depth(v), Depth(w)), true);
    RoundTrip(v, Compact, m);
    RoundTrip(w, Compact, m);
  }

  // ---- a longer text -------------------------------------------------------------------------

  lemma {:induction false} SkipWsExtends(p: Text, s: Text, i: nat)
    requires p <= s && i <= |p| && SkipWs(p, i) < |p|
    ensures SkipWs(s, i) == SkipWs(p, i)
    decreases |p| - i
  {
    if i < |p| && IsWs(p[i]) { SkipWsExtends(p, s, i + 1); }
  }

  lemma {:induction false} NumEndExtends(p: Text, s: Text, i: nat)
    requires p <= s && i <= |p| && NumEnd(p, i) < |p|
    ensures NumEnd(s, i) == NumEnd(p, i)
    decreases |p| - i
  {
    if i < |p| && IsNumChar(p[i]) { NumEndExtends(p, s, i + 1); }
  }

  lemma Hex4Extends(p: Text, s: Text, i: nat)
    requires p <= s && Hex4(p, i).Some?
    ensures Hex4(s, i) == Hex4(p, i)
  {}

  lemma UnitExtends(p: Text, s: Text, i: nat, m: Mode)
    requires p <= s && m.strict && i < |p| && !StringUnit(p, i, m).Fail?
    ensures StringUnit(s, i, m) == StringUnit(p, i, m)
  {
    hide Hex4, Pair;
    if p[i] == BACKSLASH && i + 1 < |p| && p[i + 1] == LOWER_U {
      Hex4Extends(p, s, i + 2);
      if EscapeU(p, i + 6) && Hex4(p, i + 8).Some? { Hex4Extends(p, s, i + 8); }
    }
  }

  lemma {:induction false} CharsExtend(p: Text, s: Text, i: nat, out: Text, m: Mode)
    requires p <= s && m.strict && i <= |p| && ParseChars(p, i, out, m).Ok?
    ensures ParseChars(s, i, out, m) == ParseChars(p, i, out, m)
    decreases |p| - i
  {
    hide StringUnit;
    UnitExtends(p, s, i, m);
    match StringUnit(p, i, m) {
      case Push(c, n) => CharsExtend(p, s, n, out + [c], m);
      case _ =>
    }
  }

  lemma StringExtends(p: Text, s: Text, i: nat, m: Mode)
    requires p <= s && m.strict && i <= |p| && ParseString(p, i, m).Ok?
    ensures ParseString(s, i, m) == ParseString(p, i, m)
  {
    CharsExtend(p, s, i + 1, [], m);
  }

  lemma NumberExtends(p: Text, s: Text, i: nat)
    requires p <= s && i <= |p| && ParseNumber(p, i).Ok? && ParseNumber(p, i).next < |p|
    ensures ParseNumber(s, i) == ParseNumber(p, i)
  {
    NumEndExtends(p, s, i);
    assert s[i..NumEnd(p, i)] == p[i..NumEnd(p, i)];
  }

  lemma LiteralExtends(p: Text, s: Text, i: nat, w: Text, v: Json)
    requires p <= s && i <= |p| && w != [] && ParseLiteral(p, i, w, v).Ok?
    ensures ParseLiteral(s, i, w, v) == ParseLiteral(p, i, w, v)
  {
    assert s[i..i + |w|] == p[i..i + |w|];
  }

  lemma SeparatorExtends(p: Text, s: Text, i: nat, close: int)
    requires p <= s && i <= |p| && ParseSeparator(p, i, close).Ok?
    ensures ParseSeparator(s, i, close) == ParseSeparator(p, i, close)
  {
    SkipWsExtends(p, s, i);
  }

  /** What was read from a text is read from every text that continues it, unless it is a number that
      reaches the end of the shorter one. */
  lemma {:induction false} ValueExtends(p: Text, s: Text, i: nat, d: nat, m: Mode)
    requires p <= s && m.strict && i <= |p| && ParseValue(p, i, d, m).Ok?
    requires ParseValue(p, i, d, m).next < |p| || !ParseValue(p, i, d, m).value.Int?
    ensures ParseValue(s, i, d, m) == ParseValue(p, i, d, m)
    decreases |p| - i, 3
  {
    hide ParseNumber, ParseString, ParseObject, ParseArray, SkipWs, ParseLiteral;
    SkipWsExtends(p, s, i);
    var j := SkipWs(p, i);
    assert p[j] == s[j];
    if p[j] == LBRACE {
      ObjectExtends(p, s, j, d + 1, m);
    } else if p[j] == LBRACKET {
      ArrayExtends(p, s, j, d + 1, m);
    } else if p[j] == QUOTE {
      StringExtends(p, s, j, m);
    } else if p[j] == 116 {
      LiteralExtends(p, s, j, TRUE_TEXT, Bool(true));
    } else if p[j] == 102 {
      LiteralExtends(p, s, j, FALSE_TEXT, Bool(false));
    } else if p[j] == 110 {
      LiteralExtends(p, s, j, NULL_TEXT, Null);
    } else {
      NumberInRange(p, j);
      NumberExtends(p, s, j);
    }
  }

  lemma {:induction false} ObjectExtends(p: Text, s: Text, i: nat, d: nat, m: Mode)
    requires p <= s && m.strict && i < |p| && p[i] == LBRACE && ParseObject(p, i, d, m).Ok?
    ensures ParseObject(s, i, d, m) == ParseObject(p, i, d, m)
    decreases |p| - i, 2
  {
    hide ParseMembers, SkipWs;
    var j := SkipWs(p, i + 1);
    if j < |p| {
      SkipWsExtends(p, s, i + 1);
      if p[j] != RBRACE { MembersExtend(p, s, j, d, m, []); }
    } else {
      NothingToRead(p, d, m);
    }
  }

  lemma NothingToRead(p: Text, d: nat, m: Mode)
    ensures !ParseMembers(p, |p|, d, m, []).Ok?
  {
    assert SkipWs(p, |p|) == |p|;
    assert ParseString(p, |p|, m).Err?;
    assert ParseMember(p, |p|, d, m, []).Err?;
  }

  lemma {:induction false} MemberExtends(p: Text, s: Text, i: nat, d: nat, m: Mode, acc: seq<Member>)
    requires p <= s && m.strict && i <= |p| && ParseMember(p, i, d, m, acc).Ok?
      && ParseMember(p, i, d, m, acc).next < |p|
    ensures ParseMember(s, i, d, m, acc) == ParseMember(p, i, d, m, acc)
    decreases |p| - i, 4
  {
    hide ParseString, ParseValue, SkipWs, Has;
    var a := SkipWs(p, i);
    StringStartsInside(p, a, m);
    SkipWsExtends(p, s, i);
    StringExtends(p, s, a, m);
    var n := ParseString(p, a, m).next;
    SkipWsExtends(p, s, n);
    ValueExtends(p, s, SkipWs(p, n) + 1, d, m);
  }

  lemma StringStartsInside(p: Text, a: nat, m: Mode)
    requires a <= |p| && ParseString(p, a, m).Ok?
    ensures a < |p|
  {}

  lemma SeparatorStartsInside(p: Text, n: nat, close: int)
    requires n <= |p| && ParseSeparator(p, n, close).Ok?
    ensures n < |p|
  {}

  lemma {:induction false} MembersExtend(p: Text, s: Text, i: nat, d: nat, m: Mode, acc: seq<Member>)
    requires p <= s && m.strict && i <= |p| && ParseMembers(p, i, d, m, acc).Ok?
    ensures ParseMembers(s, i, d, m, acc) == ParseMembers(p, i, d, m, acc)
    decreases |p| - i, 5
  {
    hide ParseMember, ParseSeparator, Put;
    var mem, n := ParseMember(p, i, d, m, acc).value, ParseMember(p, i, d, m, acc).next;
    SeparatorStartsInside(p, n, RBRACE);
    MemberExtends(p, s, i, d, m, acc);
    SeparatorExtends(p, s, n, RBRACE);
    var sep := ParseSeparator(p, n, RBRACE);
    if sep.value { MembersExtend(p, s, sep.next, d, m, Put(acc, mem.key, mem.val)); }
  }

  lemma {:induction false} ArrayExtends(p: Text, s: Text, i: nat, d: nat, m: Mode)
    requires p <= s && m.strict && i < |p| && p[i] == LBRACKET && ParseArray(p, i, d, m).Ok?
    ensures ParseArray(s, i, d, m) == ParseArray(p, i, d, m)
    decreases |p| - i, 2
  {
    hide ParseItems, SkipWs;
    var j := SkipWs(p, i + 1);
    if j < |p| {
      SkipWsExtends(p, s, i + 1);
      if p[j] != RBRACKET { ItemsExtend(p, s, j, d, m, []); }
    } else {
      NoItemToRead(p, d, m);
    }
  }

  lemma NoItemToRead(p: Text, d: nat, m: Mode)
    ensures !ParseItems(p, |p|, d, m, []).Ok?
  {
    assert SkipWs(p, |p|) == |p|;
    assert ParseValue(p, |p|, d, m).Err?;
  }

  lemma {:induction false} ItemsExtend(p: Text, s: Text, i: nat, d: nat, m: Mode, acc: seq<Json>)
    requires p <= s && m.strict && i <= |p| && ParseItems(p, i, d, m, acc).Ok?
    ensures ParseItems(s, i, d, m, acc) == ParseItems(p, i, d, m, acc)
    decreases |p| - i, 5
  {
    hide ParseValue, ParseSeparator;
    var v, n := ParseValue(p, i, d, m).value, ParseValue(p, i, d, m).next;
    SeparatorStartsInside(p, n, RBRACKET);
    ValueExtends(p, s, i, d, m);
    SeparatorExtends(p, s, n, RBRACKET);
    var sep := ParseSeparator(p, n, RBRACKET);
    if sep.value { ItemsExtend(p, s, sep.next, d, m, acc + [v]); }
  }

  lemma ObjectTextParses(p: Text, m: Mode)
    requires p != [] && p[0] == LBRACE && ParseValue(p, 0, 0, m).Ok?
    ensures ParseValue(p, 0, 0, m).value.Object?
  {
    hide ParseMembers;
    assert SkipWs(p, 0) == 0;
    var j := SkipWs(p, 1);
    if j == |p| || p[j] != RBRACE { MembersGiveObject(p, j, 1, m, []); }
  }

  lemma {:induction false} MembersGiveObject(s: Text, i: nat, d: nat, m: Mode, acc: seq<Member>)
    requires i <= |s| && ParseMembers(s, i, d, m, acc).Ok?
    ensures ParseMembers(s, i, d, m, acc).value.Object?
    decreases |s| - i
  {
    hide ParseMember, ParseSeparator, Put;
    var mem, n := ParseMember(s, i, d, m, acc).value, ParseMember(s, i, d, m, acc).next;
    var sep := ParseSeparator(s, n, RBRACE);
    if sep.value { MembersGiveObject(s, sep.next, d, m, Put(acc, mem.key, mem.val)); }
  }

  /** No strict non-empty prefix of a printed object is itself a JSON text: a torn record never parses. */
  lemma NoPrefixParses(ms: seq<Member>, l: Layout, k: nat, m: Mode)
    requires Profile(Object(ms)) && m.strict && Depth(Object(ms)) <= m.limit
    requires 0 < k < |Print(Object(ms), l, 0)|
    ensures ParseText(Print(Object(ms), l, 0)[..k], m).Err?
  {
    var s := Print(Object(ms), l, 0);
    var p := s[..k];
    assert p[0] == s[0] == LBRACE;
    if ParseText(p, m).Ok? {
      RoundTrip(Object(ms), l, m);
      ObjectTextParses(p, m);
      ValueExtends(p, s, 0, 0, m);
      assert ParseValue(s, 0, 0, m).next <= k;
      ValueStandsAlone(Object(ms), l, m);
    }
  }

  lemma ValueStandsAlone(v: Json, l: Layout, m: Mode)
    requires Profile(v) && Depth(v) <= m.limit
    ensures ParseValue(Print(v, l, 0), 0, 0, m) == Ok(v, |Print(v, l, 0)|)
  {
    ValueRound(v, l, 0, Print(v, l, 0), 0, 0, m);
  }
}
