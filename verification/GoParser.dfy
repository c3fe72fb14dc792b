/** The Go reader (verifiers/go/canonical.go `parseValue`): objects are built as key lists and maps. What its
    decoder reads of a text is the grammar; the two scans before it are in Prescan.dfy. */
module GoParser {
  import opened Texts
  import opened JsonValues
  import opened JsonGrammar
  import opened JsonPrinter
  import opened JsonStructure
  import opened Prescan
  import opened ReaderAgreement
  import opened GoCanonical
  import History

  // ---- what the built values stand for -------------------------------------------------------------

  lemma MembersOfMeaning(keys: seq<Text>, vals: map<Text, GoValue>)
    requires Built(GoObject(keys, vals))
    ensures var ms := Meaning(GoObject(keys, vals)).members;
      forall m :: m in ms <==> m.key in vals && m.val == Meaning(vals[m.key])
  {
    var ks, ms := SortKeys(keys), Meaning(GoObject(keys, vals)).members;
    forall m ensures m in ms <==> m.key in vals && m.val == Meaning(vals[m.key]) {
      if m in ms {
        var i :| 0 <= i < |ms| && ms[i] == m;
        assert ks[i] in ks;
      }
      if m.key in vals && m.val == Meaning(vals[m.key]) {
        assert m.key in ks;
        var i :| 0 <= i < |ks| && ks[i] == m.key;
        assert ms[i] == m;
      }
    }
  }

  /** A key is in the map exactly when the object it stands for has it. */
  lemma HasKey(keys: seq<Text>, vals: map<Text, GoValue>, k: Text)
    requires Built(GoObject(keys, vals))
    ensures k in vals <==> Has(Meaning(GoObject(keys, vals)).members, k)
  {
    hide Meaning, Built;
    ObjectMeans(keys, vals);
    var ms := Meaning(GoObject(keys, vals)).members;
    MembersOfMeaning(keys, vals);
    if k in vals { assert Member(k, Meaning(vals[k])) in ms; }
    if Has(ms, k) {
      var i :| 0 <= i < |ms| && ms[i].key == k;
      assert ms[i] in ms;
    }
  }

  lemma BuiltMore(keys: seq<Text>, vals: map<Text, GoValue>, k: Text, v: GoValue)
    requires Built(GoObject(keys, vals)) && Built(v) && Scalars(k) && k !in vals
    ensures Built(GoObject(keys + [k], vals[k := v]))
  {}

  /** Appending a key and storing its value puts the member in its place. */
  lemma MeaningPut(keys: seq<Text>, vals: map<Text, GoValue>, k: Text, v: GoValue)
    requires Built(GoObject(keys, vals)) && Built(v) && Scalars(k) && k !in vals
    ensures Meaning(GoObject(keys + [k], vals[k := v]))
      == Object(Put(Meaning(GoObject(keys, vals)).members, k, Meaning(v)))
  {
    hide Meaning, Built, Put;
    BuiltMore(keys, vals, k, v);
    ObjectMeans(keys, vals);
    ObjectMeans(keys + [k], vals[k := v]);
    var before, after := Meaning(GoObject(keys, vals)).members, Meaning(GoObject(keys + [k], vals[k := v]));
    MembersOfMeaning(keys, vals);
    MembersOfMeaning(keys + [k], vals[k := v]);
    HasKey(keys, vals, k);
    PutSorted(before, k, Meaning(v));
    PutMembers(before, k, Meaning(v));
    forall m ensures m in after.members <==> m in Put(before, k, Meaning(v)) {}
    History.SortedUnique(after.members, Put(before, k, Meaning(v)));
  }

  lemma ObjectMeans(keys: seq<Text>, vals: map<Text, GoValue>)
    requires Built(GoObject(keys, vals))
    ensures Meaning(GoObject(keys, vals)).Object? && Sorted(Meaning(GoObject(keys, vals)).members)
  {
    MeaningIsProfile(GoObject(keys, vals));
  }

  lemma MeaningAppend(items: seq<GoValue>, v: GoValue)
    requires Built(GoArray(items)) && Built(v)
    ensures Built(GoArray(items + [v]))
    ensures Meaning(GoArray(items)).Array?
      && Meaning(GoArray(items + [v])) == Array(Meaning(GoArray(items)).items + [Meaning(v)])
  {
    var a, b := Meaning(GoArray(items)).items, Meaning(GoArray(items + [v])).items;
    assert b == a + [Meaning(v)];
  }

  lemma EmptyMeans()
    ensures Built(GoObject([], map[])) && Meaning(GoObject([], map[])) == Object([])
    ensures Built(GoArray([])) && Meaning(GoArray([])) == Array([])
  {}

  // ---- the decoder ---------------------------------------------------------------------------------

  /** The built value stands for what the grammar reads, and the decoder is where the grammar ends. */
  ghost predicate Agrees(r: Option<GoValue>, p: Parsed<Json>, at: nat)
  {
    if p.Ok? then r.Some? && Built(r.value) && Meaning(r.value) == p.value && at == p.next else r.None?
  }

  /** json.Decoder with UseNumber, on a text the scans let through: no bound of its own, no unpaired surrogates. */
  class Decoder {
    const text: Text
    const mode: Mode
    var at: nat

    ghost predicate Valid() reads this { at <= |text| && Scalars(text) && mode == Mode(|text|, true) }

    constructor (t: Text)
      requires Scalars(t)
      ensures Valid() && text == t && at == 0
    {
      text, mode, at := t, Mode(|t|, true), 0;
    }

    /** `parseValue`. The nesting d is ghost: every level has taken a character, so the decoder needs no count. */
    method ParseGoValue(ghost d: nat) returns (r: Option<GoValue>)
      requires Valid() && d <= at
      modifies this
      ensures Valid() && Agrees(r, ParseValue(text, old(at), d, mode), at)
      decreases |text| - at, 3
    {
      hide ParseString, ParseNumber, ParseLiteral, ParseObject, ParseArray, SkipWs, Meaning, Built;
      ghost var start := at;
      at := SkipWs(text, at);
      if at == |text| { return None; }
      var c := text[at];
      if c == LBRACE {
        r := ParseGoObject(d + 1);
      } else if c == LBRACKET {
        r := ParseGoArray(d + 1);
      } else {
        r := ParseScalar(c);
        ScalarIs(text, start, d, mode, at);
      }
    }

    /** Strings, numbers and literals. */
    method ParseScalar(c: int) returns (r: Option<GoValue>)
      requires Valid() && at < |text| && c == text[at] && c != LBRACE && c != LBRACKET
      modifies this
      ensures Valid() && Agrees(r, ParseScalarAt(text, old(at), mode), at)
    {
      hide ParseString, ParseNumber, ParseLiteral;
      if c == QUOTE {
        StringIsScalars(text, at, mode);
        var p := ParseString(text, at, mode);
        if p.Err? { return None; }
        at := p.next;
        return Some(GoString(p.value));
      }
      var p := if c == 116 then ParseLiteral(text, at, TRUE_TEXT, Bool(true))
               else if c == 102 then ParseLiteral(text, at, FALSE_TEXT, Bool(false))
               else if c == 110 then ParseLiteral(text, at, NULL_TEXT, Null)
               else ParseNumber(text, at);
      if p.Err? { return None; }
      TokenValue(text, at);
      at := p.next;
      r := Some(if p.value.Bool? then GoBool(p.value.b) else if p.value.Null? then GoNull else GoNumber(p.value.n));
    }

    method ParseGoObject(ghost d: nat) returns (r: Option<GoValue>)
      requires Valid() && at < |text| && text[at] == LBRACE && d <= at + 1
      modifies this
      ensures Valid() && Agrees(r, ParseObject(text, old(at), d, mode), at)
      decreases |text| - at, 2
    {
      hide ParseMember, ParseSeparator, SkipWs, Meaning, Built, Put;
      ghost var spec := ParseObject(text, at, d, mode);
      var keys: seq<Text>, vals: map<Text, GoValue> := [], map[];
      EmptyMeans();
      at := SkipWs(text, at + 1);
      if at < |text| && text[at] == RBRACE {
        at := at + 1;
        return Some(GoObject(keys, vals));
      }
      while true
        invariant Valid() && old(at) < at && d <= at
        invariant Built(GoObject(keys, vals)) && Meaning(GoObject(keys, vals)).Object?
        invariant ParseMembers(text, at, d, mode, Meaning(GoObject(keys, vals)).members) == spec
        decreases |text| - at
      {
        ghost var acc := Meaning(GoObject(keys, vals)).members;
        ghost var member := ParseMember(text, at, d, mode, acc);
        var k, v := ParseGoMember(d, keys, vals);
        if v.None? { return None; }
        MeaningPut(keys, vals, k, v.value);
        BuiltMore(keys, vals, k, v.value);
        keys, vals := keys + [k], vals[k := v.value];
        var more := ParseSeparator(text, at, RBRACE);
        if more.Err? { return None; }
        at := more.next;
        if !more.value { return Some(GoObject(keys, vals)); }
      }
    }

    /** A key that is not there yet, and its value. */
    method ParseGoMember(ghost d: nat, ghost keys: seq<Text>, vals: map<Text, GoValue>)
        returns (k: Text, v: Option<GoValue>)
      requires Valid() && d <= at && Built(GoObject(keys, vals)) && Meaning(GoObject(keys, vals)).Object?
      modifies this
      ensures Valid()
      ensures var p := ParseMember(text, old(at), d, mode, Meaning(GoObject(keys, vals)).members);
        if p.Ok? then v.Some? && Built(v.value) && p.value == Member(k, Meaning(v.value)) && at == p.next
          && Scalars(k) && k !in vals
        else v.None?
      decreases |text| - at, 4
    {
      hide ParseString, ParseValue, SkipWs, Meaning, Built, Has;
      k, v := [], None;
      var key := ParseString(text, SkipWs(text, at), mode);
      StringIsScalars(text, SkipWs(text, at), mode);
      if key.Err? { return; }
      k := key.value;
      var colon := SkipWs(text, key.next);
      if colon == |text| || text[colon] != COLON { return; }
      HasKey(keys, vals, k);
      if k in vals { return; }
      at := colon + 1;
      v := ParseGoValue(d);
    }

    method ParseGoArray(ghost d: nat) returns (r: Option<GoValue>)
      requires Valid() && at < |text| && text[at] == LBRACKET && d <= at + 1
      modifies this
      ensures Valid() && Agrees(r, ParseArray(text, old(at), d, mode), at)
      decreases |text| - at, 2
    {
      hide ParseValue, ParseSeparator, SkipWs, Meaning, Built;
      ghost var spec := ParseArray(text, at, d, mode);
      var items: seq<GoValue> := [];
      EmptyMeans();
      at := SkipWs(text, at + 1);
      if at < |text| && text[at] == RBRACKET {
        at := at + 1;
        return Some(GoArray(items));
      }
      while true
        invariant Valid() && old(at) < at && d <= at
        invariant Built(GoArray(items)) && Meaning(GoArray(items)).Array?
        invariant ParseItems(text, at, d, mode, Meaning(GoArray(items)).items) == spec
        decreases |text| - at
      {
        var v := ParseGoValue(d);
        if v.None? { return None; }
        MeaningAppend(items, v.value);
        items := items + [v.value];
        var more := ParseSeparator(text, at, RBRACKET);
        if more.Err? { return None; }
        at := more.next;
        if !more.value { return Some(GoArray(items)); }
      }
    }
  }

  /** The scalar branches of the grammar. */
  ghost function ParseScalarAt(s: Text, j: nat, m: Mode): (r: Parsed<Json>)
    requires j < |s|
  {
    if s[j] == QUOTE then (match ParseString(s, j, m) case Err(e) => Err(e) case Ok(t, n) => Ok(Str(t), n))
    else if s[j] == 116 then ParseLiteral(s, j, TRUE_TEXT, Bool(true))
    else if s[j] == 102 then ParseLiteral(s, j, FALSE_TEXT, Bool(false))
    else if s[j] == 110 then ParseLiteral(s, j, NULL_TEXT, Null)
    else ParseNumber(s, j)
  }

  lemma ScalarIs(s: Text, i: nat, d: nat, m: Mode, at: nat)
    requires i <= |s| && SkipWs(s, i) < |s| && s[SkipWs(s, i)] != LBRACE && s[SkipWs(s, i)] != LBRACKET
    ensures ParseValue(s, i, d, m) == ParseScalarAt(s, SkipWs(s, i), m)
  {
    hide ParseString, ParseNumber, ParseLiteral, SkipWs;
  }

  lemma TokenValue(s: Text, i: nat)
    requires i <= |s|
    ensures ParseNumber(s, i).Ok? ==>
      ParseNumber(s, i).value.Int? && -MAX_SAFE_INT <= ParseNumber(s, i).value.n <= MAX_SAFE_INT
    ensures ParseLiteral(s, i, TRUE_TEXT, Bool(true)).Ok? ==>
      ParseLiteral(s, i, TRUE_TEXT, Bool(true)).value == Bool(true)
    ensures ParseLiteral(s, i, FALSE_TEXT, Bool(false)).Ok? ==>
      ParseLiteral(s, i, FALSE_TEXT, Bool(false)).value == Bool(false)
    ensures ParseLiteral(s, i, NULL_TEXT, Null).Ok? ==> ParseLiteral(s, i, NULL_TEXT, Null).value == Null
  {
    hide ParseNumber;
    NumberInRange(s, i);
  }

  /** On a text the scans let through, the decoder with no bound accepts what the bounded reader accepts. */
  lemma ScannedTextAgrees(s: Text)
    requires Scalars(s) && ScanTo(s, 0, |s|, SCAN_START).best <= MAX_JSON_DEPTH && !LoneFrom(s, 0)
    ensures Accepted(s) == if ParseText(s, Mode(|s|, true)).Ok? then Some(ParseText(s, Mode(|s|, true)).value) else None
  {
    hide ParseValue, LoneFrom, SkipWs;
    var m, l := Mode(|s|, true), Mode(|s|, false);
    BestBelowLength(s, 0, SCAN_START);
    if ParseText(s, m).Ok? {
      AcceptedIsProfile(s, m);
      RelaxValue(s, 0, 0, m, l);
      ScansAreExact(s, l);
      RelaxValue(s, 0, 0, m, RUST_MODE);
    }
    if ParseText(s, RUST_MODE).Ok? {
      LenientAfterStrict(s);
      ScansAreExact(s, l);
      RelaxValue(s, 0, 0, RUST_MODE, m);
    }
  }

  /** canonical.go `Parse`: the scans, the value, nothing after it. */
  method ParseBuilt(text: Text) returns (r: Option<GoValue>)
    requires Scalars(text)
    ensures r.Some? <==> Accepted(text).Some?
    ensures r.Some? ==> Built(r.value) && Meaning(r.value) == Accepted(text).value
  {
    hide ParseValue, LoneFrom, SkipWs, Built, Meaning, Accepted;
    ReadersAgree(text);
    var d := NestingDepth(text);
    if d > MAX_JSON_DEPTH { return None; }
    var lone := HasLoneSurrogate(text);
    if lone { return None; }
    ScannedTextAgrees(text);
    var dec := new Decoder(text);
    var v := dec.ParseGoValue(0);
    if v.None? { return None; }
    if SkipWs(text, dec.at) != |text| { return None; }
    return v;
  }

  /** The whole Go path: what it reads and writes again is the canonical text of the value every reader accepts. */
  method Recanonicalise(text: Text) returns (r: Option<Text>)
    requires Scalars(text)
    ensures r.Some? <==> Accepted(text).Some?
    ensures r.Some? ==> Profile(Accepted(text).value) && r.value == Canonical(Accepted(text).value)
  {
    hide Accepted, Built, Meaning, Print;
    var v := ParseBuilt(text);
    if v.None? { return None; }
    var b := new Buffer();
    Encode(b, v.value);
    return Some(b.text);
  }
}
