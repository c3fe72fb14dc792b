/** The Go encoder (verifiers/go/canonical.go): objects keep the order their keys were read in and are
    written with sorted keys, into a growing buffer. */
module GoCanonical {
  import opened Texts
  import opened JsonValues
  import opened JsonGrammar
  import opened JsonPrinter

  datatype GoValue =
    | GoNull
    | GoBool(b: bool)
    | GoNumber(n: int)
    | GoString(s: Text)
    | GoArray(items: seq<GoValue>)
    | GoObject(keys: seq<Text>, vals: map<Text, GoValue>)

  // ---- sorting keys --------------------------------------------------------------------------

  ghost predicate Ascending(ks: seq<Text>)
  {
    forall i, j :: 0 <= i < j < |ks| ==> Less(ks[i], ks[j])
  }

  function InsertKey(ks: seq<Text>, k: Text): (r: seq<Text>)
    ensures |r| == |ks| + 1 && forall x :: x in r <==> x in ks || x == k
  {
    if ks == [] then [k]
    else if Less(k, ks[0]) then [k] + ks
    else [ks[0]] + InsertKey(ks[1..], k)
  }

  /** sort.Strings. */
  function SortKeys(ks: seq<Text>): (r: seq<Text>)
    ensures |r| == |ks| && forall x :: x in r <==> x in ks
  {
    if ks == [] then [] else InsertKey(SortKeys(ks[1..]), ks[0])
  }

  lemma {:induction false} InsertAscending(ks: seq<Text>, k: Text)
    requires Ascending(ks) && k !in ks
    ensures Ascending(InsertKey(ks, k))
  {
    if ks != [] {
      if Less(k, ks[0]) {
        forall j | 0 < j < |ks| ensures Less(k, ks[j]) { LessTransitive(k, ks[0], ks[j]); }
      } else {
        LessTotal(k, ks[0]);
        InsertAscending(ks[1..], k);
        var r := InsertKey(ks[1..], k);
        forall j | 0 <= j < |r| ensures Less(ks[0], r[j]) { assert r[j] in r; }
      }
    }
  }

  lemma {:induction false} SortAscending(ks: seq<Text>)
    requires Distinct(ks)
    ensures Ascending(SortKeys(ks))
  {
    if ks != [] {
      SortAscending(ks[1..]);
      InsertAscending(SortKeys(ks[1..]), ks[0]);
    }
  }

  lemma {:induction false} AscendingUnique(a: seq<Text>, b: seq<Text>)
    requires Ascending(a) && Ascending(b) && forall x :: x in a <==> x in b
    ensures a == b
  {
    assert b != [] ==> b[0] in b;
    if a != [] {
      assert a[0] in b;
      assert b[0] in a;
      HeadsEqual(a, b);
      forall x ensures x in a[1..] <==> x in b[1..] {
        LessIrreflexive(a[0]);
        assert x in a <==> x == a[0] || x in a[1..];
        assert x in b <==> x == b[0] || x in b[1..];
      }
      AscendingUnique(a[1..], b[1..]);
    }
  }

  lemma HeadsEqual(a: seq<Text>, b: seq<Text>)
    requires a != [] && b != [] && Ascending(a) && Ascending(b) && a[0] in b && b[0] in a
    ensures a[0] == b[0]
  {
    if a[0] != b[0] {
      LessTransitive(a[0], b[0], a[0]);
      LessIrreflexive(a[0]);
    }
  }

  /** The order the keys were inserted in leaves no trace. */
  lemma InsertionOrderIrrelevant(ks: seq<Text>, other: seq<Text>)
    requires Distinct(ks) && Distinct(other) && forall x :: x in ks <==> x in other
    ensures SortKeys(ks) == SortKeys(other)
  {
    SortAscending(ks);
    SortAscending(other);
    AscendingUnique(SortKeys(ks), SortKeys(other));
  }

  // ---- the value a Go value stands for -----------------------------------------------------------

  /** What parseValue builds: the keys are distinct and are those of the map. */
  ghost predicate Built(v: GoValue)
  {
    match v
    case GoNumber(n) => -MAX_SAFE_INT <= n <= MAX_SAFE_INT
    case GoString(s) => Scalars(s)
    case GoArray(items) => forall k :: 0 <= k < |items| ==> Built(items[k])
    case GoObject(keys, vals) =>
      Distinct(keys) && (forall k :: k in keys <==> k in vals) && forall k :: k in vals ==> Scalars(k) && Built(vals[k])
    case _ => true
  }

  ghost function Meaning(v: GoValue): (r: Json)
  {
    match v
    case GoNull => Null
    case GoBool(b) => Bool(b)
    case GoNumber(n) => Int(n)
    case GoString(s) => Str(s)
    case GoArray(items) => Array(seq(|items|, k requires 0 <= k < |items| => Meaning(items[k])))
    case GoObject(keys, vals) =>
      var ks := SortKeys(keys);
      Object(seq(|ks|, k requires 0 <= k < |ks| =>
        if ks[k] in vals then Member(ks[k], Meaning(vals[ks[k]])) else Member(ks[k], Null)))
  }

  lemma {:induction false} MeaningIsProfile(v: GoValue)
    requires Built(v)
    ensures Profile(Meaning(v))
  {
    match v {
      case GoArray(items) =>
        forall k | 0 <= k < |items| ensures Profile(Meaning(items[k])) { MeaningIsProfile(items[k]); }
      case GoObject(keys, vals) =>
        var ks := SortKeys(keys);
        var ms := Meaning(v).members;
        SortAscending(keys);
        forall k | 0 <= k < |ks| ensures Scalars(ms[k].key) && Profile(ms[k].val) && ms[k].key == ks[k] {
          assert ks[k] in ks;
          MeaningIsProfile(vals[ks[k]]);
        }
      case _ =>
    }
  }

  /** The same value, whatever the order its keys were inserted in, at every level. */
  ghost predicate Same(v: GoValue, w: GoValue)
  {
    match v
    case GoArray(items) => w.GoArray? && |items| == |w.items|
      && forall k :: 0 <= k < |items| ==> Same(items[k], w.items[k])
    case GoObject(keys, vals) =>
      w.GoObject? && (forall k :: k in keys <==> k in w.keys)
        && forall k :: k in vals ==> k in w.vals && Same(vals[k], w.vals[k])
    case _ => v == w
  }

  /** Two values that differ in the order of their keys only stand for one value, so by the contract of `Encode`
      they are written as the same bytes. */
  lemma {:induction false} OrderIrrelevant(v: GoValue, w: GoValue)
    requires Built(v) && Built(w) && Same(v, w)
    ensures Meaning(v) == Meaning(w)
    decreases v
  {
    match v {
      case GoArray(items) =>
        forall k | 0 <= k < |items| ensures Meaning(items[k]) == Meaning(w.items[k]) {
          OrderIrrelevant(items[k], w.items[k]);
        }
        assert Meaning(v).items == Meaning(w).items;
      case GoObject(keys, vals) =>
        InsertionOrderIrrelevant(keys, w.keys);
        forall k | k in vals ensures Meaning(vals[k]) == Meaning(w.vals[k]) { OrderIrrelevant(vals[k], w.vals[k]); }
        assert Meaning(v).members == Meaning(w).members;
      case _ =>
    }
  }

  // ---- the encoder ---------------------------------------------------------------------------

  class Buffer {
    var text: Text
    constructor () ensures text == [] { text := []; }
    method Write(t: Text)
      modifies this
      ensures text == old(text) + t
    {
      text := text + t;
    }
  }

  method WriteString(b: Buffer, s: Text)
    requires Scalars(s)
    modifies b
    ensures b.text == old(b.text) + Quoted(s)
  {
    hide Escaped;
    b.Write([QUOTE]);
    for k := 0 to |s|
      invariant b.text == old(b.text) + ([QUOTE] + EscapedAll(s[..k]))
    {
      EscapedAllAppend(s[..k], s[k]);
      assert s[..k + 1] == s[..k] + [s[k]];
      b.Write(Escaped(s[k]));
    }
    assert s[..|s|] == s;
    b.Write([QUOTE]);
  }

  /** What remains to be written of a list from its k-th element: the commas go before all but the first. */
  ghost function ItemsFrom(items: seq<Json>, k: nat): (r: Text)
    requires k <= |items| && forall i :: 0 <= i < |items| ==> Profile(items[i])
    decreases |items| - k
  {
    if k == |items| then []
    else (if k > 0 then [COMMA] else []) + (Print(items[k], Compact, 0) + ItemsFrom(items, k + 1))
  }

  ghost function MembersFrom(ms: seq<Member>, k: nat): (r: Text)
    requires k <= |ms| && forall i :: 0 <= i < |ms| ==> Scalars(ms[i].key) && Profile(ms[i].val)
    decreases |ms| - k
  {
    if k == |ms| then []
    else (if k > 0 then [COMMA] else []) + (PrintMember(ms[k], Compact, 0) + MembersFrom(ms, k + 1))
  }

  lemma {:induction false} LevelIrrelevant(v: Json, a: nat, b: nat)
    requires Profile(v)
    ensures Print(v, Compact, a) == Print(v, Compact, b)
    decreases v, 1
  {
    match v {
      case Array(items) => if items != [] { ItemsLevelIrrelevant(items, a + 1, b + 1); }
      case Object(ms) => if ms != [] { MembersLevelIrrelevant(ms, a + 1, b + 1); }
      case _ =>
    }
  }

  lemma {:induction false} ItemsLevelIrrelevant(items: seq<Json>, a: nat, b: nat)
    requires items != [] && forall k :: 0 <= k < |items| ==> Profile(items[k])
    ensures PrintItems(items, Compact, a) == PrintItems(items, Compact, b)
    decreases items, 0
  {
    hide Print;
    LevelIrrelevant(items[0], a, b);
    if |items| > 1 { ItemsLevelIrrelevant(items[1..], a, b); }
  }

  lemma {:induction false} MembersLevelIrrelevant(ms: seq<Member>, a: nat, b: nat)
    requires ms != [] && forall k :: 0 <= k < |ms| ==> Scalars(ms[k].key) && Profile(ms[k].val)
    ensures PrintMembers(ms, Compact, a) == PrintMembers(ms, Compact, b)
    decreases ms, 0
  {
    hide Print;
    LevelIrrelevant(ms[0].val, a, b);
    if |ms| > 1 { MembersLevelIrrelevant(ms[1..], a, b); }
  }

  lemma {:induction false} ItemsFromTail(items: seq<Json>, k: nat)
    requires k < |items| && forall i :: 0 <= i < |items| ==> Profile(items[i])
    ensures ItemsFrom(items, k) == (if k > 0 then [COMMA] else []) + PrintItems(items[k..], Compact, 0)
    decreases |items| - k
  {
    hide Print;
    assert items[k..][1..] == items[k + 1..];
    if k + 1 < |items| { ItemsFromTail(items, k + 1); }
  }

  lemma {:induction false} MembersFromTail(ms: seq<Member>, k: nat)
    requires k < |ms| && forall i :: 0 <= i < |ms| ==> Scalars(ms[i].key) && Profile(ms[i].val)
    ensures MembersFrom(ms, k) == (if k > 0 then [COMMA] else []) + PrintMembers(ms[k..], Compact, 0)
    decreases |ms| - k
  {
    hide PrintMember;
    assert ms[k..][1..] == ms[k + 1..];
    if k + 1 < |ms| { MembersFromTail(ms, k + 1); }
  }

  lemma ArrayText(items: seq<Json>)
    requires Profile(Array(items))
    ensures Canonical(Array(items)) == [LBRACKET] + ItemsFrom(items, 0) + [RBRACKET]
  {
    hide PrintItems, ItemsFrom;
    if items == [] {
      EmptyFrom();
    } else {
      ItemsFromTail(items, 0);
      assert items[0..] == items;
      ItemsLevelIrrelevant(items, 0, 1);
    }
  }

  lemma EmptyFrom()
    ensures ItemsFrom([], 0) == [] && MembersFrom([], 0) == []
  {}

  lemma ObjectText(ms: seq<Member>)
    requires Profile(Object(ms))
    ensures Canonical(Object(ms)) == [LBRACE] + MembersFrom(ms, 0) + [RBRACE]
  {
    hide PrintMembers, MembersFrom;
    if ms == [] {
      EmptyFrom();
    } else {
      MembersFromTail(ms, 0);
      assert ms[0..] == ms;
      MembersLevelIrrelevant(ms, 0, 1);
    }
  }

  /** `encode`: the buffer grows by the canonical text of the value. */
  method Encode(b: Buffer, v: GoValue)
    requires Built(v)
    modifies b
    ensures Profile(Meaning(v)) && b.text == old(b.text) + Canonical(Meaning(v))
    decreases v, 4
  {
    MeaningIsProfile(v);
    match v {
      case GoNull => b.Write(NULL_TEXT);
      case GoBool(x) => b.Write(if x then TRUE_TEXT else FALSE_TEXT);
      case GoNumber(n) => b.Write(IntText(n));
      case GoString(s) => WriteString(b, s);
      case GoArray(_) => EncodeArray(b, v);
      case GoObject(_, _) => EncodeObject(b, v);
    }
  }

  lemma Regroup(t: Text, comma: Text, p: Text, rest: Text)
    ensures t + (comma + (p + rest)) == t + comma + p + rest
  {}

  method EncodeItem(b: Buffer, v: GoValue, i: nat)
    requires v.GoArray? && Built(v) && i < |v.items|
    modifies b
    ensures Profile(Meaning(v))
      && b.text + ItemsFrom(Meaning(v).items, i + 1) == old(b.text) + ItemsFrom(Meaning(v).items, i)
    decreases v, 2
  {
    hide Print;
    MeaningIsProfile(v);
    ghost var js := Meaning(v).items;
    Regroup(b.text, if i > 0 then [COMMA] else [], Print(js[i], Compact, 0), ItemsFrom(js, i + 1));
    if i > 0 { b.Write([COMMA]); }
    Encode(b, v.items[i]);
  }

  method EncodeArray(b: Buffer, v: GoValue)
    requires v.GoArray? && Built(v)
    modifies b
    ensures Profile(Meaning(v)) && b.text == old(b.text) + Canonical(Meaning(v))
    decreases v, 3
  {
    hide Print;
    MeaningIsProfile(v);
    ghost var js := Meaning(v).items;
    ghost var whole := old(b.text) + [LBRACKET] + ItemsFrom(js, 0);
    b.Write([LBRACKET]);
    for i := 0 to |v.items|
      invariant b.text + ItemsFrom(js, i) == whole
    {
      EncodeItem(b, v, i);
    }
    assert b.text + [] == b.text && Meaning(v) == Array(js);
    b.Write([RBRACKET]);
    ArrayText(js);
  }

  method EncodeMember(b: Buffer, v: GoValue, ks: seq<Text>, i: nat)
    requires v.GoObject? && Built(v) && ks == SortKeys(v.keys) && i < |ks|
    modifies b
    ensures Profile(Meaning(v))
      && b.text + MembersFrom(Meaning(v).members, i + 1) == old(b.text) + MembersFrom(Meaning(v).members, i)
    decreases v, 2
  {
    hide PrintMember, SortKeys;
    MeaningIsProfile(v);
    ghost var ms := Meaning(v).members;
    Regroup(b.text, if i > 0 then [COMMA] else [], PrintMember(ms[i], Compact, 0), MembersFrom(ms, i + 1));
    assert ks[i] in ks;
    if i > 0 { b.Write([COMMA]); }
    WriteMember(b, v, ks[i]);
  }

  method WriteMember(b: Buffer, v: GoValue, key: Text)
    requires v.GoObject? && Built(v) && key in v.vals
    modifies b
    ensures Profile(Meaning(v.vals[key]))
    ensures b.text == old(b.text) + PrintMember(Member(key, Meaning(v.vals[key])), Compact, 0)
    decreases v, 1
  {
    hide Print, Quoted, Meaning;
    MeaningIsProfile(v.vals[key]);
    WriteString(b, key);
    b.Write([COLON]);
    Encode(b, v.vals[key]);
    Regroup(old(b.text), Quoted(key), [COLON], Print(Meaning(v.vals[key]), Compact, 0));
  }

  method EncodeObject(b: Buffer, v: GoValue)
    requires v.GoObject? && Built(v)
    modifies b
    ensures Profile(Meaning(v)) && b.text == old(b.text) + Canonical(Meaning(v))
    decreases v, 3
  {
    hide Print, PrintMember, SortKeys, Profile, Built;
    MeaningIsProfile(v);
    ghost var ms := Meaning(v).members;
    ghost var whole := old(b.text) + [LBRACE] + MembersFrom(ms, 0);
    var ks := SortKeys(v.keys);
    b.Write([LBRACE]);
    for i := 0 to |ks|
      invariant b.text + MembersFrom(ms, i) == whole
    {
      EncodeMember(b, v, ks, i);
    }
    assert b.text + [] == b.text && Meaning(v) == Object(ms);
    b.Write([RBRACE]);
    ObjectText(ms);
  }

  // ---- the alphabet of the canonical form ----------------------------------------------------

  lemma PrintableJoin(a: Text, b: Text)
    requires Printable(a) && Printable(b)
    ensures Printable(a + b)
  {}

  lemma {:induction false} DecimalPrintable(n: nat)
    ensures Printable(DecimalText(n))
  {
    if n >= 10 { DecimalPrintable(n / 10); }
  }

  lemma UnicodePrintable(n: int)
    requires 0 <= n < 0x10000
    ensures Printable(UnicodeText(n))
  {}

  lemma EscapedPrintable(c: int)
    requires IsScalar(c)
    ensures Printable(Escaped(c))
  {
    hide UnicodeText;
    if c > 0xFFFF {
      UnicodePrintable(0xD800 + (c - 0x10000) / 0x400);
      UnicodePrintable(0xDC00 + (c - 0x10000) % 0x400);
    } else {
      UnicodePrintable(c);
    }
  }

  lemma {:induction false} QuotedPrintable(t: Text)
    requires Scalars(t)
    ensures Printable(EscapedAll(t)) && Printable(Quoted(t))
  {
    hide Escaped;
    if t != [] {
      EscapedPrintable(t[0]);
      QuotedPrintable(t[1..]);
      PrintableJoin(Escaped(t[0]), EscapedAll(t[1..]));
    }
  }

  /** The canonical form uses only the bytes 0x20 to 0x7e: a newline can only be a line's end. */
  lemma {:induction false} CanonicalPrintable(v: Json, level: nat)
    requires Profile(v)
    ensures Printable(Print(v, Compact, level))
    decreases v, 1
  {
    hide IntText, Quoted;
    match v {
      case Int(n) => DecimalPrintable(if n < 0 then -n else n); IntPrintable(n);
      case Str(s) => QuotedPrintable(s);
      case Array(items) => if items != [] { ItemsPrintable(items, level + 1); }
      case Object(ms) => if ms != [] { MembersPrintable(ms, level + 1); }
      case _ =>
    }
  }

  lemma IntPrintable(n: int)
    ensures Printable(IntText(n))
  {
    DecimalPrintable(if n < 0 then -n else n);
  }

  lemma {:induction false} ItemsPrintable(items: seq<Json>, level: nat)
    requires items != [] && forall k :: 0 <= k < |items| ==> Profile(items[k])
    ensures Printable(PrintItems(items, Compact, level))
    decreases items, 0
  {
    hide Print;
    CanonicalPrintable(items[0], level);
    if |items| > 1 { ItemsPrintable(items[1..], level); }
  }

  lemma {:induction false} MembersPrintable(ms: seq<Member>, level: nat)
    requires ms != [] && forall k :: 0 <= k < |ms| ==> Scalars(ms[k].key) && Profile(ms[k].val)
    ensures Printable(PrintMembers(ms, Compact, level))
    decreases ms, 0
  {
    hide Print, Quoted;
    QuotedPrintable(ms[0].key);
    CanonicalPrintable(ms[0].val, level);
    if |ms| > 1 { MembersPrintable(ms[1..], level); }
  }
}
