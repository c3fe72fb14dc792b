/** Three ways to accept a text: the strict bounded reader of json.rs; a linear pre-scan followed by a
    lenient unbounded reader, as prescan.go does it; a depth pre-scan, the lenient reader, then a walk
    over the value, as ledger.py does it. They accept the same texts with the same values. */
module ReaderAgreement {
  import opened Texts
  import opened JsonValues
  import opened JsonGrammar
  import opened JsonStructure
  import opened Prescan

  // ---- what the accumulators keep ----------------------------------------------------------------

  lemma {:induction false} CharsGrow(s: Text, i: nat, out: Text, m: Mode)
    requires i <= |s| && ParseChars(s, i, out, m).Ok?
    ensures out <= ParseChars(s, i, out, m).value
    decreases |s| - i
  {
    hide StringUnit;
    match StringUnit(s, i, m) {
      case Push(c, n) => CharsGrow(s, n, out + [c], m);
      case _ =>
    }
  }

  lemma {:induction false} ItemsGrow(s: Text, i: nat, d: nat, m: Mode, acc: seq<Json>)
    requires i <= |s| && ParseItems(s, i, d, m, acc).Ok?
    ensures var r := ParseItems(s, i, d, m, acc).value;
      r.Array? && acc <= r.items && ItemsDepth(acc) <= ItemsDepth(r.items)
    decreases |s| - i
  {
    hide ParseValue, ParseSeparator;
    var v, n := ParseValue(s, i, d, m).value, ParseValue(s, i, d, m).next;
    ItemsDepthAppend(acc, v);
    var sep := ParseSeparator(s, n, RBRACKET);
    if sep.value { ItemsGrow(s, sep.next, d, m, acc + [v]); }
  }

  lemma {:induction false} MembersGrow(s: Text, i: nat, d: nat, m: Mode, acc: seq<Member>)
    requires i <= |s| && ParseMembers(s, i, d, m, acc).Ok?
    ensures var r := ParseMembers(s, i, d, m, acc).value;
      r.Object? && (forall x :: x in acc ==> x in r.members) && MembersDepth(acc) <= MembersDepth(r.members)
    decreases |s| - i
  {
    hide ParseMember, ParseSeparator, Put;
    var mem, n := ParseMember(s, i, d, m, acc).value, ParseMember(s, i, d, m, acc).next;
    PutMembers(acc, mem.key, mem.val);
    var sep := ParseSeparator(s, n, RBRACE);
    if sep.value { MembersGrow(s, sep.next, d, m, Put(acc, mem.key, mem.val)); }
  }

  lemma PutClean(acc: seq<Member>, mem: Member)
    ensures CleanMembers(Put(acc, mem.key, mem.val)) <==> CleanMembers(acc) && CleanText(mem.key) && Clean(mem.val)
  {
    hide Put;
    var p := Put(acc, mem.key, mem.val);
    PutMembers(acc, mem.key, mem.val);
    assert mem == Member(mem.key, mem.val);
    if CleanMembers(acc) && CleanText(mem.key) && Clean(mem.val) {
      forall k | 0 <= k < |p| ensures CleanText(p[k].key) && Clean(p[k].val) { assert p[k] in p; }
    }
    if CleanMembers(p) {
      forall k | 0 <= k < |acc| ensures CleanText(acc[k].key) && Clean(acc[k].val) { assert acc[k] in p; }
      assert mem in p;
    }
  }

  lemma SubsetClean(a: seq<Member>, b: seq<Member>)
    requires forall x :: x in a ==> x in b
    ensures CleanMembers(b) ==> CleanMembers(a)
  {
    if CleanMembers(b) {
      forall k | 0 <= k < |a| ensures CleanText(a[k].key) && Clean(a[k].val) { assert a[k] in b; }
    }
  }

  // ---- from the lenient reader to the strict one -----------------------------------------------

  /** The strict answer that goes with a lenient success. */
  ghost function Strictly<T>(p: Parsed<T>, clean: bool): (r: Parsed<T>)
  {
    if clean then p else Err(LoneSurrogate)
  }

  lemma StrictUnit(s: Text, i: nat, l: Mode, m: Mode)
    requires Scalars(s) && i < |s| && !l.strict && m.strict && !StringUnit(s, i, l).Fail?
    ensures StringUnit(s, i, m) == match StringUnit(s, i, l)
                                   case Push(c, n) => if IsSurrogate(c) then Fail(LoneSurrogate) else Push(c, n)
                                   case u => u
  {
    hide Hex4;
  }

  lemma {:induction false} StrictChars(s: Text, i: nat, out: Text, l: Mode, m: Mode)
    requires Scalars(s) && i <= |s| && !l.strict && m.strict && CleanText(out)
    requires ParseChars(s, i, out, l).Ok?
    ensures ParseChars(s, i, out, m) == Strictly(ParseChars(s, i, out, l), CleanText(ParseChars(s, i, out, l).value))
    decreases |s| - i
  {
    hide StringUnit;
    StrictUnit(s, i, l, m);
    match StringUnit(s, i, l) {
      case Push(c, n) =>
        CharsGrow(s, n, out + [c], l);
        if IsSurrogate(c) {
          assert (out + [c])[|out|] == c;
        } else {
          StrictChars(s, n, out + [c], l, m);
        }
      case _ =>
    }
  }

  lemma StrictString(s: Text, i: nat, l: Mode, m: Mode)
    requires Scalars(s) && i <= |s| && !l.strict && m.strict && ParseString(s, i, l).Ok?
    ensures ParseString(s, i, m) == Strictly(ParseString(s, i, l), CleanText(ParseString(s, i, l).value))
  {
    StrictChars(s, i + 1, [], l, m);
  }

  lemma {:induction false} StrictValue(s: Text, i: nat, d: nat, l: Mode, m: Mode)
    requires Scalars(s) && i <= |s| && !l.strict && m.strict && ParseValue(s, i, d, l).Ok?
    requires d + Depth(ParseValue(s, i, d, l).value) <= m.limit
    ensures ParseValue(s, i, d, m) == Strictly(ParseValue(s, i, d, l), Clean(ParseValue(s, i, d, l).value))
    decreases |s| - i, 3
  {
    hide ParseNumber, ParseString, ParseObject, ParseArray, SkipWs;
    var j := SkipWs(s, i);
    if s[j] == LBRACE {
      StrictObject(s, j, d + 1, l, m);
    } else if s[j] == LBRACKET {
      StrictArray(s, j, d + 1, l, m);
    } else if s[j] == QUOTE {
      StrictString(s, j, l, m);
    } else {
      NumberInRange(s, j);
    }
  }

  lemma {:induction false} StrictObject(s: Text, i: nat, d: nat, l: Mode, m: Mode)
    requires Scalars(s) && i < |s| && s[i] == LBRACE && !l.strict && m.strict && ParseObject(s, i, d, l).Ok?
    ensures ParseObject(s, i, d, l).value.Object?
    ensures d + MembersDepth(ParseObject(s, i, d, l).value.members) <= m.limit ==>
      ParseObject(s, i, d, m) == Strictly(ParseObject(s, i, d, l), Clean(ParseObject(s, i, d, l).value))
    decreases |s| - i, 2
  {
    hide ParseMembers, SkipWs;
    var j := SkipWs(s, i + 1);
    if j == |s| || s[j] != RBRACE {
      MembersGrow(s, j, d, l, []);
      if d + MembersDepth(ParseObject(s, i, d, l).value.members) <= m.limit { StrictMembers(s, j, d, l, m, []); }
    }
  }

  lemma {:induction false} StrictMember(s: Text, i: nat, d: nat, l: Mode, m: Mode, acc: seq<Member>)
    requires Scalars(s) && i <= |s| && !l.strict && m.strict && ParseMember(s, i, d, l, acc).Ok?
    requires d + Depth(ParseMember(s, i, d, l, acc).value.val) <= m.limit
    ensures var p := ParseMember(s, i, d, l, acc);
      ParseMember(s, i, d, m, acc) == Strictly(p, CleanText(p.value.key) && Clean(p.value.val))
    decreases |s| - i, 4
  {
    hide ParseString, ParseValue, SkipWs, Has;
    var a := SkipWs(s, i);
    StrictString(s, a, l, m);
    var b := SkipWs(s, ParseString(s, a, l).next);
    StrictValue(s, b + 1, d, l, m);
  }

  lemma {:induction false} StrictMembers(s: Text, i: nat, d: nat, l: Mode, m: Mode, acc: seq<Member>)
    requires Scalars(s) && i <= |s| && !l.strict && m.strict && CleanMembers(acc) && ParseMembers(s, i, d, l, acc).Ok?
    requires ParseMembers(s, i, d, l, acc).value.Object?
    requires d + MembersDepth(ParseMembers(s, i, d, l, acc).value.members) <= m.limit
    ensures ParseMembers(s, i, d, m, acc)
      == Strictly(ParseMembers(s, i, d, l, acc), Clean(ParseMembers(s, i, d, l, acc).value))
    decreases |s| - i, 5
  {
    hide ParseMember, ParseSeparator, Put, CleanMembers;
    var mem, n := ParseMember(s, i, d, l, acc).value, ParseMember(s, i, d, l, acc).next;
    var next := Put(acc, mem.key, mem.val);
    var res := ParseMembers(s, i, d, l, acc).value.members;
    PutClean(acc, mem);
    PutMembers(acc, mem.key, mem.val);
    var sep := ParseSeparator(s, n, RBRACE);
    if sep.value {
      MembersGrow(s, sep.next, d, l, next);
      SubsetClean(next, res);
      StrictMember(s, i, d, l, m, acc);
      if CleanMembers(next) { StrictMembers(s, sep.next, d, l, m, next); }
    } else {
      StrictMember(s, i, d, l, m, acc);
    }
  }

  lemma {:induction false} StrictArray(s: Text, i: nat, d: nat, l: Mode, m: Mode)
    requires Scalars(s) && i < |s| && s[i] == LBRACKET && !l.strict && m.strict && ParseArray(s, i, d, l).Ok?
    ensures ParseArray(s, i, d, l).value.Array?
    ensures d + ItemsDepth(ParseArray(s, i, d, l).value.items) <= m.limit ==>
      ParseArray(s, i, d, m) == Strictly(ParseArray(s, i, d, l), Clean(ParseArray(s, i, d, l).value))
    decreases |s| - i, 2
  {
    hide ParseItems, SkipWs;
    var j := SkipWs(s, i + 1);
    if j == |s| || s[j] != RBRACKET {
      ItemsGrow(s, j, d, l, []);
      if d + ItemsDepth(ParseArray(s, i, d, l).value.items) <= m.limit { StrictItems(s, j, d, l, m, []); }
    }
  }

  lemma {:induction false} StrictItems(s: Text, i: nat, d: nat, l: Mode, m: Mode, acc: seq<Json>)
    requires Scalars(s) && i <= |s| && !l.strict && m.strict && CleanItems(acc) && ParseItems(s, i, d, l, acc).Ok?
    requires ParseItems(s, i, d, l, acc).value.Array?
    requires d + ItemsDepth(ParseItems(s, i, d, l, acc).value.items) <= m.limit
    ensures ParseItems(s, i, d, m, acc)
      == Strictly(ParseItems(s, i, d, l, acc), Clean(ParseItems(s, i, d, l, acc).value))
    decreases |s| - i, 5
  {
    hide ParseValue, ParseSeparator;
    var v, n := ParseValue(s, i, d, l).value, ParseValue(s, i, d, l).next;
    var res := ParseItems(s, i, d, l, acc).value.items;
    ItemsDepthAppend(acc, v);
    var sep := ParseSeparator(s, n, RBRACKET);
    if sep.value { ItemsGrow(s, sep.next, d, l, acc + [v]); }
    assert res[|acc|] == (acc + [v])[|acc|] == v;
    StrictValue(s, i, d, l, m);
    if Clean(v) && sep.value { StrictItems(s, sep.next, d, l, m, acc + [v]); }
  }

  // ---- from any reader to one at least as permissive -------------------------------------------

  lemma RelaxUnit(s: Text, i: nat, m: Mode, l: Mode)
    requires i < |s| && (l.strict ==> m.strict) && !StringUnit(s, i, m).Fail?
    ensures StringUnit(s, i, l) == StringUnit(s, i, m)
  {
    hide Hex4;
  }

  lemma {:induction false} RelaxChars(s: Text, i: nat, out: Text, m: Mode, l: Mode)
    requires i <= |s| && (l.strict ==> m.strict) && ParseChars(s, i, out, m).Ok?
    ensures ParseChars(s, i, out, l) == ParseChars(s, i, out, m)
    decreases |s| - i
  {
    hide StringUnit;
    RelaxUnit(s, i, m, l);
    match StringUnit(s, i, m) {
      case Push(c, n) => RelaxChars(s, n, out + [c], m, l);
      case _ =>
    }
  }

  lemma RelaxString(s: Text, i: nat, m: Mode, l: Mode)
    requires i <= |s| && (l.strict ==> m.strict) && ParseString(s, i, m).Ok?
    ensures ParseString(s, i, l) == ParseString(s, i, m)
  {
    RelaxChars(s, i + 1, [], m, l);
  }

  lemma {:induction false} RelaxValue(s: Text, i: nat, d: nat, m: Mode, l: Mode)
    requires i <= |s| && (l.strict ==> m.strict) && ParseValue(s, i, d, m).Ok?
    requires d + Depth(ParseValue(s, i, d, m).value) <= l.limit
    ensures ParseValue(s, i, d, l) == ParseValue(s, i, d, m)
    decreases |s| - i, 3
  {
    hide ParseNumber, ParseString, ParseObject, ParseArray, SkipWs;
    var j := SkipWs(s, i);
    if s[j] == LBRACE {
      RelaxObject(s, j, d + 1, m, l);
    } else if s[j] == LBRACKET {
      RelaxArray(s, j, d + 1, m, l);
    } else if s[j] == QUOTE {
      RelaxString(s, j, m, l);
    }
  }

  lemma {:induction false} RelaxObject(s: Text, i: nat, d: nat, m: Mode, l: Mode)
    requires i < |s| && s[i] == LBRACE && (l.strict ==> m.strict) && ParseObject(s, i, d, m).Ok?
    ensures ParseObject(s, i, d, m).value.Object?
    ensures d + MembersDepth(ParseObject(s, i, d, m).value.members) <= l.limit ==>
      ParseObject(s, i, d, l) == ParseObject(s, i, d, m)
    decreases |s| - i, 2
  {
    hide ParseMembers, SkipWs;
    var j := SkipWs(s, i + 1);
    if j == |s| || s[j] != RBRACE {
      MembersGrow(s, j, d, m, []);
      if d + MembersDepth(ParseObject(s, i, d, m).value.members) <= l.limit { RelaxMembers(s, j, d, m, l, []); }
    }
  }

  lemma {:induction false} RelaxMember(s: Text, i: nat, d: nat, m: Mode, l: Mode, acc: seq<Member>)
    requires i <= |s| && (l.strict ==> m.strict) && ParseMember(s, i, d, m, acc).Ok?
    requires d + Depth(ParseMember(s, i, d, m, acc).value.val) <= l.limit
    ensures ParseMember(s, i, d, l, acc) == ParseMember(s, i, d, m, acc)
    decreases |s| - i, 4
  {
    hide ParseString, ParseValue, SkipWs, Has;
    var a := SkipWs(s, i);
    RelaxString(s, a, m, l);
    RelaxValue(s, SkipWs(s, ParseString(s, a, m).next) + 1, d, m, l);
  }

  lemma {:induction false} RelaxMembers(s: Text, i: nat, d: nat, m: Mode, l: Mode, acc: seq<Member>)
    requires i <= |s| && (l.strict ==> m.strict) && ParseMembers(s, i, d, m, acc).Ok?
    requires ParseMembers(s, i, d, m, acc).value.Object?
    requires d + MembersDepth(ParseMembers(s, i, d, m, acc).value.members) <= l.limit
    ensures ParseMembers(s, i, d, l, acc) == ParseMembers(s, i, d, m, acc)
    decreases |s| - i, 5
  {
    hide ParseMember, ParseSeparator, Put;
    var mem, n := ParseMember(s, i, d, m, acc).value, ParseMember(s, i, d, m, acc).next;
    var next := Put(acc, mem.key, mem.val);
    PutMembers(acc, mem.key, mem.val);
    var sep := ParseSeparator(s, n, RBRACE);
    if sep.value { MembersGrow(s, sep.next, d, m, next); }
    RelaxMember(s, i, d, m, l, acc);
    if sep.value { RelaxMembers(s, sep.next, d, m, l, next); }
  }

  lemma {:induction false} RelaxArray(s: Text, i: nat, d: nat, m: Mode, l: Mode)
    requires i < |s| && s[i] == LBRACKET && (l.strict ==> m.strict) && ParseArray(s, i, d, m).Ok?
    ensures ParseArray(s, i, d, m).value.Array?
    ensures d + ItemsDepth(ParseArray(s, i, d, m).value.items) <= l.limit ==>
      ParseArray(s, i, d, l) == ParseArray(s, i, d, m)
    decreases |s| - i, 2
  {
    hide ParseItems, SkipWs;
    var j := SkipWs(s, i + 1);
    if j == |s| || s[j] != RBRACKET {
      ItemsGrow(s, j, d, m, []);
      if d + ItemsDepth(ParseArray(s, i, d, m).value.items) <= l.limit { RelaxItems(s, j, d, m, l, []); }
    }
  }

  lemma {:induction false} RelaxItems(s: Text, i: nat, d: nat, m: Mode, l: Mode, acc: seq<Json>)
    requires i <= |s| && (l.strict ==> m.strict) && ParseItems(s, i, d, m, acc).Ok?
    requires ParseItems(s, i, d, m, acc).value.Array?
    requires d + ItemsDepth(ParseItems(s, i, d, m, acc).value.items) <= l.limit
    ensures ParseItems(s, i, d, l, acc) == ParseItems(s, i, d, m, acc)
    decreases |s| - i, 5
  {
    hide ParseValue, ParseSeparator;
    var v, n := ParseValue(s, i, d, m).value, ParseValue(s, i, d, m).next;
    ItemsDepthAppend(acc, v);
    var sep := ParseSeparator(s, n, RBRACKET);
    if sep.value { ItemsGrow(s, sep.next, d, m, acc + [v]); }
    RelaxValue(s, i, d, m, l);
    if sep.value { RelaxItems(s, sep.next, d, m, l, acc + [v]); }
  }

  // ---- the scans walk in step with the reader --------------------------------------------------

  /** Characters no scan reacts to outside a string. */
  predicate Neutral(c: int)
  {
    c != QUOTE && c != BACKSLASH && c != LBRACE && c != RBRACE && c != LBRACKET && c != RBRACKET
  }

  /** Between i and n the depth scan goes from st to `after` and the surrogate scan finds `lone`. */
  ghost predicate InStep(s: Text, i: nat, n: nat, st: ScanState, after: ScanState, lone: bool)
  {
    i <= n <= |s| && ScanTo(s, i, n, st) == after && (LoneFrom(s, i) <==> lone || LoneFrom(s, n))
  }

  lemma StepJoin(s: Text, i: nat, j: nat, k: nat, a: ScanState, b: ScanState, c: ScanState, p: bool, q: bool)
    requires InStep(s, i, j, a, b, p) && InStep(s, j, k, b, c, q)
    ensures InStep(s, i, k, a, c, p || q)
  {
    ScanJoin(s, i, j, k, a);
  }

  lemma StepOne(s: Text, i: nat, st: ScanState)
    requires i < |s| && s[i] != BACKSLASH
    ensures InStep(s, i, i + 1, st, ScanStep(st, s[i]), false)
  {
    assert ScanTo(s, i + 1, i + 1, ScanStep(st, s[i])) == ScanStep(st, s[i]);
  }

  lemma {:induction false} StepNeutral(s: Text, i: nat, n: nat, st: ScanState)
    requires i <= n <= |s| && !st.inStr && forall k :: i <= k < n ==> Neutral(s[k])
    ensures InStep(s, i, n, st, st, false)
    decreases n - i
  {
    if i < n {
      StepOne(s, i, st);
      StepNeutral(s, i + 1, n, st);
      StepJoin(s, i, i + 1, n, st, st, st, false, false);
    }
  }

  lemma {:induction false} WsNeutral(s: Text, i: nat)
    requires i <= |s|
    ensures forall k :: i <= k < SkipWs(s, i) ==> Neutral(s[k])
    decreases |s| - i
  {
    if i < |s| && IsWs(s[i]) { WsNeutral(s, i + 1); }
  }

  lemma StepWs(s: Text, i: nat, st: ScanState)
    requires i <= |s| && !st.inStr
    ensures InStep(s, i, SkipWs(s, i), st, st, false)
  {
    WsNeutral(s, i);
    StepNeutral(s, i, SkipWs(s, i), st);
  }

  lemma {:induction false} NumNeutral(s: Text, i: nat)
    requires i <= |s|
    ensures forall k :: i <= k < NumEnd(s, i) ==> Neutral(s[k])
    decreases |s| - i
  {
    if i < |s| && IsNumChar(s[i]) { NumNeutral(s, i + 1); }
  }

  lemma StepNumber(s: Text, i: nat, st: ScanState)
    requires i <= |s| && !st.inStr && ParseNumber(s, i).Ok?
    ensures InStep(s, i, ParseNumber(s, i).next, st, st, false)
  {
    NumNeutral(s, i);
    StepNeutral(s, i, NumEnd(s, i), st);
  }

  lemma StepLiteral(s: Text, i: nat, w: Text, v: Json, st: ScanState)
    requires i <= |s| && !st.inStr && w != [] && ParseLiteral(s, i, w, v).Ok?
    requires forall k :: 0 <= k < |w| ==> Neutral(w[k])
    ensures InStep(s, i, i + |w|, st, st, false)
  {
    forall k | i <= k < i + |w| ensures Neutral(s[k]) { assert s[i..i + |w|][k - i] == s[k]; }
    StepNeutral(s, i, i + |w|, st);
  }

  // Inside a string.

  lemma HexAgrees(s: Text, i: nat)
    requires Hex4(s, i).Some?
    ensures GoHex4(s, i) == Hex4(s, i)
    ensures forall k :: i <= k < i + 4 ==> s[k] != QUOTE && s[k] != BACKSLASH
  {}

  lemma {:induction false} ScanQuiet(s: Text, i: nat, n: nat, st: ScanState)
    requires i <= n <= |s| && st.inStr && !st.esc && forall k :: i <= k < n ==> s[k] != QUOTE && s[k] != BACKSLASH
    ensures ScanTo(s, i, n, st) == st
    decreases n - i
  {
    if i < n { ScanQuiet(s, i + 1, n, st); }
  }

  /** A `\uXXXX` escape is six characters the depth scan passes over. */
  lemma ScanEscape(s: Text, i: nat, st: ScanState)
    requires i + 6 <= |s| && EscapeU(s, i) && Hex4(s, i + 2).Some? && st.inStr && !st.esc
    ensures ScanTo(s, i, i + 6, st) == st
  {
    HexAgrees(s, i + 2);
    ScanQuiet(s, i + 2, i + 6, st);
    assert ScanTo(s, i + 1, i + 6, st.(esc := true)) == ScanTo(s, i + 2, i + 6, st);
  }

  lemma StepUnicode(s: Text, i: nat, l: Mode, st: ScanState)
    requires Scalars(s) && i + 1 < |s| && EscapeU(s, i) && !l.strict && UnicodeEscape(s, i + 2, l).Push? && st.inStr
      && !st.esc
    ensures var u := UnicodeEscape(s, i + 2, l);
      InStep(s, i, u.next, st, st, IsSurrogate(u.c))
  {
    hide Hex4, GoHex4;
    HexAgrees(s, i + 2);
    ScanEscape(s, i, st);
    var code := Hex4(s, i + 2).value;
    if IsHigh(code) && EscapeU(s, i + 6) && Hex4(s, i + 8).Some? {
      HexAgrees(s, i + 8);
      if IsLow(Hex4(s, i + 8).value) {
        ScanEscape(s, i + 6, st);
        ScanJoin(s, i, i + 6, i + 12, st);
      }
    }
  }

  lemma StepSimple(s: Text, i: nat, st: ScanState)
    requires i + 1 < |s| && s[i] == BACKSLASH && s[i + 1] != LOWER_U && st.inStr && !st.esc
    ensures InStep(s, i, i + 2, st, st, false)
  {
    assert ScanTo(s, i + 1, i + 2, st.(esc := true)) == ScanTo(s, i + 2, i + 2, st) == st;
  }

  lemma StepUnit(s: Text, i: nat, l: Mode, st: ScanState)
    requires Scalars(s) && i < |s| && !l.strict && st.inStr && !st.esc
    ensures match StringUnit(s, i, l)
            case Close(n) => InStep(s, i, n, st, st.(inStr := false), false)
            case Push(c, n) => InStep(s, i, n, st, st, IsSurrogate(c))
            case Fail(_) => true
  {
    hide UnicodeEscape, InStep;
    if s[i] != BACKSLASH {
      StepOne(s, i, st);
    } else if i + 1 < |s| {
      if s[i + 1] == LOWER_U {
        if UnicodeEscape(s, i + 2, l).Push? { StepUnicode(s, i, l, st); }
      } else {
        StepSimple(s, i, st);
      }
    }
  }

  lemma CleanTextCons(c: int, tail: Text)
    ensures CleanText([c] + tail) <==> !IsSurrogate(c) && CleanText(tail)
  {
    var t := [c] + tail;
    if CleanText(t) {
      assert t[0] == c;
      forall k | 0 <= k < |tail| ensures !IsSurrogate(tail[k]) { assert t[k + 1] == tail[k]; }
    }
  }

  lemma {:induction false} StepChars(s: Text, i: nat, out: Text, l: Mode, st: ScanState)
    requires Scalars(s) && i <= |s| && !l.strict && st.inStr && !st.esc && ParseChars(s, i, out, l).Ok?
    ensures var p := ParseChars(s, i, out, l);
      out <= p.value && InStep(s, i, p.next, st, st.(inStr := false), !CleanText(p.value[|out|..]))
    decreases |s| - i
  {
    hide StringUnit, InStep;
    StepUnit(s, i, l, st);
    CharsGrow(s, i, out, l);
    match StringUnit(s, i, l) {
      case Push(c, n) =>
        StepChars(s, n, out + [c], l, st);
        var r := ParseChars(s, i, out, l);
        var tail := r.value[|out| + 1..];
        assert r.value[|out|..] == [c] + tail;
        CleanTextCons(c, tail);
        StepJoin(s, i, n, r.next, st, st, st.(inStr := false), IsSurrogate(c), !CleanText(tail));
      case _ =>
    }
  }

  lemma StepString(s: Text, i: nat, l: Mode, st: ScanState)
    requires Scalars(s) && i <= |s| && !l.strict && !st.inStr && !st.esc && ParseString(s, i, l).Ok?
    ensures var p := ParseString(s, i, l);
      InStep(s, i, p.next, st, st, !CleanText(p.value))
  {
    hide ParseChars, InStep;
    StepOne(s, i, st);
    StepChars(s, i + 1, [], l, st.(inStr := true));
    var p := ParseChars(s, i + 1, [], l);
    assert p.value[0..] == p.value;
    StepJoin(s, i, i + 1, p.next, st, st.(inStr := true), st, false, !CleanText(p.value));
  }

  lemma StepSeparator(s: Text, i: nat, close: int, st: ScanState)
    requires i <= |s| && !st.inStr && !st.esc && (close == RBRACE || close == RBRACKET)
    ensures match ParseSeparator(s, i, close)
            case Ok(more, n) => InStep(s, i, n, st, if more then st else st.(depth := st.depth - 1), false)
            case Err(_) => true
  {
    hide InStep, SkipWs;
    var e := SkipWs(s, i);
    StepWs(s, i, st);
    match ParseSeparator(s, i, close) {
      case Ok(more, n) =>
        StepOne(s, e, st);
        StepJoin(s, i, e, n, st, st, ScanStep(st, s[e]), false, false);
      case Err(_) =>
    }
  }

  // Values. Outside strings, with the best depth at least the present one.

  ghost predicate Outside(st: ScanState) { !st.inStr && !st.esc && st.best >= st.depth }

  ghost function Deeper(st: ScanState, d: int): (r: ScanState) { st.(best := Max(st.best, st.depth + d)) }

  lemma {:induction false} StepValue(s: Text, i: nat, d: nat, l: Mode, st: ScanState)
    requires Scalars(s) && i <= |s| && !l.strict && Outside(st) && ParseValue(s, i, d, l).Ok?
    ensures var p := ParseValue(s, i, d, l);
      InStep(s, i, p.next, st, Deeper(st, Depth(p.value)), !Clean(p.value))
    decreases |s| - i, 3
  {
    hide ParseNumber, ParseString, ParseObject, ParseArray, SkipWs, InStep;
    var j := SkipWs(s, i);
    var p := ParseValue(s, i, d, l);
    StepWs(s, i, st);
    if s[j] == LBRACE {
      StepObject(s, j, d + 1, l, st);
    } else if s[j] == LBRACKET {
      StepArray(s, j, d + 1, l, st);
    } else if s[j] == QUOTE {
      StepString(s, j, l, st);
    } else if s[j] == 116 {
      StepLiteral(s, j, TRUE_TEXT, Bool(true), st);
    } else if s[j] == 102 {
      StepLiteral(s, j, FALSE_TEXT, Bool(false), st);
    } else if s[j] == 110 {
      StepLiteral(s, j, NULL_TEXT, Null, st);
    } else {
      NumberInRange(s, j);
      StepNumber(s, j, st);
    }
    assert Deeper(st, 0) == st;
    StepJoin(s, i, j, p.next, st, st, Deeper(st, Depth(p.value)), false, !Clean(p.value));
  }

  lemma {:induction false} StepObject(s: Text, i: nat, d: nat, l: Mode, st: ScanState)
    requires Scalars(s) && i < |s| && s[i] == LBRACE && !l.strict && Outside(st) && ParseObject(s, i, d, l).Ok?
    ensures var p := ParseObject(s, i, d, l);
      InStep(s, i, p.next, st, Deeper(st, Depth(p.value)), !Clean(p.value))
    decreases |s| - i, 2
  {
    hide ParseMembers, SkipWs, InStep;
    var j := SkipWs(s, i + 1);
    var p := ParseObject(s, i, d, l);
    var inner := ScanStep(st, LBRACE);
    StepOne(s, i, st);
    StepWs(s, i + 1, inner);
    StepJoin(s, i, i + 1, j, st, inner, inner, false, false);
    if j < |s| && s[j] == RBRACE {
      StepOne(s, j, inner);
      StepJoin(s, i, j, j + 1, st, inner, Deeper(st, 1), false, false);
    } else {
      MembersGrow(s, j, d, l, []);
      var lone := StepMembers(s, j, d, l, [], inner);
      StepJoin(s, i, j, p.next, st, inner, Deeper(st, Depth(p.value)), false, lone);
    }
  }

  lemma {:induction false} StepMember(s: Text, i: nat, d: nat, l: Mode, acc: seq<Member>, st: ScanState)
    requires Scalars(s) && i <= |s| && !l.strict && Outside(st) && ParseMember(s, i, d, l, acc).Ok?
    ensures var p := ParseMember(s, i, d, l, acc);
      InStep(s, i, p.next, st, Deeper(st, Depth(p.value.val)), !(CleanText(p.value.key) && Clean(p.value.val)))
    decreases |s| - i, 4
  {
    hide ParseString, ParseValue, SkipWs, Has, InStep;
    var a := SkipWs(s, i);
    StepWs(s, i, st);
    StepString(s, a, l, st);
    var k := ParseString(s, a, l);
    StepJoin(s, i, a, k.next, st, st, st, false, !CleanText(k.value));
    var b := SkipWs(s, k.next);
    StepWs(s, k.next, st);
    StepJoin(s, i, k.next, b, st, st, st, !CleanText(k.value), false);
    StepOne(s, b, st);
    StepJoin(s, i, b, b + 1, st, st, st, !CleanText(k.value), false);
    StepValue(s, b + 1, d, l, st);
    var v := ParseValue(s, b + 1, d, l);
    StepJoin(s, i, b + 1, v.next, st, st, Deeper(st, Depth(v.value)), !CleanText(k.value), !Clean(v.value));
  }

  lemma {:induction false} StepMembers(s: Text, i: nat, d: nat, l: Mode, acc: seq<Member>, st: ScanState)
      returns (lone: bool)
    requires Scalars(s) && i <= |s| && !l.strict && ParseMembers(s, i, d, l, acc).Ok?
    requires Outside(st) && st.best >= st.depth + MembersDepth(acc)
    ensures var p := ParseMembers(s, i, d, l, acc);
      && p.value.Object?
      && (CleanMembers(p.value.members) <==> CleanMembers(acc) && !lone)
      && InStep(s, i, p.next, st, Deeper(st, MembersDepth(p.value.members)).(depth := st.depth - 1), lone)
    decreases |s| - i, 5
  {
    hide ParseMember, ParseSeparator, Put, CleanMembers, InStep;
    var p := ParseMembers(s, i, d, l, acc);
    var one := ParseMember(s, i, d, l, acc);
    var mem, n := one.value, one.next;
    var next := Put(acc, mem.key, mem.val);
    var dirty := !(CleanText(mem.key) && Clean(mem.val));
    PutClean(acc, mem);
    PutMembers(acc, mem.key, mem.val);
    StepMember(s, i, d, l, acc, st);
    var st1 := Deeper(st, Depth(mem.val));
    var sep := ParseSeparator(s, n, RBRACE);
    StepSeparator(s, n, RBRACE, st1);
    if sep.value {
      StepJoin(s, i, n, sep.next, st, st1, st1, dirty, false);
      var rest := StepMembers(s, sep.next, d, l, next, st1);
      lone := dirty || rest;
      MembersGrow(s, sep.next, d, l, next);
      StepJoin(s, i, sep.next, p.next, st, st1, Deeper(st, MembersDepth(p.value.members)).(depth := st.depth - 1),
               dirty, rest);
    } else {
      lone := dirty;
      StepJoin(s, i, n, sep.next, st, st1, st1.(depth := st.depth - 1), dirty, false);
    }
  }

  lemma {:induction false} StepArray(s: Text, i: nat, d: nat, l: Mode, st: ScanState)
    requires Scalars(s) && i < |s| && s[i] == LBRACKET && !l.strict && Outside(st) && ParseArray(s, i, d, l).Ok?
    ensures var p := ParseArray(s, i, d, l);
      InStep(s, i, p.next, st, Deeper(st, Depth(p.value)), !Clean(p.value))
    decreases |s| - i, 2
  {
    hide ParseItems, SkipWs, InStep;
    var j := SkipWs(s, i + 1);
    var p := ParseArray(s, i, d, l);
    var inner := ScanStep(st, LBRACKET);
    StepOne(s, i, st);
    StepWs(s, i + 1, inner);
    StepJoin(s, i, i + 1, j, st, inner, inner, false, false);
    if j < |s| && s[j] == RBRACKET {
      StepOne(s, j, inner);
      StepJoin(s, i, j, j + 1, st, inner, Deeper(st, 1), false, false);
    } else {
      ItemsGrow(s, j, d, l, []);
      var lone := StepItems(s, j, d, l, [], inner);
      StepJoin(s, i, j, p.next, st, inner, Deeper(st, Depth(p.value)), false, lone);
    }
  }

  lemma {:induction false} StepItems(s: Text, i: nat, d: nat, l: Mode, acc: seq<Json>, st: ScanState)
      returns (lone: bool)
    requires Scalars(s) && i <= |s| && !l.strict && ParseItems(s, i, d, l, acc).Ok?
    requires Outside(st) && st.best >= st.depth + ItemsDepth(acc)
    ensures var p := ParseItems(s, i, d, l, acc);
      && p.value.Array?
      && (CleanItems(p.value.items) <==> CleanItems(acc) && !lone)
      && InStep(s, i, p.next, st, Deeper(st, ItemsDepth(p.value.items)).(depth := st.depth - 1), lone)
    decreases |s| - i, 5
  {
    hide ParseValue, ParseSeparator, InStep;
    var p := ParseItems(s, i, d, l, acc);
    var v, n := ParseValue(s, i, d, l).value, ParseValue(s, i, d, l).next;
    ItemsDepthAppend(acc, v);
    CleanItemsJoin(acc, [v]);
    assert CleanItems([v]) <==> Clean(v) by { assert [v][0] == v; }
    StepValue(s, i, d, l, st);
    var st1 := Deeper(st, Depth(v));
    var sep := ParseSeparator(s, n, RBRACKET);
    StepSeparator(s, n, RBRACKET, st1);
    if sep.value {
      StepJoin(s, i, n, sep.next, st, st1, st1, !Clean(v), false);
      var rest := StepItems(s, sep.next, d, l, acc + [v], st1);
      lone := !Clean(v) || rest;
      ItemsGrow(s, sep.next, d, l, acc + [v]);
      StepJoin(s, i, sep.next, p.next, st, st1, Deeper(st, ItemsDepth(p.value.items)).(depth := st.depth - 1),
               !Clean(v), rest);
    } else {
      lone := !Clean(v);
      StepJoin(s, i, n, sep.next, st, st1, st1.(depth := st.depth - 1), !Clean(v), false);
    }
  }

  // ---- the three readers -----------------------------------------------------------------------

  /** The value json.rs reads from the text, if it accepts it. */
  function Accepted(text: Text): (r: Option<Json>)
  {
    match ParseText(text, RUST_MODE)
    case Ok(v, _) => Some(v)
    case Err(_) => None
  }

  /** The lenient reader with no nesting bound that could ever bite: no text nests deeper than its length. */
  function Lenient(text: Text): (r: Parsed<Json>) { ParseText(text, Mode(|text|, false)) }

  /** Both scans are exact on every text the lenient reader accepts. */
  lemma ScansAreExact(s: Text, l: Mode)
    requires Scalars(s) && !l.strict && ParseText(s, l).Ok?
    ensures ScanTo(s, 0, |s|, SCAN_START).best == Depth(ParseText(s, l).value)
    ensures LoneFrom(s, 0) <==> !Clean(ParseText(s, l).value)
  {
    var p := ParseValue(s, 0, 0, l);
    StepValue(s, 0, 0, l, SCAN_START);
    var after := Deeper(SCAN_START, Depth(p.value));
    StepWs(s, p.next, after);
    StepJoin(s, 0, p.next, |s|, SCAN_START, after, after, !Clean(p.value), false);
  }

  lemma {:induction false} BestBelowLength(s: Text, i: nat, st: ScanState)
    requires i <= |s| && st.depth <= st.best <= i
    ensures ScanTo(s, i, |s|, st).best <= |s|
    decreases |s| - i
  {
    if i < |s| { BestBelowLength(s, i + 1, ScanStep(st, s[i])); }
  }

  /** A text some lenient reader accepts, whatever its bound, is accepted by `Lenient`. */
  lemma LenientIsUnbounded(s: Text, limit: nat)
    requires Scalars(s) && ParseText(s, Mode(limit, false)).Ok?
    ensures Lenient(s) == ParseText(s, Mode(limit, false))
  {
    ScansAreExact(s, Mode(limit, false));
    BestBelowLength(s, 0, SCAN_START);
    RelaxValue(s, 0, 0, Mode(limit, false), Mode(|s|, false));
  }

  /** On a text the lenient reader accepts within the bound, the strict reader accepts the same value, or
      stops at an unpaired surrogate exactly when the linear scan finds one. */
  lemma StrictAfterLenient(s: Text)
    requires Scalars(s) && Lenient(s).Ok? && Depth(Lenient(s).value) <= MAX_JSON_DEPTH
    ensures ParseText(s, RUST_MODE) == if LoneFrom(s, 0) then Err(LoneSurrogate) else Lenient(s)
  {
    ScansAreExact(s, Mode(|s|, false));
    StrictValue(s, 0, 0, Mode(|s|, false), RUST_MODE);
  }

  lemma LenientAfterStrict(s: Text)
    requires Scalars(s) && ParseText(s, RUST_MODE).Ok?
    ensures Lenient(s) == ParseText(s, RUST_MODE)
    ensures Depth(Lenient(s).value) <= MAX_JSON_DEPTH
  {
    AcceptedIsProfile(s, RUST_MODE);
    var v := ParseText(s, RUST_MODE).value;
    RelaxValue(s, 0, 0, RUST_MODE, Mode(Depth(v), false));
    LenientIsUnbounded(s, Depth(v));
  }

  /** The agreement of the readers: the bounded strict reader accepts a text if and only if the lenient
      one does, the scanned depth is within the bound, and no unpaired surrogate is found, whether it is
      looked for in the text or in the value. The value is the same. */
  lemma ReadersAgree(s: Text)
    requires Scalars(s)
    ensures Accepted(s) ==
      if ScanTo(s, 0, |s|, SCAN_START).best <= MAX_JSON_DEPTH && !LoneFrom(s, 0) && Lenient(s).Ok?
      then Some(Lenient(s).value) else None
    ensures Accepted(s) ==
      if ScanTo(s, 0, |s|, SCAN_START).best <= MAX_JSON_DEPTH && Lenient(s).Ok? && Clean(Lenient(s).value)
      then Some(Lenient(s).value) else None
  {
    if Lenient(s).Ok? { ScansAreExact(s, Mode(|s|, false)); }
    if ParseText(s, RUST_MODE).Ok? {
      LenientAfterStrict(s);
      if LoneFrom(s, 0) { StrictAfterLenient(s); }
    } else if Lenient(s).Ok? && Depth(Lenient(s).value) <= MAX_JSON_DEPTH {
      StrictAfterLenient(s);
    }
  }

  /** canonical.go `Parse`: both scans on the text, then the decoder. */
  method ParseGo(text: Text) returns (r: Option<Json>)
    requires Scalars(text)
    ensures r == Accepted(text)
  {
    ReadersAgree(text);
    var d := NestingDepth(text);
    if d > MAX_JSON_DEPTH { return None; }
    var lone := HasLoneSurrogate(text);
    if lone { return None; }
    var p := Lenient(text);
    return if p.Ok? then Some(p.value) else None;
  }

  /** ledger.py `parse_line`: the depth scan, the decoder, then the walk over the value. */
  method ParseLine(text: Text) returns (r: Option<Json>)
    requires Scalars(text)
    ensures r == Accepted(text)
  {
    ReadersAgree(text);
    var d := NestingDepth(text);
    if d > MAX_JSON_DEPTH { return None; }
    var p := Lenient(text);
    if p.Err? { return None; }
    var lone := ValueHasLoneSurrogate(p.value);
    return if lone then None else Some(p.value);
  }

  // ---- wherever the strict reader stops at a surrogate, the scan finds it ------------------------

  lemma LoneUnit(s: Text, i: nat, m: Mode)
    requires Scalars(s) && i < |s| && m.strict && StringUnit(s, i, m) == Fail(LoneSurrogate)
    ensures LoneFrom(s, i)
  {
    hide Hex4, GoHex4;
    HexAgrees(s, i + 2);
    if EscapeU(s, i + 6) && Hex4(s, i + 8).Some? { HexAgrees(s, i + 8); }
  }

  /** A unit, string or value read strictly leaves the rest of the scan's answer to what follows. */
  lemma UnitPasses(s: Text, i: nat, m: Mode)
    requires Scalars(s) && i < |s| && m.strict && !StringUnit(s, i, m).Fail?
    ensures LoneFrom(s, i) == LoneFrom(s, StringUnit(s, i, m).next)
  {
    hide StringUnit;
    var l := Mode(m.limit, false);
    RelaxUnit(s, i, m, l);
    UnitIsScalar(s, i, m);
    StepUnit(s, i, l, SCAN_START.(inStr := true));
  }

  lemma {:induction false} LoneChars(s: Text, i: nat, out: Text, m: Mode)
    requires Scalars(s) && i <= |s| && m.strict && ParseChars(s, i, out, m) == Err(LoneSurrogate)
    ensures LoneFrom(s, i)
    decreases |s| - i
  {
    hide StringUnit, LoneFrom;
    if StringUnit(s, i, m).Fail? {
      LoneUnit(s, i, m);
    } else {
      UnitPasses(s, i, m);
      match StringUnit(s, i, m) {
        case Push(c, n) => LoneChars(s, n, out + [c], m);
        case _ =>
      }
    }
  }

  lemma LoneWs(s: Text, i: nat)
    requires i <= |s|
    ensures LoneFrom(s, i) == LoneFrom(s, SkipWs(s, i))
  {
    StepWs(s, i, SCAN_START);
  }

  lemma LoneString(s: Text, i: nat, m: Mode)
    requires Scalars(s) && i <= |s| && m.strict
    ensures ParseString(s, i, m) == Err(LoneSurrogate) ==> LoneFrom(s, i)
    ensures ParseString(s, i, m).Ok? ==> LoneFrom(s, i) == LoneFrom(s, ParseString(s, i, m).next)
  {
    if i < |s| && s[i] == QUOTE {
      if ParseString(s, i, m) == Err(LoneSurrogate) { LoneChars(s, i + 1, [], m); }
      if ParseString(s, i, m).Ok? {
        var l := Mode(m.limit, false);
        RelaxString(s, i, m, l);
        StringIsScalars(s, i, m);
        StepString(s, i, l, SCAN_START);
      }
    }
  }

  lemma ScalarsAreClean(v: Json)
    requires Profile(v)
    ensures Clean(v)
  {}

  lemma ValuePasses(s: Text, i: nat, d: nat, m: Mode)
    requires Scalars(s) && i <= |s| && m.strict && d <= m.limit && ParseValue(s, i, d, m).Ok?
    ensures LoneFrom(s, i) == LoneFrom(s, ParseValue(s, i, d, m).next)
  {
    hide ParseValue, LoneFrom;
    var l := Mode(m.limit, false);
    ValueFits(s, i, d, m);
    RelaxValue(s, i, d, m, l);
    ScalarsAreClean(ParseValue(s, i, d, m).value);
    StepValue(s, i, d, l, SCAN_START);
  }

  lemma SeparatorPasses(s: Text, i: nat, close: int)
    requires i <= |s| && (close == RBRACE || close == RBRACKET)
    ensures ParseSeparator(s, i, close) != Err(LoneSurrogate)
    ensures ParseSeparator(s, i, close).Ok? ==> LoneFrom(s, i) == LoneFrom(s, ParseSeparator(s, i, close).next)
  {
    StepSeparator(s, i, close, SCAN_START);
  }

  lemma {:induction false} LoneValue(s: Text, i: nat, d: nat, m: Mode)
    requires Scalars(s) && i <= |s| && m.strict && d <= m.limit && ParseValue(s, i, d, m) == Err(LoneSurrogate)
    ensures LoneFrom(s, i)
    decreases |s| - i, 3
  {
    hide ParseString, ParseObject, ParseArray, SkipWs, LoneFrom;
    var j := SkipWs(s, i);
    LoneWs(s, i);
    if s[j] == LBRACE {
      LoneObject(s, j, d + 1, m);
    } else if s[j] == LBRACKET {
      LoneArray(s, j, d + 1, m);
    } else if s[j] == QUOTE {
      LoneString(s, j, m);
    }
  }

  lemma {:induction false} LoneObject(s: Text, i: nat, d: nat, m: Mode)
    requires Scalars(s) && i < |s| && s[i] == LBRACE && m.strict && d <= m.limit
      && ParseObject(s, i, d, m) == Err(LoneSurrogate)
    ensures LoneFrom(s, i)
    decreases |s| - i, 2
  {
    hide ParseMembers, SkipWs;
    LoneWs(s, i + 1);
    LoneMembers(s, SkipWs(s, i + 1), d, m, []);
  }

  lemma {:induction false} LoneMember(s: Text, i: nat, d: nat, m: Mode, acc: seq<Member>)
    requires Scalars(s) && i <= |s| && m.strict && d <= m.limit
    ensures ParseMember(s, i, d, m, acc) == Err(LoneSurrogate) ==> LoneFrom(s, i)
    ensures ParseMember(s, i, d, m, acc).Ok? ==> LoneFrom(s, i) == LoneFrom(s, ParseMember(s, i, d, m, acc).next)
    decreases |s| - i, 4
  {
    hide ParseString, ParseValue, SkipWs, Has, LoneFrom;
    var a := SkipWs(s, i);
    LoneWs(s, i);
    LoneString(s, a, m);
    match ParseString(s, a, m) {
      case Err(_) =>
      case Ok(k, n) =>
        LoneWs(s, n);
        var b := SkipWs(s, n);
        if b < |s| && s[b] == COLON {
          StepOne(s, b, SCAN_START);
          match ParseValue(s, b + 1, d, m) {
            case Ok(v, _) => ValuePasses(s, b + 1, d, m);
            case Err(e) => if e == LoneSurrogate { LoneValue(s, b + 1, d, m); }
          }
        }
    }
  }

  lemma {:induction false} LoneMembers(s: Text, i: nat, d: nat, m: Mode, acc: seq<Member>)
    requires Scalars(s) && i <= |s| && m.strict && d <= m.limit && ParseMembers(s, i, d, m, acc) == Err(LoneSurrogate)
    ensures LoneFrom(s, i)
    decreases |s| - i, 5
  {
    hide ParseMember, ParseSeparator, Put, LoneFrom;
    LoneMember(s, i, d, m, acc);
    match ParseMember(s, i, d, m, acc) {
      case Err(_) =>
      case Ok(mem, n) =>
        SeparatorPasses(s, n, RBRACE);
        var sep := ParseSeparator(s, n, RBRACE);
        if sep.Ok? && sep.value { LoneMembers(s, sep.next, d, m, Put(acc, mem.key, mem.val)); }
    }
  }

  lemma {:induction false} LoneArray(s: Text, i: nat, d: nat, m: Mode)
    requires Scalars(s) && i < |s| && s[i] == LBRACKET && m.strict && d <= m.limit
      && ParseArray(s, i, d, m) == Err(LoneSurrogate)
    ensures LoneFrom(s, i)
    decreases |s| - i, 2
  {
    hide ParseItems, SkipWs;
    LoneWs(s, i + 1);
    LoneItems(s, SkipWs(s, i + 1), d, m, []);
  }

  lemma {:induction false} LoneItems(s: Text, i: nat, d: nat, m: Mode, acc: seq<Json>)
    requires Scalars(s) && i <= |s| && m.strict && d <= m.limit && ParseItems(s, i, d, m, acc) == Err(LoneSurrogate)
    ensures LoneFrom(s, i)
    decreases |s| - i, 5
  {
    hide ParseValue, ParseSeparator, LoneFrom;
    match ParseValue(s, i, d, m) {
      case Err(_) => LoneValue(s, i, d, m);
      case Ok(v, n) =>
        ValuePasses(s, i, d, m);
        SeparatorPasses(s, n, RBRACKET);
        var sep := ParseSeparator(s, n, RBRACKET);
        if sep.Ok? && sep.value { LoneItems(s, sep.next, d, m, acc + [v]); }
    }
  }

  /** Whatever else is wrong with the text: where json.rs reports an unpaired surrogate, the scan has one. */
  lemma SurrogateErrorIsFound(s: Text)
    requires Scalars(s) && ParseText(s, RUST_MODE) == Err(LoneSurrogate)
    ensures LoneFrom(s, 0)
  {
    LoneValue(s, 0, 0, RUST_MODE);
  }
}
