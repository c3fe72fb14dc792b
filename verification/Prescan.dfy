/** The linear scans that run before a recursive reader: bracket depth and unpaired surrogate escapes
    (verifiers/go/prescan.go, cra_evidence/canonical.py). */
module Prescan {
  import opened Texts
  import opened JsonValues
  import opened JsonGrammar

  // ---- bracket depth -------------------------------------------------------------------------

  datatype ScanState = Scan(depth: int, best: int, inStr: bool, esc: bool)

  function ScanStep(st: ScanState, c: int): (r: ScanState)
  {
    if st.inStr then
      if st.esc then st.(esc := false)
      else if c == BACKSLASH then st.(esc := true)
      else if c == QUOTE then st.(inStr := false)
      else st
    else if c == QUOTE then st.(inStr := true)
    else if c == LBRACKET || c == LBRACE then st.(depth := st.depth + 1, best := Max(st.best, st.depth + 1))
    else if c == RBRACKET || c == RBRACE then st.(depth := st.depth - 1)
    else st
  }

  /** The state after the characters i..j. */
  function ScanTo(s: Text, i: nat, j: nat, st: ScanState): (r: ScanState)
    requires i <= j <= |s|
    decreases j - i
  {
    if i == j then st else ScanTo(s, i + 1, j, ScanStep(st, s[i]))
  }

  const SCAN_START := Scan(0, 0, false, false)

  lemma {:induction false} ScanJoin(s: Text, i: nat, j: nat, k: nat, st: ScanState)
    requires i <= j <= k <= |s|
    ensures ScanTo(s, i, k, st) == ScanTo(s, j, k, ScanTo(s, i, j, st))
    decreases j - i
  {
    if i < j { ScanJoin(s, i + 1, j, k, ScanStep(st, s[i])); }
  }

  method NestingDepth(text: Text) returns (best: int)
    ensures best == ScanTo(text, 0, |text|, SCAN_START).best
  {
    var depth := 0;
    best := 0;
    var inStr, esc := false, false;
    for i := 0 to |text|
      invariant ScanTo(text, i, |text|, Scan(depth, best, inStr, esc)) == ScanTo(text, 0, |text|, SCAN_START)
    {
      var c := text[i];
      if inStr {
        if esc {
          esc := false;
        } else if c == BACKSLASH {
          esc := true;
        } else if c == QUOTE {
          inStr := false;
        }
      } else if c == QUOTE {
        inStr := true;
      } else if c == LBRACKET || c == LBRACE {
        depth := depth + 1;
        if depth > best { best := depth; }
      } else if c == RBRACKET || c == RBRACE {
        depth := depth - 1;
      }
    }
  }

  // ---- unpaired surrogates ---------------------------------------------------------------------

  /** strconv.ParseInt(text[i:i+4], 16, 32): a sign may stand in the place of the first digit. */
  function GoHex4(s: Text, i: nat): (r: Option<int>)
  {
    if i + 4 > |s| then None
    else if s[i] == 43 || s[i] == MINUS then
      if IsHexDigit(s[i + 1]) && IsHexDigit(s[i + 2]) && IsHexDigit(s[i + 3]) then
        var n := (HexDigit(s[i + 1]) * 16 + HexDigit(s[i + 2])) * 16 + HexDigit(s[i + 3]);
        Some(if s[i] == MINUS then -n else n)
      else None
    else Hex4(s, i)
  }

  /** One step of the scan from an unread position: an answer, or where to go on. */
  datatype LoneStep = Found | Skip(next: nat)

  function LoneAt(s: Text, i: nat): (r: LoneStep)
    requires i < |s|
    ensures r.Skip? ==> i < r.next
  {
    if s[i] != BACKSLASH then Skip(i + 1)
    else if i + 1 < |s| && s[i + 1] == LOWER_U && i + 5 < |s| then
      match GoHex4(s, i + 2)
      case None => Skip(i + 2)
      case Some(cp) =>
        if IsHigh(cp) then
          if i + 7 >= |s| || s[i + 6] != BACKSLASH || s[i + 7] != LOWER_U then Found
          else
            match GoHex4(s, i + 8)
            case None => Found
            case Some(lo) => if IsLow(lo) then Skip(i + 12) else Found
        else if IsLow(cp) then Found
        else Skip(i + 6)
    else Skip(i + 2)
  }

  predicate LoneFrom(s: Text, i: nat)
    decreases |s| - i
  {
    if i >= |s| then false
    else
      match LoneAt(s, i)
      case Found => true
      case Skip(n) => LoneFrom(s, n)
  }

  method HasLoneSurrogate(text: Text) returns (found: bool)
    ensures found == LoneFrom(text, 0)
  {
    var i, n := 0, |text|;
    while i < n
      invariant LoneFrom(text, i) == LoneFrom(text, 0)
      decreases n - i
    {
      if text[i] != BACKSLASH {
        i := i + 1;
        continue;
      }
      if i + 1 < n && text[i + 1] == LOWER_U && i + 5 < n {
        var cp := GoHex4(text, i + 2);
        if cp == None {
          i := i + 2;
          continue;
        }
        if IsHigh(cp.value) {
          if i + 7 >= n || text[i + 6] != BACKSLASH || text[i + 7] != LOWER_U { return true; }
          var lo := GoHex4(text, i + 8);
          if lo == None || !IsLow(lo.value) { return true; }
          i := i + 12;
          continue;
        }
        if IsLow(cp.value) { return true; }
        i := i + 6;
        continue;
      }
      i := i + 2;
    }
    return false;
  }

  // ---- the walk over a value -------------------------------------------------------------------

  predicate CleanText(t: Text) { forall k :: 0 <= k < |t| ==> !IsSurrogate(t[k]) }

  /** No key and no string of the value holds a surrogate code point. */
  predicate Clean(v: Json)
  {
    match v
    case Str(t) => CleanText(t)
    case Array(items) => forall k :: 0 <= k < |items| ==> Clean(items[k])
    case Object(ms) => CleanMembers(ms)
    case _ => true
  }

  predicate CleanMembers(ms: seq<Member>)
  {
    forall k :: 0 <= k < |ms| ==> CleanText(ms[k].key) && Clean(ms[k].val)
  }

  ghost function Weight(v: Json): (r: nat)
  {
    match v
    case Array(items) => 1 + ItemsWeight(items)
    case Object(ms) => 1 + MembersWeight(ms)
    case _ => 1
  }

  ghost function ItemsWeight(items: seq<Json>): (r: nat)
  {
    if items == [] then 0 else ItemsWeight(items[..|items| - 1]) + Weight(items[|items| - 1])
  }

  ghost function MembersWeight(ms: seq<Member>): (r: nat)
  {
    if ms == [] then 0 else MembersWeight(ms[..|ms| - 1]) + 1 + Weight(ms[|ms| - 1].val)
  }

  lemma {:induction false} ItemsWeightJoin(a: seq<Json>, b: seq<Json>)
    ensures ItemsWeight(a + b) == ItemsWeight(a) + ItemsWeight(b)
  {
    if b == [] {
      assert a + b == a;
    } else {
      assert (a + b)[..|a + b| - 1] == a + b[..|b| - 1];
      ItemsWeightJoin(a, b[..|b| - 1]);
    }
  }

  function KeysOf(ms: seq<Member>): (r: seq<Json>)
    ensures |r| == |ms| && forall k :: 0 <= k < |ms| ==> r[k] == Str(ms[k].key)
  {
    seq(|ms|, k requires 0 <= k < |ms| => Str(ms[k].key))
  }

  function ValuesOf(ms: seq<Member>): (r: seq<Json>)
    ensures |r| == |ms| && forall k :: 0 <= k < |ms| ==> r[k] == ms[k].val
  {
    seq(|ms|, k requires 0 <= k < |ms| => ms[k].val)
  }

  lemma {:induction false} MembersWeightSplit(ms: seq<Member>)
    ensures ItemsWeight(KeysOf(ms)) + ItemsWeight(ValuesOf(ms)) == MembersWeight(ms)
  {
    if ms != [] {
      var init := ms[..|ms| - 1];
      MembersWeightSplit(init);
      assert KeysOf(ms)[..|ms| - 1] == KeysOf(init);
      assert ValuesOf(ms)[..|ms| - 1] == ValuesOf(init);
    }
  }

  ghost predicate CleanItems(items: seq<Json>) { forall k :: 0 <= k < |items| ==> Clean(items[k]) }

  lemma CleanItemsJoin(a: seq<Json>, b: seq<Json>)
    ensures CleanItems(a + b) <==> CleanItems(a) && CleanItems(b)
  {
    if CleanItems(a + b) {
      forall k | 0 <= k < |a| ensures Clean(a[k]) { assert (a + b)[k] == a[k]; }
      forall k | 0 <= k < |b| ensures Clean(b[k]) { assert (a + b)[|a| + k] == b[k]; }
    }
  }

  lemma CleanMembersSplit(ms: seq<Member>)
    ensures CleanMembers(ms) <==> CleanItems(KeysOf(ms)) && CleanItems(ValuesOf(ms))
  {
    if CleanItems(KeysOf(ms)) && CleanItems(ValuesOf(ms)) {
      forall k | 0 <= k < |ms| ensures CleanText(ms[k].key) && Clean(ms[k].val) {
        assert Clean(KeysOf(ms)[k]) && Clean(ValuesOf(ms)[k]);
      }
    }
  }

  /** ledger.py `_has_lone_surrogate`: the walk over a parsed value with a stack of its own. */
  method ValueHasLoneSurrogate(v: Json) returns (found: bool)
    ensures found == !Clean(v)
  {
    var stack := [v];
    while stack != []
      invariant CleanItems(stack) <==> Clean(v)
      decreases ItemsWeight(stack)
    {
      var x, rest := stack[|stack| - 1], stack[..|stack| - 1];
      assert stack == rest + [x];
      assert ItemsWeight(stack) == ItemsWeight(rest) + Weight(x);
      assert Weight(x) >= 1;
      CleanItemsJoin(rest, [x]);
      assert CleanItems([x]) <==> Clean(x) by { assert [x][0] == x; }
      match x {
        case Str(t) =>
          if !CleanText(t) { return true; }
          stack := rest;
        case Object(ms) =>
          CleanItemsJoin(rest, KeysOf(ms));
          CleanItemsJoin(rest + KeysOf(ms), ValuesOf(ms));
          CleanMembersSplit(ms);
          ItemsWeightJoin(rest, KeysOf(ms));
          ItemsWeightJoin(rest + KeysOf(ms), ValuesOf(ms));
          MembersWeightSplit(ms);
          stack := rest + KeysOf(ms) + ValuesOf(ms);
        case Array(items) =>
          CleanItemsJoin(rest, items);
          ItemsWeightJoin(rest, items);
          stack := rest + items;
        case _ => stack := rest;
      }
    }
    return false;
  }
}
