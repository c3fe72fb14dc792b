/** What canonical.py refuses to encode: `_refuse_floats`, the guard of every digest the writer computes. */
module Refusal {
  import opened Texts
  import opened JsonValues

  /** A value a Python caller can hold: any integers, any code points, dictionaries with distinct keys. */
  ghost predicate WellFormed(v: Json)
  {
    match v
    case Str(s) => CodePoints(s)
    case Array(items) => forall k :: 0 <= k < |items| ==> WellFormed(items[k])
    case Object(ms) => Sorted(ms) && forall k :: 0 <= k < |ms| ==> CodePoints(ms[k].key) && WellFormed(ms[k].val)
    case _ => true
  }

  predicate CodePoints(t: Text) { forall k :: 0 <= k < |t| ==> 0 <= t[k] <= 0x10FFFF }

  predicate HasSurrogate(t: Text) { exists k :: 0 <= k < |t| && IsSurrogate(t[k]) }

  /** The recursion of `_refuse_floats`: every node is visited at its level, keys and leaves included. */
  predicate Refuses(v: Json, depth: nat)
  {
    depth > MAX_JSON_DEPTH ||
    match v
    case Int(n) => n < -MAX_SAFE_INT || n > MAX_SAFE_INT
    case Str(s) => HasSurrogate(s)
    case Array(items) => exists k :: 0 <= k < |items| && Refuses(items[k], depth + 1)
    case Object(ms) => exists k :: 0 <= k < |ms| && (RefusesKey(ms[k].key, depth + 1) || Refuses(ms[k].val, depth + 1))
    case _ => false
  }

  predicate RefusesKey(k: Text, depth: nat) { depth > MAX_JSON_DEPTH || HasSurrogate(k) }

  /** The deepest level below v that is visited: an empty container is visited, but has nothing below it. */
  function Reach(v: Json): (r: nat)
  {
    match v
    case Array(items) => if items == [] then 0 else 1 + ItemsReach(items)
    case Object(ms) => if ms == [] then 0 else 1 + MembersReach(ms)
    case _ => 0
  }

  function ItemsReach(items: seq<Json>): (r: nat)
  {
    if items == [] then 0 else Max(Reach(items[0]), ItemsReach(items[1..]))
  }

  function MembersReach(ms: seq<Member>): (r: nat)
  {
    if ms == [] then 0 else Max(Reach(ms[0].val), MembersReach(ms[1..]))
  }

  lemma {:induction false} ItemsReachWithin(items: seq<Json>, bound: int)
    requires bound >= 0
    ensures ItemsReach(items) <= bound <==> forall k :: 0 <= k < |items| ==> Reach(items[k]) <= bound
  {
    if items != [] {
      ItemsReachWithin(items[1..], bound);
      assert items == [items[0]] + items[1..];
    }
  }

  lemma {:induction false} MembersReachWithin(ms: seq<Member>, bound: int)
    requires bound >= 0
    ensures MembersReach(ms) <= bound <==> forall k :: 0 <= k < |ms| ==> Reach(ms[k].val) <= bound
  {
    if ms != [] {
      MembersReachWithin(ms[1..], bound);
      assert ms == [ms[0]] + ms[1..];
    }
  }

  /** The guard passes exactly the values of the profile whose visited levels stay within the bound. */
  lemma {:induction false} RefusesExactly(v: Json, depth: nat)
    requires WellFormed(v)
    ensures Refuses(v, depth) <==> !Profile(v) || depth + Reach(v) > MAX_JSON_DEPTH
    decreases v
  {
    match v {
      case Str(s) => SurrogateOrScalar(s);
      case Array(items) =>
        forall k | 0 <= k < |items| ensures Refuses(items[k], depth + 1) <==>
          !Profile(items[k]) || depth + 1 + Reach(items[k]) > MAX_JSON_DEPTH {
          RefusesExactly(items[k], depth + 1);
        }
        RefusesArray(items, depth);
      case Object(ms) =>
        forall k | 0 <= k < |ms|
          ensures Refuses(ms[k].val, depth + 1) <==>
            !Profile(ms[k].val) || depth + 1 + Reach(ms[k].val) > MAX_JSON_DEPTH
        {
          RefusesExactly(ms[k].val, depth + 1);
        }
        RefusesObject(ms, depth);
      case _ =>
    }
  }

  lemma SurrogateOrScalar(s: Text)
    requires CodePoints(s)
    ensures Scalars(s) <==> !HasSurrogate(s)
  {
    if !HasSurrogate(s) {
      forall k | 0 <= k < |s| ensures IsScalar(s[k]) {}
    }
  }

  lemma RefusesArray(items: seq<Json>, depth: nat)
    requires forall k :: 0 <= k < |items| ==>
      (Refuses(items[k], depth + 1) <==> !Profile(items[k]) || depth + 1 + Reach(items[k]) > MAX_JSON_DEPTH)
    ensures Refuses(Array(items), depth) <==> !Profile(Array(items)) || depth + Reach(Array(items)) > MAX_JSON_DEPTH
  {
    if items != [] && depth < MAX_JSON_DEPTH { ItemsReachWithin(items, MAX_JSON_DEPTH - depth - 1); }
    if items != [] { assert Refuses(items[0], depth + 1) || depth + 1 <= MAX_JSON_DEPTH; }
  }

  lemma RefusesObject(ms: seq<Member>, depth: nat)
    requires Sorted(ms) && forall k :: 0 <= k < |ms| ==> CodePoints(ms[k].key)
    requires forall k :: 0 <= k < |ms| ==>
      (Refuses(ms[k].val, depth + 1) <==> !Profile(ms[k].val) || depth + 1 + Reach(ms[k].val) > MAX_JSON_DEPTH)
    ensures Refuses(Object(ms), depth) <==> !Profile(Object(ms)) || depth + Reach(Object(ms)) > MAX_JSON_DEPTH
  {
    hide HasSurrogate, Scalars, CodePoints;
    forall k | 0 <= k < |ms| ensures RefusesKey(ms[k].key, depth + 1) <==>
      depth + 1 > MAX_JSON_DEPTH || !Scalars(ms[k].key) {
      SurrogateOrScalar(ms[k].key);
    }
    if ms != [] && depth < MAX_JSON_DEPTH { MembersReachWithin(ms, MAX_JSON_DEPTH - depth - 1); }
    if ms != [] { assert RefusesKey(ms[0].key, depth + 1) || depth + 1 <= MAX_JSON_DEPTH; }
  }

  /** Reach and nesting depth differ only where the deepest container is empty. */
  lemma {:induction false} ReachNearDepth(v: Json)
    ensures Reach(v) <= Depth(v) <= Reach(v) + 1
  {
    match v {
      case Array(items) => ItemsNearDepth(items);
      case Object(ms) => MembersNearDepth(ms);
      case _ =>
    }
  }

  lemma {:induction false} ItemsNearDepth(items: seq<Json>)
    ensures ItemsReach(items) <= ItemsDepth(items) <= ItemsReach(items) + 1
  {
    if items != [] {
      ReachNearDepth(items[0]);
      ItemsNearDepth(items[1..]);
    }
  }

  lemma {:induction false} MembersNearDepth(ms: seq<Member>)
    ensures MembersReach(ms) <= MembersDepth(ms) <= MembersReach(ms) + 1
  {
    if ms != [] {
      ReachNearDepth(ms[0].val);
      MembersNearDepth(ms[1..]);
    }
  }

  function Nested(n: nat): (v: Json)
    ensures WellFormed(v) && Profile(v)
  {
    if n == 0 then Array([]) else Array([Nested(n - 1)])
  }

  lemma OneItem(v: Json)
    ensures ItemsDepth([v]) == Depth(v) && ItemsReach([v]) == Reach(v)
  {
    assert [v][1..] == [];
  }

  lemma {:induction false} NestedLevels(n: nat)
    ensures Depth(Nested(n)) == n + 1 && Reach(Nested(n)) == n
  {
    if n > 0 {
      NestedLevels(n - 1);
      OneItem(Nested(n - 1));
    }
  }

  /** The guard alone is not the readers' bound: it lets through a value that nests one level too deep. Only
      the scan of the finished line in `Ledger.append` closes that gap. */
  lemma GuardMissesEmptyContainer()
    ensures !Refuses(Nested(MAX_JSON_DEPTH), 0) && Depth(Nested(MAX_JSON_DEPTH)) == MAX_JSON_DEPTH + 1
  {
    NestedLevels(MAX_JSON_DEPTH);
    RefusesExactly(Nested(MAX_JSON_DEPTH), 0);
  }
}
