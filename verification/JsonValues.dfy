/** JSON values of the acceptance profile: no floats, and an object is a key-ordered map. */
module JsonValues {
  import opened Texts

  const MAX_SAFE_INT := 9_007_199_254_740_991
  const MAX_JSON_DEPTH := 512

  /** The members of an object stand in code-point order of their keys, as in a BTreeMap. */
  datatype Json =
    | Null
    | Bool(b: bool)
    | Int(n: int)
    | Str(s: Text)
    | Array(items: seq<Json>)
    | Object(members: seq<Member>)

  datatype Member = Member(key: Text, val: Json)

  ghost predicate Sorted(ms: seq<Member>)
  {
    forall i, j :: 0 <= i < j < |ms| ==> Less(ms[i].key, ms[j].key)
  }

  /** A value of the profile: portable integers, scalar strings, distinct ordered keys. */
  ghost predicate Profile(v: Json)
  {
    match v
    case Null => true
    case Bool(_) => true
    case Int(n) => -MAX_SAFE_INT <= n <= MAX_SAFE_INT
    case Str(s) => Scalars(s)
    case Array(items) => forall k :: 0 <= k < |items| ==> Profile(items[k])
    case Object(ms) =>
      Sorted(ms) && forall k :: 0 <= k < |ms| ==> Scalars(ms[k].key) && Profile(ms[k].val)
  }

  /** Nesting depth: scalars have depth 0, a container one more than its deepest child. */
  function Depth(v: Json): (r: nat)
  {
    match v
    case Array(items) => 1 + ItemsDepth(items)
    case Object(ms) => 1 + MembersDepth(ms)
    case _ => 0
  }

  function ItemsDepth(items: seq<Json>): (r: nat)
  {
    if items == [] then 0 else Max(Depth(items[0]), ItemsDepth(items[1..]))
  }

  function MembersDepth(ms: seq<Member>): (r: nat)
  {
    if ms == [] then 0 else Max(Depth(ms[0].val), MembersDepth(ms[1..]))
  }

  lemma {:induction false} ItemsDepthAppend(items: seq<Json>, v: Json)
    ensures ItemsDepth(items + [v]) == Max(ItemsDepth(items), Depth(v))
  {
    if items == [] {
      assert [v][1..] == [];
    } else {
      assert (items + [v])[1..] == items[1..] + [v];
      ItemsDepthAppend(items[1..], v);
    }
  }

  // ---- the ordered map -----------------------------------------------------------------------

  predicate Has(ms: seq<Member>, k: Text)
  {
    exists i :: 0 <= i < |ms| && ms[i].key == k
  }

  function Get(ms: seq<Member>, k: Text): (r: Option<Json>)
  {
    if ms == [] then None else if ms[0].key == k then Some(ms[0].val) else Get(ms[1..], k)
  }

  /** Insertion at the place the key order gives (the key is not there yet). */
  function Put(ms: seq<Member>, k: Text, v: Json): (r: seq<Member>)
  {
    if ms == [] then [Member(k, v)]
    else if Less(k, ms[0].key) then [Member(k, v)] + ms
    else [ms[0]] + Put(ms[1..], k, v)
  }

  function Without(ms: seq<Member>, k: Text): (r: seq<Member>)
    ensures forall m :: m in r <==> m in ms && m.key != k
    ensures Sorted(ms) ==> Sorted(r)
  {
    if ms == [] then [] else if ms[0].key == k then Without(ms[1..], k) else [ms[0]] + Without(ms[1..], k)
  }

  lemma {:induction false} PutMembers(ms: seq<Member>, k: Text, v: Json)
    ensures |Put(ms, k, v)| == |ms| + 1
    ensures forall m :: m in Put(ms, k, v) <==> m in ms || m == Member(k, v)
    ensures MembersDepth(Put(ms, k, v)) == Max(MembersDepth(ms), Depth(v))
  {
    if ms == [] {
    } else if Less(k, ms[0].key) {
      assert ([Member(k, v)] + ms)[1..] == ms;
    } else {
      PutMembers(ms[1..], k, v);
      assert ms == [ms[0]] + ms[1..];
      var rest := Put(ms[1..], k, v);
      assert ([ms[0]] + rest)[1..] == rest;
    }
  }

  lemma {:induction false} PutSorted(ms: seq<Member>, k: Text, v: Json)
    requires Sorted(ms) && !Has(ms, k)
    ensures Sorted(Put(ms, k, v))
  {
    if ms == [] {
    } else if Less(k, ms[0].key) {
      forall j | 0 <= j < |ms| ensures Less(k, ms[j].key) {
        if j > 0 { LessTransitive(k, ms[0].key, ms[j].key); }
      }
    } else {
      var rest := Put(ms[1..], k, v);
      assert forall i :: 0 <= i < |ms[1..]| ==> ms[1..][i] == ms[i + 1];
      assert !Has(ms[1..], k);
      PutSorted(ms[1..], k, v);
      PutMembers(ms[1..], k, v);
      LessTotal(k, ms[0].key);
      forall j | 0 <= j < |rest| ensures Less(ms[0].key, rest[j].key) {
        assert rest[j] in rest;
      }
    }
  }

  /** A key above every key of the map goes to the end: how a printed object is read back. */
  lemma {:induction false} PutLast(ms: seq<Member>, k: Text, v: Json)
    requires forall i :: 0 <= i < |ms| ==> Less(ms[i].key, k)
    ensures Put(ms, k, v) == ms + [Member(k, v)]
    ensures !Has(ms, k)
  {
    LessIrreflexive(k);
    if ms != [] {
      if Less(k, ms[0].key) { LessTransitive(k, ms[0].key, k); }
      PutLast(ms[1..], k, v);
      assert ms == [ms[0]] + ms[1..];
    }
  }
}
