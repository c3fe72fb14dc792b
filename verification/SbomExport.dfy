/** cra_evidence/sbom.py `to_cyclonedx_min`: the references of an export and its dependency graph. */
module SbomExport {
  import opened Texts
  import opened JsonGrammar
  import opened JsonPrinter
  import JsonRoundTrip

  /** What the export reads of a component. */
  datatype Component = Component(name: Text, version: Text, purl: Text)

  const HASH := 35
  const AT_SIGN := 64

  // ---- references ----------------------------------------------------------------------------------

  function BaseRef(c: Component): (r: Text)
  {
    if c.purl != [] then c.purl else c.name + [AT_SIGN] + c.version
  }

  /** `f"{base}#{n}"`. */
  function Numbered(base: Text, n: nat): (r: Text) { base + [HASH] + DecimalText(n) }

  lemma NumberedDistinct(base: Text, n: nat, m: nat)
    requires Numbered(base, n) == Numbered(base, m)
    ensures n == m
  {
    var p := base + [HASH];
    assert (p + DecimalText(n))[|p|..] == DecimalText(n) && (p + DecimalText(m))[|p|..] == DecimalText(m);
    JsonRoundTrip.DecimalRound(n);
    JsonRoundTrip.DecimalRound(m);
  }

  /** The candidates tried so far: the base, and the numbers from 2 to n. */
  ghost predicate Tried(base: Text, n: nat, tried: set<Text>)
  {
    base in tried && forall t :: t in tried <==> t == base || exists k :: 2 <= k <= n && t == Numbered(base, k)
  }

  lemma NextIsNew(base: Text, n: nat, tried: set<Text>)
    requires Tried(base, n, tried) && n >= 1
    ensures Numbered(base, n + 1) !in tried && Tried(base, n + 1, tried + {Numbered(base, n + 1)})
  {
    hide DecimalText;
    var next := Numbered(base, n + 1);
    assert |next| > |base|;
    forall k | 2 <= k <= n ensures next != Numbered(base, k) {
      if next == Numbered(base, k) { NumberedDistinct(base, n + 1, k); }
    }
    forall t ensures t in tried + {next} <==> t == base || exists k :: 2 <= k <= n + 1 && t == Numbered(base, k) {
      if t == next { assert 2 <= n + 1 <= n + 1 && t == Numbered(base, n + 1); }
    }
  }

  /** The reference a component gets: the first candidate that is not in use. */
  ghost predicate FirstFree(c: Component, used: set<Text>, ref: Text)
  {
    var base := BaseRef(c);
    && ref !in used
    && (ref == base
        || (base in used
            && exists k: nat :: k >= 2 && ref == Numbered(base, k) && forall j :: 2 <= j < k ==>
              Numbered(base, j) in used))
  }

  /** The renaming loop of one component: it ends because every candidate is new and the references in use are
      finitely many. */
  method FreshRef(c: Component, used: set<Text>) returns (ref: Text)
    ensures FirstFree(c, used, ref) && ref !in used
  {
    hide Numbered, BaseRef;
    ref := BaseRef(c);
    var base, n := ref, 1;
    ghost var tried := {base};
    while ref in used
      invariant n >= 1 && Tried(base, n, tried) && ref in tried && tried - {ref} <= used
      invariant ref == base || (n >= 2 && ref == Numbered(base, n))
      invariant n >= 2 ==> base in used && forall j :: 2 <= j < n ==> Numbered(base, j) in used
      decreases |used - (tried - {ref})|
    {
      NextIsNew(base, n, tried);
      Shrinks(used, tried, ref);
      n := n + 1;
      ref := Numbered(base, n);
      assert (tried + {ref}) - {ref} == tried;
      tried := tried + {ref};
    }
  }

  lemma Shrinks(used: set<Text>, tried: set<Text>, ref: Text)
    requires ref in used && ref in tried
    ensures |used - tried| < |used - (tried - {ref})|
  {
    assert used - tried == (used - (tried - {ref})) - {ref};
  }

  function Elements(refs: seq<Text>): (used: set<Text>) { set r | r in refs }

  lemma ElementsMore(refs: seq<Text>, ref: Text)
    ensures Elements(refs + [ref]) == Elements(refs) + {ref}
  {
    assert forall r :: r in refs + [ref] <==> r in refs || r == ref;
  }

  /** Each component has the first candidate that no component before it has. */
  ghost predicate Assigned(comps: seq<Component>, refs: seq<Text>)
  {
    |refs| <= |comps| && forall i :: 0 <= i < |refs| ==> FirstFree(comps[i], Elements(refs[..i]), refs[i])
  }

  /** The references of the components, in order: pairwise distinct. */
  method References(comps: seq<Component>) returns (refs: seq<Text>, used: set<Text>)
    ensures |refs| == |comps| && Assigned(comps, refs) && Distinct(refs) && used == Elements(refs)
  {
    hide FirstFree;
    refs, used := [], {};
    for i := 0 to |comps|
      invariant |refs| == i && Assigned(comps, refs) && Distinct(refs) && used == Elements(refs)
    {
      var ref := FreshRef(comps[i], used);
      used := used + {ref};
      assert forall j :: 0 <= j <= i ==> (refs + [ref])[..j] == refs[..j];
      assert refs[..i] == refs;
      ElementsMore(refs, ref);
      refs := refs + [ref];
    }
  }

  function PRODUCT_SUFFIX(): (r: Text) { Lit("#product") }

  function Suffixed(base: Text, n: nat): (r: Text) { if n == 0 then base else Suffixed(base, n - 1) + PRODUCT_SUFFIX() }

  ghost predicate FirstSuffixed(base: Text, used: set<Text>, ref: Text)
  {
    ref !in used && exists n: nat :: ref == Suffixed(base, n) && forall j :: 0 <= j < n ==> Suffixed(base, j) in used
  }

  /** The reference of the product: a suffix is added until it is not in use. It ends because it only grows. */
  method PrimaryRef(id: Text, version: Text, used: set<Text>) returns (ref: Text)
    ensures FirstSuffixed(id + [AT_SIGN] + version, used, ref)
  {
    ref := id + [AT_SIGN] + version;
    ghost var n := 0;
    while ref in used
      invariant ref == Suffixed(id + [AT_SIGN] + version, n)
      invariant forall j :: 0 <= j < n ==> Suffixed(id + [AT_SIGN] + version, j) in used
      decreases |(set u | u in used && |u| >= |ref|)|
    {
      var next := ref + PRODUCT_SUFFIX();
      Longer(used, ref, next);
      ref, n := next, n + 1;
    }
  }

  lemma Longer(used: set<Text>, ref: Text, next: Text)
    requires ref in used && |next| > |ref|
    ensures |(set u | u in used && |u| >= |next|)| < |(set u | u in used && |u| >= |ref|)|
  {
    var a, b := (set u | u in used && |u| >= |next|), (set u | u in used && |u| >= |ref|);
    assert a <= b - {ref};
    Subset(a, b - {ref});
  }

  lemma {:induction false} Subset(a: set<Text>, b: set<Text>)
    requires a <= b
    ensures |a| <= |b|
    decreases a
  {
    if a != {} {
      var x :| x in a;
      Subset(a - {x}, b - {x});
    }
  }

  // ---- the graph -----------------------------------------------------------------------------------

  type Edge = (Text, Text)

  /** `ref_of`: the reference of each normalised name (a later component wins), and the product's under "". */
  function RefOf(keys: seq<Text>, refs: seq<Text>, primary: Text): (r: map<Text, Text>)
    requires |keys| == |refs|
  {
    NamesOf(keys, refs)[[] := primary]
  }

  function NamesOf(keys: seq<Text>, refs: seq<Text>): (m: map<Text, Text>)
    requires |keys| == |refs|
    ensures forall k :: k in m ==> m[k] in refs
  {
    if keys == [] then map[]
    else
      var less := NamesOf(keys[..|keys| - 1], refs[..|refs| - 1]);
      less[keys[|keys| - 1] := refs[|refs| - 1]]
  }

  /** The texts of references, and whose they are: by a component's own locator, or its name and version; the number or
      suffix of a candidate; and, of components of one name, the last. */
  lemma ReferencesMean(c: Component, base: Text, n: nat, keys: seq<Text>, refs: seq<Text>, primary: Text, i: nat)
    requires |keys| == |refs|
    ensures BaseRef(c) == if c.purl == [] then c.name + Lit("@") + c.version else c.purl
    ensures Numbered(base, n) == base + Lit("#") + DecimalText(n)
    ensures Suffixed(base, 0) == base && Suffixed(base, n + 1) == Suffixed(base, n) + Lit("#product")
    ensures var m := RefOf(keys, refs, primary);
      && m[[]] == primary && m.Keys == {[]} + (set k | k in keys)
      && (i < |keys| && keys[i] != [] && (forall j :: i < j < |keys| ==> keys[j] != keys[i]) ==> m[keys[i]] == refs[i])
  {
    hide DecimalText;
    assert Lit("@") == [AT_SIGN] && Lit("#") == [HASH];
    LastOfName(keys, refs, i);
  }

  lemma {:induction false} LastOfName(keys: seq<Text>, refs: seq<Text>, i: nat)
    requires |keys| == |refs|
    ensures NamesOf(keys, refs).Keys == set k | k in keys
    ensures i < |keys| && (forall j :: i < j < |keys| ==> keys[j] != keys[i]) ==>
      NamesOf(keys, refs)[keys[i]] == refs[i]
  {
    if keys != [] {
      var less := keys[..|keys| - 1];
      LastOfName(less, refs[..|refs| - 1], i);
      assert keys == less + [keys[|keys| - 1]];
      assert forall k :: k in keys <==> k in less || k == keys[|keys| - 1];
      if i < |less| { assert keys[i] in less; }
      if i < |keys| { assert keys[i] in keys; }
    }
  }

  /** The reference stands for the parent of the edge. */
  ghost predicate From(refOf: map<Text, Text>, e: Edge, r: Text) { e.0 in refOf && refOf[e.0] == r }

  /** The requirements of this reference were read: the product, or a component the record says was walked. */
  ghost predicate Known(refOf: map<Text, Text>, primary: Text, read: seq<Text>, r: Text)
  {
    r == primary || exists k :: k in read && k in refOf && refOf[k] == r
  }

  /** A recorded child of the reference is not exported. */
  ghost predicate MissesChild(refOf: map<Text, Text>, edges: seq<Edge>, r: Text)
  {
    exists e :: e in edges && From(refOf, e, r) && e.1 !in refOf
  }

  /** The recorded child of the reference is exported as this one. */
  ghost predicate HasChild(refOf: map<Text, Text>, edges: seq<Edge>, r: Text, child: Text)
  {
    exists e :: e in edges && From(refOf, e, r) && e.1 in refOf && refOf[e.1] == child
  }

  /** The edge records that the reference needs this child. */
  ghost predicate Gives(refOf: map<Text, Text>, e: Edge, r: Text, child: Text)
  {
    From(refOf, e, r) && e.1 in refOf && refOf[e.1] == child
  }

  /** The children of a reference come in the order they are first recorded in. */
  ghost predicate InEdgeOrder(refOf: map<Text, Text>, edges: seq<Edge>, r: Text, children: seq<Text>)
  {
    forall i, j :: 0 <= i < j < |children| ==> FirstBefore(refOf, edges, r, children[i], children[j])
  }

  /** Some edge gives the one child, and none up to there gives the other. */
  ghost predicate FirstBefore(refOf: map<Text, Text>, edges: seq<Edge>, r: Text, child: Text, later: Text)
  {
    exists k :: 0 <= k < |edges| && Gives(refOf, edges[k], r, child)
      && forall l :: 0 <= l <= k ==> !Gives(refOf, edges[l], r, later)
  }

  lemma StillBefore(refOf: map<Text, Text>, edges: seq<Edge>, e: Edge, r: Text, children: seq<Text>)
    requires InEdgeOrder(refOf, edges, r, children)
    ensures InEdgeOrder(refOf, edges + [e], r, children)
  {
    hide Gives;
    var more := edges + [e];
    assert forall k :: 0 <= k < |edges| ==> more[k] == edges[k];
    forall i, j | 0 <= i < j < |children| ensures FirstBefore(refOf, more, r, children[i], children[j]) {
      var k :| 0 <= k < |edges| && Gives(refOf, edges[k], r, children[i])
        && forall l :: 0 <= l <= k ==> !Gives(refOf, edges[l], r, children[j]);
      assert Gives(refOf, more[k], r, children[i]);
    }
  }

  lemma NewLast(refOf: map<Text, Text>, edges: seq<Edge>, e: Edge, r: Text, children: seq<Text>, c: Text)
    requires InEdgeOrder(refOf, edges, r, children) && c !in children && Gives(refOf, e, r, c)
    requires forall x :: x in children <==> HasChild(refOf, edges, r, x)
    ensures InEdgeOrder(refOf, edges + [e], r, children + [c])
  {
    var more, all := edges + [e], children + [c];
    StillBefore(refOf, edges, e, r, children);
    assert forall k :: 0 <= k < |edges| ==> more[k] == edges[k];
    forall i, j | 0 <= i < j < |all| ensures FirstBefore(refOf, more, r, all[i], all[j]) {
      if j < |children| {
        assert FirstBefore(refOf, more, r, children[i], children[j]);
      } else {
        assert children[i] in children;
        var x :| x in edges && From(refOf, x, r) && x.1 in refOf && refOf[x.1] == children[i];
        var k :| 0 <= k < |edges| && edges[k] == x;
        assert Gives(refOf, more[k], r, all[i]);
        forall l | 0 <= l <= k ensures !Gives(refOf, more[l], r, c) { assert more[l] in edges; }
      }
    }
  }

  /** What the loop over the edges has built so far. */
  ghost predicate Built(refOf: map<Text, Text>, primary: Text, read: seq<Text>, edges: seq<Edge>,
                        deps: map<Text, seq<Text>>, incomplete: set<Text>)
  {
    && (forall r :: r in deps <==> Known(refOf, primary, read, r))
    && (forall r :: r in deps ==> Distinct(deps[r]) && forall c :: c in deps[r] <==> HasChild(refOf, edges, r, c))
    && (forall r :: r in deps ==> InEdgeOrder(refOf, edges, r, deps[r]))
    && (forall r :: r in incomplete <==> r in deps && MissesChild(refOf, edges, r))
  }

  /** `deps` with an empty list for the product and for every component whose requirements were read. */
  method StartLists(refOf: map<Text, Text>, primary: Text, read: seq<Text>) returns (deps: map<Text, seq<Text>>)
    ensures Built(refOf, primary, read, [], deps, {})
  {
    deps := map[primary := []];
    for i := 0 to |read|
      invariant forall r :: r in deps <==> Known(refOf, primary, read[..i], r)
      invariant forall r :: r in deps ==> deps[r] == []
    {
      var key := read[i];
      assert read[..i + 1] == read[..i] + [key];
      KnownMore(refOf, primary, read[..i], key);
      if key in refOf {
        if refOf[key] !in deps { deps := deps[refOf[key] := []]; }
      }
    }
    assert read[..|read|] == read;
  }

  lemma KnownMore(refOf: map<Text, Text>, primary: Text, read: seq<Text>, key: Text)
    ensures forall r :: Known(refOf, primary, read + [key], r) <==>
      Known(refOf, primary, read, r) || (key in refOf && refOf[key] == r)
  {
    forall r ensures Known(refOf, primary, read + [key], r) <==>
      Known(refOf, primary, read, r) || (key in refOf && refOf[key] == r) {
      if Known(refOf, primary, read, r) && r != primary {
        var k :| k in read && k in refOf && refOf[k] == r;
        assert k in read + [key];
      }
      if key in refOf && refOf[key] == r { assert key in read + [key]; }
    }
  }

  /** One more edge. */
  lemma EdgeMore(refOf: map<Text, Text>, edges: seq<Edge>, e: Edge, r: Text)
    ensures MissesChild(refOf, edges + [e], r) <==> MissesChild(refOf, edges, r) || (From(refOf, e, r) && e.1 !in refOf)
    ensures forall c :: HasChild(refOf, edges + [e], r, c) <==>
      HasChild(refOf, edges, r, c) || (From(refOf, e, r) && e.1 in refOf && refOf[e.1] == c)
  {
    hide From;
    var more := edges + [e];
    assert e in more;
    assert forall x :: x in more <==> x in edges || x == e;
  }

  method AddEdge(refOf: map<Text, Text>, primary: Text, read: seq<Text>, ghost edges: seq<Edge>, e: Edge,
                 deps: map<Text, seq<Text>>, incomplete: set<Text>)
      returns (deps': map<Text, seq<Text>>, incomplete': set<Text>)
    requires Built(refOf, primary, read, edges, deps, incomplete)
    ensures Built(refOf, primary, read, edges + [e], deps', incomplete')
  {
    hide Known, HasChild, MissesChild, InEdgeOrder;
    deps', incomplete' := deps, incomplete;
    forall r
      ensures MissesChild(refOf, edges + [e], r) <==>
        MissesChild(refOf, edges, r) || (From(refOf, e, r) && e.1 !in refOf)
      ensures forall c :: HasChild(refOf, edges + [e], r, c) <==>
        HasChild(refOf, edges, r, c) || (From(refOf, e, r) && e.1 in refOf && refOf[e.1] == c)
    {
      EdgeMore(refOf, edges, e, r);
    }
    forall r | r in deps ensures InEdgeOrder(refOf, edges + [e], r, deps[r]) {
      StillBefore(refOf, edges, e, r, deps[r]);
    }
    if e.0 !in refOf || refOf[e.0] !in deps { return; }
    var pr := refOf[e.0];
    if e.1 !in refOf {
      incomplete' := incomplete + {pr};
    } else if refOf[e.1] !in deps[pr] {
      NewLast(refOf, edges, e, pr, deps[pr], refOf[e.1]);
      deps' := deps[pr := deps[pr] + [refOf[e.1]]];
    }
  }

  /** The references with no list, in the order of the export. */
  function Without(refs: seq<Text>, deps: map<Text, seq<Text>>): (r: seq<Text>)
  {
    if refs == [] then [] else (if refs[0] in deps then [] else [refs[0]]) + Without(refs[1..], deps)
  }

  lemma {:induction false} WithoutExactly(refs: seq<Text>, deps: map<Text, seq<Text>>)
    ensures forall r :: r in Without(refs, deps) <==> r in refs && r !in deps
    ensures Distinct(refs) ==> Distinct(Without(refs, deps))
  {
    if refs != [] {
      WithoutExactly(refs[1..], deps);
      assert refs == [refs[0]] + refs[1..];
    }
  }

  /** The one text stands in the list before the other. */
  ghost predicate StandsBefore(list: seq<Text>, x: Text, y: Text)
  {
    exists p, q :: 0 <= p < q < |list| && list[p] == x && list[q] == y
  }

  /** The texts stand in the list in this order. */
  ghost predicate InOrderOf(list: seq<Text>, part: seq<Text>)
  {
    forall i, j :: 0 <= i < j < |part| ==> StandsBefore(list, part[i], part[j])
  }

  lemma {:induction false} WithoutInOrder(refs: seq<Text>, deps: map<Text, seq<Text>>)
    ensures InOrderOf(refs, Without(refs, deps))
  {
    hide StandsBefore;
    if refs != [] {
      var rest := Without(refs[1..], deps);
      WithoutInOrder(refs[1..], deps);
      WithoutExactly(refs[1..], deps);
      assert refs == [refs[0]] + refs[1..];
      forall x, y | StandsBefore(refs[1..], x, y) ensures StandsBefore(refs, x, y) { OneMoreInFront(refs, x, y); }
      if refs[0] !in deps {
        forall y | y in refs[1..] ensures StandsBefore(refs, refs[0], y) { FirstBeforeAll(refs, y); }
        PutInFront(refs, rest);
      }
    }
  }

  lemma PutInFront(list: seq<Text>, rest: seq<Text>)
    requires list != [] && InOrderOf(list, rest) && forall y :: y in rest ==> StandsBefore(list, list[0], y)
    ensures InOrderOf(list, [list[0]] + rest)
  {
    hide StandsBefore;
    var all := [list[0]] + rest;
    forall i, j | 0 <= i < j < |all| ensures StandsBefore(list, all[i], all[j]) {
      if i == 0 { assert rest[j - 1] in rest; }
    }
  }

  lemma OneMoreInFront(list: seq<Text>, x: Text, y: Text)
    requires list != [] && StandsBefore(list[1..], x, y)
    ensures StandsBefore(list, x, y)
  {
    var p, q :| 0 <= p < q < |list[1..]| && list[1..][p] == x && list[1..][q] == y;
    assert list[p + 1] == x && list[q + 1] == y;
  }

  lemma FirstBeforeAll(list: seq<Text>, y: Text)
    requires list != [] && y in list[1..]
    ensures StandsBefore(list, list[0], y)
  {
    var q :| 0 <= q < |list[1..]| && list[1..][q] == y;
    assert list[q + 1] == y;
  }

  /** A well-formed graph over the references: every list is that of a reference whose requirements were read and
      whose children are all exported, holds exactly those children, each once and in the order they are recorded in,
      and points to references; and the references without a list are declared unknown, in their own order. */
  ghost predicate WellFormedGraph(refOf: map<Text, Text>, primary: Text, refs: seq<Text>, read: seq<Text>,
                                  edges: seq<Edge>, deps: map<Text, seq<Text>>, unknown: seq<Text>)
  {
    var all := [primary] + refs;
    && (forall r :: r in deps <==> Known(refOf, primary, read, r) && !MissesChild(refOf, edges, r))
    && (forall r :: r in deps ==> r in all && Distinct(deps[r]) && InEdgeOrder(refOf, edges, r, deps[r]))
    && (forall r, c :: r in deps ==> (c in deps[r] <==> HasChild(refOf, edges, r, c)))
    && (forall r, c :: r in deps && c in deps[r] ==> c in all)
    && Distinct(unknown) && InOrderOf(all, unknown) && (forall r :: r in unknown <==> r in all && r !in deps)
  }

  /** The graph of `to_cyclonedx_min`, when edges are known. */
  method Graph(keys: seq<Text>, refs: seq<Text>, primary: Text, read: seq<Text>, edges: seq<Edge>)
      returns (deps: map<Text, seq<Text>>, unknown: seq<Text>)
    requires |keys| == |refs| && Distinct([primary] + refs)
    ensures WellFormedGraph(RefOf(keys, refs, primary), primary, refs, read, edges, deps, unknown)
  {
    hide Built, NamesOf;
    var refOf := RefOf(keys, refs, primary);
    deps := StartLists(refOf, primary, read);
    var incomplete: set<Text> := {};
    assert edges[..0] == [];
    for i := 0 to |edges|
      invariant Built(refOf, primary, read, edges[..i], deps, incomplete)
    {
      assert edges[..i + 1] == edges[..i] + [edges[i]];
      deps, incomplete := AddEdge(refOf, primary, read, edges[..i], edges[i], deps, incomplete);
    }
    assert edges[..|edges|] == edges;
    ghost var built := deps;
    deps := deps - incomplete;
    unknown := Without([primary] + refs, deps);
    WithoutExactly([primary] + refs, deps);
    WithoutInOrder([primary] + refs, deps);
    Finish(keys, refs, primary, read, edges, built, incomplete, deps, unknown);
  }

  lemma Finish(keys: seq<Text>, refs: seq<Text>, primary: Text, read: seq<Text>, edges: seq<Edge>,
               built: map<Text, seq<Text>>, incomplete: set<Text>, deps: map<Text, seq<Text>>, unknown: seq<Text>)
    requires |keys| == |refs| && Built(RefOf(keys, refs, primary), primary, read, edges, built, incomplete)
      && deps == built - incomplete
    requires Distinct(unknown) && InOrderOf([primary] + refs, unknown)
    requires forall r :: r in unknown <==> r in [primary] + refs && r !in deps
    ensures WellFormedGraph(RefOf(keys, refs, primary), primary, refs, read, edges, deps, unknown)
  {
    hide Distinct, MissesChild, From, InEdgeOrder, InOrderOf;
    var refOf := RefOf(keys, refs, primary);
    var all := [primary] + refs;
    assert forall k :: k in refOf ==> refOf[k] in all by { RefsInAll(keys, refs, primary); }
    assert primary in all;
  }

  lemma RefsInAll(keys: seq<Text>, refs: seq<Text>, primary: Text)
    requires |keys| == |refs|
    ensures var refOf := RefOf(keys, refs, primary); forall k :: k in refOf ==> refOf[k] in [primary] + refs
  {
    var refOf := RefOf(keys, refs, primary);
    assert primary in [primary] + refs;
    forall k | k in refOf ensures refOf[k] in [primary] + refs {
      if k != [] { assert NamesOf(keys, refs)[k] in refs; }
    }
  }

  /** The lists and the unknown references partition the references of the export, the product's included. */
  lemma ListsAndUnknownPartition(refOf: map<Text, Text>, primary: Text, refs: seq<Text>, read: seq<Text>,
                                 edges: seq<Edge>, deps: map<Text, seq<Text>>, unknown: seq<Text>, r: Text)
    requires WellFormedGraph(refOf, primary, refs, read, edges, deps, unknown)
    ensures r in [primary] + refs <==> r in deps || r in unknown
    ensures !(r in deps && r in unknown)
  {
    hide Known, MissesChild, HasChild, Distinct;
  }

  /** An export: references first, then the graph over them if edges are known. */
  method Export(comps: seq<Component>, keys: seq<Text>, id: Text, version: Text, read: seq<Text>, edges: seq<Edge>)
      returns (refs: seq<Text>, primary: Text, graph: Option<(map<Text, seq<Text>>, seq<Text>)>)
    requires |keys| == |comps|
    ensures |refs| == |comps| && Distinct([primary] + refs)
    ensures Assigned(comps, refs) && FirstSuffixed(id + [AT_SIGN] + version, Elements(refs), primary)
    ensures graph.Some? <==> edges != []
    ensures graph.Some? ==>
      WellFormedGraph(RefOf(keys, refs, primary), primary, refs, read, edges, graph.value.0, graph.value.1)
  {
    hide WellFormedGraph, RefOf, FirstFree;
    var used;
    refs, used := References(comps);
    primary := PrimaryRef(id, version, used);
    assert Distinct([primary] + refs) by {
      forall j | 0 <= j < |refs| ensures refs[j] != primary { assert refs[j] in used; }
    }
    if edges == [] { return refs, primary, None; }
    var deps, unknown := Graph(keys, refs, primary, read, edges);
    graph := Some((deps, unknown));
  }
}
