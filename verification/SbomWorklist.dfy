/** cra_evidence/sbom.py `sbom_from_installed`: the closure of the installed dependencies by a worklist. */
module SbomWorklist {
  import opened Texts

  /** A Requires-Dist line: the name it asks for, whether it belongs to an extra, and what its marker says here
      (None: it could not be evaluated). */
  datatype Requirement = Requirement(name: Text, extra: bool, applies: Option<bool>)

  /** The environment: the requirements of every installed distribution, by normalised name; and PEP 503
      normalisation. */
  datatype Env = Env(dists: map<Text, seq<Requirement>>, norm: Text -> Text)

  /** An edge from a parent key ("" for the product) to a child key. */
  type Edge = (Text, Text)

  predicate Kept(r: Requirement) { !r.extra && r.applies != Some(false) }

  /** The names a distribution asks for in this environment. */
  function Applicable(rs: seq<Requirement>): (r: seq<Text>)
  {
    if rs == [] then []
    else Applicable(rs[..|rs| - 1]) + if Kept(rs[|rs| - 1]) then [rs[|rs| - 1].name] else []
  }

  /** Kept although its marker can not be evaluated. */
  predicate Unevaluable(r: Requirement) { !r.extra && r.applies == None }

  /** How many such requirements there are. */
  function Unevaluated(rs: seq<Requirement>): (n: nat)
  {
    if rs == [] then 0 else Unevaluated(rs[..|rs| - 1]) + if Unevaluable(rs[|rs| - 1]) then 1 else 0
  }

  /** Their places. */
  ghost function OpenPlaces(rs: seq<Requirement>): (r: set<nat>) { set i: nat | i < |rs| && Unevaluable(rs[i]) }

  lemma {:induction false} UnevaluatedExactly(rs: seq<Requirement>)
    ensures Unevaluated(rs) == |OpenPlaces(rs)|
  {
    hide Unevaluable;
    if rs == [] {
      assert OpenPlaces(rs) == {};
    } else {
      var n := |rs| - 1;
      UnevaluatedExactly(rs[..n]);
      assert forall i: nat :: i < n ==> rs[..n][i] == rs[i];
      assert OpenPlaces(rs) == OpenPlaces(rs[..n]) + if Unevaluable(rs[n]) then {n} else {};
    }
  }

  /** Over the keys whose requirements were read. */
  function AllUnevaluated(env: Env, walked: seq<Text>): (n: nat)
  {
    if walked == [] then 0
    else
      var key := walked[|walked| - 1];
      AllUnevaluated(env, walked[..|walked| - 1]) + if key in env.dists then Unevaluated(env.dists[key]) else 0
  }

  /** The requirements loop: an extra or an inapplicable line is skipped, an unevaluable one is kept and counted. */
  method Collect(rs: seq<Requirement>) returns (names: seq<Text>, unevaluated: nat)
    ensures names == Applicable(rs) && unevaluated == Unevaluated(rs)
  {
    names, unevaluated := [], 0;
    for i := 0 to |rs|
      invariant names == Applicable(rs[..i]) && unevaluated == Unevaluated(rs[..i])
    {
      assert rs[..i + 1][..i] == rs[..i] && rs[..i + 1][i] == rs[i];
      if rs[i].extra { continue; }
      if rs[i].applies == Some(false) { continue; }
      if rs[i].applies == None { unevaluated := unevaluated + 1; }
      names := names + [rs[i].name];
    }
    assert rs[..|rs|] == rs;
  }

  lemma {:induction false} ApplicableExactly(rs: seq<Requirement>)
    ensures forall n :: n in Applicable(rs) <==> exists r :: r in rs && Kept(r) && r.name == n
  {
    if rs != [] {
      var less, last := rs[..|rs| - 1], rs[|rs| - 1];
      ApplicableExactly(less);
      assert rs == less + [last];
      forall n ensures n in Applicable(rs) <==> exists r :: r in rs && Kept(r) && r.name == n {
        if n in Applicable(less) {
          var r :| r in less && Kept(r) && r.name == n;
          assert r in rs;
        }
      }
    }
  }

  // ---- what the closure is -------------------------------------------------------------------------

  /** One of the names normalises to this key. */
  ghost predicate Asks(env: Env, names: seq<Text>, key: Text)
  {
    exists n :: n in names && env.norm(n) == key
  }

  /** The parent's distribution is installed and asks for the child. */
  ghost predicate Requires(env: Env, parent: Text, child: Text)
  {
    parent in env.dists && Asks(env, Applicable(env.dists[parent]), child)
  }

  /** A chain of requirements from the top level to the key. */
  ghost predicate Path(env: Env, top: seq<Text>, transitive: bool, p: seq<Text>)
  {
    && p != [] && Asks(env, top, p[0])
    && (|p| > 1 ==> transitive)
    && forall i :: 0 <= i < |p| - 1 ==> Requires(env, p[i], p[i + 1])
  }

  ghost predicate Reachable(env: Env, top: seq<Text>, transitive: bool, key: Text)
  {
    exists p :: Path(env, top, transitive, p) && p[|p| - 1] == key
  }

  /** The dependency is declared: by the product, or by a parent whose requirements were read. */
  ghost predicate Declared(env: Env, top: seq<Text>, walked: set<Text>, e: Edge)
  {
    (e.0 == [] && Asks(env, top, e.1)) || (e.0 in walked && Requires(env, e.0, e.1))
  }

  function KeySet(s: seq<Text>): (r: set<Text>) { set k | k in s }

  // ---- the worklist --------------------------------------------------------------------------------

  /** The dependency is recorded and its child looked at; or it still waits in the worklist. */
  ghost predicate Settled(env: Env, edges: seq<Edge>, seen: set<Text>, todo: seq<Edge>, e: Edge)
  {
    || ((e in edges || e.0 == e.1) && e.1 in seen)
    || exists t :: t in todo && t.0 == e.0 && env.norm(t.1) == e.1
  }

  /** The invariant of the loop. */
  ghost predicate Inv(env: Env, top: seq<Text>, transitive: bool, comps: map<Text, bool>, edges: seq<Edge>,
                      walked: seq<Text>, todo: seq<Edge>)
  {
    var w := KeySet(walked);
    && (forall k :: k in comps ==> Reachable(env, top, transitive, k) && comps[k] == (k in env.dists))
    && (forall k :: k in w <==> transitive && k in comps && k in env.dists)
    && (forall t :: t in todo ==> Declared(env, top, w, (t.0, env.norm(t.1))))
    && (forall e :: e in edges ==> Declared(env, top, w, e) && e.0 != e.1)
    && Distinct(edges)
    && (forall e: Edge :: Declared(env, top, w, e) ==> Settled(env, edges, comps.Keys, todo, e))
  }

  function Pairs(parent: Text, names: seq<Text>): (r: seq<Edge>)
    ensures |r| == |names| && forall i :: 0 <= i < |names| ==> r[i] == (parent, names[i])
  {
    seq(|names|, i requires 0 <= i < |names| => (parent, names[i]))
  }

  lemma Begins(env: Env, top: seq<Text>, transitive: bool)
    ensures Inv(env, top, transitive, map[], [], [], Pairs([], top))
  {
    var todo := Pairs([], top);
    forall e: Edge | Declared(env, top, {}, e) ensures Settled(env, [], {}, todo, e) {
      var n :| n in top && env.norm(n) == e.1;
      var i :| 0 <= i < |top| && top[i] == n;
      assert todo[i] == ([], n) && todo[i] in todo;
    }
  }

  /** What is declared is reachable, if the parents that were read are. */
  lemma DeclaredReachable(env: Env, top: seq<Text>, transitive: bool, walked: set<Text>, e: Edge)
    requires Declared(env, top, walked, e)
    requires forall k :: k in walked ==> transitive && Reachable(env, top, transitive, k)
    ensures Reachable(env, top, transitive, e.1)
  {
    if e.0 == [] && Asks(env, top, e.1) {
      assert Path(env, top, transitive, [e.1]);
    } else {
      var p :| Path(env, top, transitive, p) && p[|p| - 1] == e.0;
      var q := p + [e.1];
      assert forall i :: 0 <= i < |q| - 1 ==> Requires(env, q[i], q[i + 1]);
      assert Path(env, top, transitive, q) && q[|q| - 1] == e.1;
    }
  }

  /** The edges after an item has been taken: its own edge, once, and never a self-loop. */
  function WithEdge(edges: seq<Edge>, e: Edge): (r: seq<Edge>)
  {
    if e !in edges && e.0 != e.1 then edges + [e] else edges
  }

  /** What one turn leaves of the worklist and of the keys whose requirements were read. */
  function TodoAfter(env: Env, transitive: bool, comps: map<Text, bool>, rest: seq<Edge>, key: Text): (r: seq<Edge>)
  {
    if key !in comps && key in env.dists && transitive then rest + Pairs(key, Applicable(env.dists[key])) else rest
  }

  function WalkedAfter(env: Env, transitive: bool, comps: map<Text, bool>, walked: seq<Text>, key: Text): (r: seq<Text>)
  {
    if key !in comps && key in env.dists && transitive then walked + [key] else walked
  }

  function CompsAfter(env: Env, comps: map<Text, bool>, key: Text): (r: map<Text, bool>)
  {
    if key in comps then comps else comps[key := key in env.dists]
  }

  /** Nothing that was settled is lost, and what the new key declares waits in the worklist. */
  lemma StillSettled(env: Env, top: seq<Text>, transitive: bool, comps: map<Text, bool>, edges: seq<Edge>,
                     walked: seq<Text>, todo: seq<Edge>, e: Edge)
    requires Inv(env, top, transitive, comps, edges, walked, todo) && todo != []
    requires var key := env.norm(todo[0].1);
      Declared(env, top, KeySet(WalkedAfter(env, transitive, comps, walked, key)), e)
    ensures var key := env.norm(todo[0].1);
      Settled(env, WithEdge(edges, (todo[0].0, key)), CompsAfter(env, comps, key).Keys,
              TodoAfter(env, transitive, comps, todo[1..], key), e)
  {
    hide Requires, Applicable;
    var key, rest := env.norm(todo[0].1), todo[1..];
    var after := TodoAfter(env, transitive, comps, rest, key);
    var w := KeySet(walked);
    if Declared(env, top, w, e) {
      assert Settled(env, edges, comps.Keys, todo, e);
      if !((e in edges || e.0 == e.1) && e.1 in comps.Keys) {
        var t :| t in todo && t.0 == e.0 && env.norm(t.1) == e.1;
        if t != todo[0] {
          assert t in rest;
          assert t in after;
        }
      }
    } else {
      NewlyDeclared(env, key, e, rest);
    }
  }

  lemma NewlyDeclared(env: Env, key: Text, e: Edge, rest: seq<Edge>)
    requires e.0 == key && Requires(env, key, e.1)
    ensures exists t :: t in rest + Pairs(key, Applicable(env.dists[key])) && t.0 == e.0 && env.norm(t.1) == e.1
  {
    hide Applicable;
    var names := Applicable(env.dists[key]);
    var n :| n in names && env.norm(n) == e.1;
    var i :| 0 <= i < |names| && names[i] == n;
    var all := rest + Pairs(key, names);
    assert all[|rest| + i] == (key, n);
    assert (key, n) in all;
  }

  lemma WalkedGrows(env: Env, top: seq<Text>, small: set<Text>, large: set<Text>, e: Edge)
    requires small <= large && Declared(env, top, small, e)
    ensures Declared(env, top, large, e)
  {}

  /** Everything in the worklist is declared, before and after a turn. */
  lemma StillDeclared(env: Env, top: seq<Text>, transitive: bool, comps: map<Text, bool>, edges: seq<Edge>,
                      walked: seq<Text>, todo: seq<Edge>, t: Edge)
    requires Inv(env, top, transitive, comps, edges, walked, todo) && todo != []
    requires t in TodoAfter(env, transitive, comps, todo[1..], env.norm(todo[0].1))
    ensures Declared(env, top, KeySet(WalkedAfter(env, transitive, comps, walked, env.norm(todo[0].1))),
                     (t.0, env.norm(t.1)))
  {
    hide Applicable;
    var key, rest := env.norm(todo[0].1), todo[1..];
    var w, w' := KeySet(walked), KeySet(WalkedAfter(env, transitive, comps, walked, key));
    if t in rest {
      assert t in todo;
      WalkedGrows(env, top, w, w', (t.0, env.norm(t.1)));
    } else {
      var names := Applicable(env.dists[key]);
      var i :| 0 <= i < |names| && Pairs(key, names)[i] == t;
      assert key in WalkedAfter(env, transitive, comps, walked, key);
      assert t.1 in names;
    }
  }

  /** What has been seen is reachable, and its distributions are the ones whose requirements were read. */
  lemma StillReachable(env: Env, top: seq<Text>, transitive: bool, comps: map<Text, bool>, edges: seq<Edge>,
                       walked: seq<Text>, todo: seq<Edge>)
    requires Inv(env, top, transitive, comps, edges, walked, todo) && todo != []
    ensures var key := env.norm(todo[0].1); var c := CompsAfter(env, comps, key);
      && (forall k :: k in c ==> Reachable(env, top, transitive, k) && c[k] == (k in env.dists))
      && (forall k :: k in KeySet(WalkedAfter(env, transitive, comps, walked, key)) <==>
          transitive && k in c && k in env.dists)
      && Declared(env, top, KeySet(walked), (todo[0].0, key))
  {
    hide Declared, Settled, Reachable, Pairs, Applicable, Distinct;
    assert todo[0] in todo;
    DeclaredReachable(env, top, transitive, KeySet(walked), (todo[0].0, env.norm(todo[0].1)));
  }

  lemma Turn(env: Env, top: seq<Text>, transitive: bool, comps: map<Text, bool>, edges: seq<Edge>, walked: seq<Text>,
             todo: seq<Edge>)
    requires Inv(env, top, transitive, comps, edges, walked, todo) && todo != []
    ensures var key := env.norm(todo[0].1);
      Inv(env, top, transitive, CompsAfter(env, comps, key), WithEdge(edges, (todo[0].0, key)),
          WalkedAfter(env, transitive, comps, walked, key), TodoAfter(env, transitive, comps, todo[1..], key))
  {
    hide Declared, Settled, Reachable, Pairs, Applicable, CompsAfter, TodoAfter;
    var key, rest := env.norm(todo[0].1), todo[1..];
    var c', e', k', t' := CompsAfter(env, comps, key), WithEdge(edges, (todo[0].0, key)),
      WalkedAfter(env, transitive, comps, walked, key),
      TodoAfter(env, transitive, comps, rest, key);
    var w, w' := KeySet(walked), KeySet(k');
    StillReachable(env, top, transitive, comps, edges, walked, todo);
    forall t | t in t' ensures Declared(env, top, w', (t.0, env.norm(t.1))) {
      StillDeclared(env, top, transitive, comps, edges, walked, todo, t);
    }
    forall e | e in e' ensures Declared(env, top, w', e) && e.0 != e.1 {
      WalkedGrows(env, top, w, w', e);
    }
    forall e: Edge | Declared(env, top, w', e) ensures Settled(env, e', c'.Keys, t', e) {
      StillSettled(env, top, transitive, comps, edges, walked, todo, e);
    }
  }

  /** An empty worklist: what has been seen is closed under the requirements that were read. */
  lemma {:induction false} PathSeen(env: Env, top: seq<Text>, transitive: bool, comps: map<Text, bool>,
                                    edges: seq<Edge>, walked: seq<Text>, p: seq<Text>)
    requires Inv(env, top, transitive, comps, edges, walked, []) && Path(env, top, transitive, p)
    ensures p[|p| - 1] in comps
    decreases |p|
  {
    hide Requires, Reachable, Distinct;
    var w := KeySet(walked);
    var last := p[|p| - 1];
    if |p| == 1 {
      assert Declared(env, top, w, ([], last));
      assert Settled(env, edges, comps.Keys, [], ([], last));
    } else {
      var q := p[..|p| - 1];
      forall i | 0 <= i < |q| - 1 ensures Requires(env, q[i], q[i + 1]) { assert Requires(env, p[i], p[i + 1]); }
      assert Path(env, top, transitive, q);
      PathSeen(env, top, transitive, comps, edges, walked, q);
      var parent := p[|p| - 2];
      assert Requires(env, parent, p[|p| - 2 + 1]);
      RequiresInstalled(env, parent, last);
      assert Declared(env, top, w, (parent, last));
      assert Settled(env, edges, comps.Keys, [], (parent, last));
    }
  }

  lemma RequiresInstalled(env: Env, parent: Text, child: Text)
    requires Requires(env, parent, child)
    ensures parent in env.dists
  {}

  lemma ReachableSeen(env: Env, top: seq<Text>, transitive: bool, comps: map<Text, bool>, edges: seq<Edge>,
                      walked: seq<Text>, key: Text)
    requires Inv(env, top, transitive, comps, edges, walked, []) && Reachable(env, top, transitive, key)
    ensures key in comps
  {
    hide Inv, Requires;
    var p :| Path(env, top, transitive, p) && p[|p| - 1] == key;
    PathSeen(env, top, transitive, comps, edges, walked, p);
  }

  /** What the record of an environment says: its components are exactly the reachable names, installed or not, and
      its edges are exactly the declared dependencies of the product and of the parents that were read. */
  ghost predicate Closure(env: Env, top: seq<Text>, transitive: bool, comps: map<Text, bool>, edges: seq<Edge>,
                          walked: seq<Text>)
  {
    var w := KeySet(walked);
    && (forall k :: k in comps <==> Reachable(env, top, transitive, k))
    && (forall k :: k in comps ==> comps[k] == (k in env.dists))
    && (forall k :: k in walked <==> transitive && k in env.dists && Reachable(env, top, transitive, k))
    && (forall e: Edge :: e in edges <==> Declared(env, top, w, e) && e.0 != e.1)
    && Distinct(edges)
  }

  lemma Finished(env: Env, top: seq<Text>, transitive: bool, comps: map<Text, bool>, edges: seq<Edge>,
                 walked: seq<Text>)
    requires Inv(env, top, transitive, comps, edges, walked, [])
    ensures Closure(env, top, transitive, comps, edges, walked)
  {
    hide Path, Declared, Distinct, Reachable;
    var w := KeySet(walked);
    forall k ensures k in comps <==> Reachable(env, top, transitive, k) {
      if Reachable(env, top, transitive, k) { ReachableSeen(env, top, transitive, comps, edges, walked, k); }
    }
    forall k ensures k in walked <==> transitive && k in env.dists && Reachable(env, top, transitive, k) {
      assert k in walked <==> k in w;
    }
    forall e: Edge ensures e in edges <==> Declared(env, top, w, e) && e.0 != e.1 {
      if Declared(env, top, w, e) { assert Settled(env, edges, comps.Keys, [], e); }
    }
  }

  /** One key: the distribution is looked up, and its requirements are read if it is there. */
  method Read(env: Env, transitive: bool, comps: map<Text, bool>, walked: seq<Text>, rest: seq<Edge>, key: Text)
      returns (comps': map<Text, bool>, walked': seq<Text>, todo: seq<Edge>, unevaluated: nat)
    ensures comps' == CompsAfter(env, comps, key) && walked' == WalkedAfter(env, transitive, comps, walked, key)
    ensures todo == TodoAfter(env, transitive, comps, rest, key)
    ensures AllUnevaluated(env, walked') == AllUnevaluated(env, walked) + unevaluated
  {
    hide Applicable, Unevaluated;
    comps', walked', todo, unevaluated := comps, walked, rest, 0;
    if key in comps { return; }
    if key in env.dists {
      comps' := comps[key := true];
      if transitive {
        walked' := walked + [key];
        var names;
        names, unevaluated := Collect(env.dists[key]);
        assert walked'[..|walked|] == walked;
        todo := rest + Pairs(key, names);
      }
    } else {
      comps' := comps[key := false];
    }
  }

  // ---- the order -----------------------------------------------------------------------------------

  /** The parents of the edges, by rank: the product's edges first, then those of each key whose requirements were read,
      in the order these were read in. */
  ghost predicate Ranked(edges: seq<Edge>, walked: seq<Text>, ranks: seq<nat>)
  {
    && |ranks| == |edges|
    && (forall i :: 0 <= i < |ranks| ==> ranks[i] <= |walked|)
    && (forall i :: 0 <= i < |ranks| ==> edges[i].0 == if ranks[i] == 0 then [] else walked[ranks[i] - 1])
    && (forall i, j :: 0 <= i < j < |ranks| ==> ranks[i] <= ranks[j])
  }

  /** Breadth first. */
  ghost predicate BreadthFirst(edges: seq<Edge>, walked: seq<Text>) { exists ranks :: Ranked(edges, walked, ranks) }

  /** One turn keeps the order of what is recorded and of what waits behind it. */
  lemma StillRanked(env: Env, transitive: bool, comps: map<Text, bool>, edges: seq<Edge>, walked: seq<Text>,
                    todo: seq<Edge>)
    requires todo != [] && BreadthFirst(edges + todo, walked)
    ensures var key := env.norm(todo[0].1); var after := TodoAfter(env, transitive, comps, todo[1..], key);
      BreadthFirst(WithEdge(edges, (todo[0].0, key)) + after, WalkedAfter(env, transitive, comps, walked, key))
  {
    hide Applicable, BreadthFirst, Pairs;
    var key, rest := env.norm(todo[0].1), todo[1..];
    var kept := WithEdge(edges, (todo[0].0, key));
    OneTaken(edges, todo, walked, key);
    if TodoAfter(env, transitive, comps, rest, key) != rest {
      var more := Pairs(key, Applicable(env.dists[key]));
      assert (kept + rest) + more == kept + (rest + more);
      NewRead(kept + rest, walked, key);
      MoreRanks(kept + rest, more, walked + [key], key);
    } else if WalkedAfter(env, transitive, comps, walked, key) != walked {
      NewRead(kept + rest, walked, key);
    }
  }

  /** The first of the worklist is taken; its edge is recorded, or it is not. */
  lemma OneTaken(edges: seq<Edge>, todo: seq<Edge>, walked: seq<Text>, key: Text)
    requires todo != [] && BreadthFirst(edges + todo, walked)
    ensures BreadthFirst(WithEdge(edges, (todo[0].0, key)) + todo[1..], walked)
  {
    hide BreadthFirst;
    var rest, e := todo[1..], (todo[0].0, key);
    assert edges + todo == edges + [todo[0]] + rest;
    if WithEdge(edges, e) == edges {
      Dropped(edges, todo[0], rest, walked);
    } else {
      Replaced(edges, todo[0], e, rest, walked);
    }
  }

  lemma Dropped(a: seq<Edge>, x: Edge, b: seq<Edge>, walked: seq<Text>)
    requires BreadthFirst(a + [x] + b, walked)
    ensures BreadthFirst(a + b, walked)
  {
    var line := a + [x] + b;
    var ranks :| Ranked(line, walked, ranks);
    var fewer := ranks[..|a|] + ranks[|a| + 1..];
    forall i | 0 <= i < |fewer|
      ensures fewer[i] <= |walked| && (a + b)[i].0 == if fewer[i] == 0 then [] else walked[fewer[i] - 1]
    {
      var k := if i < |a| then i else i + 1;
      assert fewer[i] == ranks[k] && (a + b)[i] == line[k];
    }
    assert Ranked(a + b, walked, fewer);
  }

  lemma Replaced(a: seq<Edge>, x: Edge, y: Edge, b: seq<Edge>, walked: seq<Text>)
    requires BreadthFirst(a + [x] + b, walked) && x.0 == y.0
    ensures BreadthFirst(a + [y] + b, walked)
  {
    var ranks :| Ranked(a + [x] + b, walked, ranks);
    assert forall i :: 0 <= i < |ranks| ==> (a + [y] + b)[i].0 == (a + [x] + b)[i].0;
    assert Ranked(a + [y] + b, walked, ranks);
  }

  lemma NewRead(edges: seq<Edge>, walked: seq<Text>, key: Text)
    requires BreadthFirst(edges, walked)
    ensures BreadthFirst(edges, walked + [key])
  {
    var ranks :| Ranked(edges, walked, ranks);
    assert Ranked(edges, walked + [key], ranks);
  }

  lemma MoreRanks(edges: seq<Edge>, more: seq<Edge>, walked: seq<Text>, key: Text)
    requires BreadthFirst(edges, walked) && walked != [] && walked[|walked| - 1] == key
    requires forall i :: 0 <= i < |more| ==> more[i].0 == key
    ensures BreadthFirst(edges + more, walked)
  {
    var ranks :| Ranked(edges, walked, ranks);
    var last: nat := |walked|;
    var all := ranks + seq(|more|, i => last);
    assert Ranked(edges + more, walked, all);
  }

  lemma StartRanked(top: seq<Text>)
    ensures BreadthFirst([] + Pairs([], top), [])
  {
    var ranks: seq<nat> := seq(|top|, i => 0);
    assert Ranked([] + Pairs([], top), [], ranks);
  }

  /** The loop of `sbom_from_installed`. It ends on every environment, cycles included: a key is read once, and
      there are finitely many distributions. */
  method Walk(env: Env, top: seq<Text>, transitive: bool)
      returns (comps: map<Text, bool>, edges: seq<Edge>, walked: seq<Text>, unevaluated: nat)
    ensures Closure(env, top, transitive, comps, edges, walked) && BreadthFirst(edges, walked)
    ensures unevaluated == AllUnevaluated(env, walked)
  {
    hide Inv, Closure, Applicable, CompsAfter, WalkedAfter, TodoAfter, Pairs, BreadthFirst;
    comps, edges, walked, unevaluated := map[], [], [], 0;
    var todo := Pairs([], top);
    Begins(env, top, transitive);
    StartRanked(top);
    while todo != []
      invariant Inv(env, top, transitive, comps, edges, walked, todo) && BreadthFirst(edges + todo, walked)
      invariant unevaluated == AllUnevaluated(env, walked)
      decreases |env.dists.Keys - comps.Keys|, |todo|
    {
      Turn(env, top, transitive, comps, edges, walked, todo);
      StillRanked(env, transitive, comps, edges, walked, todo);
      var parent, name := todo[0].0, todo[0].1;
      var key := env.norm(name);
      Shrinks(env, transitive, comps, todo, key);
      if (parent, key) !in edges && parent != key { edges := edges + [(parent, key)]; }
      var more;
      comps, walked, todo, more := Read(env, transitive, comps, walked, todo[1..], key);
      unevaluated := unevaluated + more;
    }
    assert edges + [] == edges;
    Finished(env, top, transitive, comps, edges, walked);
  }

  /** A turn reads a distribution it had not read, or it only shortens the worklist. */
  lemma Shrinks(env: Env, transitive: bool, comps: map<Text, bool>, todo: seq<Edge>, key: Text)
    requires todo != []
    ensures var fewer, same := |env.dists.Keys - CompsAfter(env, comps, key).Keys|, |env.dists.Keys - comps.Keys|;
      fewer < same || (fewer == same && |TodoAfter(env, transitive, comps, todo[1..], key)| < |todo|)
  {
    hide Applicable, Pairs;
    assert |todo[1..]| < |todo|;
    if key !in comps {
      KeysAfter(env, comps, key);
      Fewer(env.dists.Keys, comps.Keys, key);
    }
  }

  lemma KeysAfter(env: Env, comps: map<Text, bool>, key: Text)
    requires key !in comps
    ensures CompsAfter(env, comps, key).Keys == comps.Keys + {key}
  {}

  lemma Fewer(all: set<Text>, seen: set<Text>, key: Text)
    ensures key in all && key !in seen ==> |all - (seen + {key})| < |all - seen|
    ensures key !in all ==> all - (seen + {key}) == all - seen
  {
    if key in all && key !in seen {
      assert all - (seen + {key}) == (all - seen) - {key};
    }
  }
}
