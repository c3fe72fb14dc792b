/** The last self_hash of a ledger commits to the whole of it. */
module History {
  import opened Texts
  import opened JsonValues
  import opened JsonPrinter
  import opened JsonStructure
  import opened Chain

  lemma {:induction false} GetIn(ms: seq<Member>, k: Text)
    requires Sorted(ms)
    ensures forall m :: m in ms && m.key == k ==> Get(ms, k) == Some(m.val)
    ensures Get(ms, k).Some? ==> Member(k, Get(ms, k).value) in ms
  {
    if ms != [] {
      GetIn(ms[1..], k);
      LessIrreflexive(k);
      assert forall i :: 0 <= i < |ms[1..]| ==> ms[1..][i] == ms[i + 1];
      assert ms[0].key == k ==> forall m :: m in ms[1..] ==> m.key != k;
    }
  }

  /** A map is the same as another with the same members. */
  lemma {:induction false} SortedUnique(a: seq<Member>, b: seq<Member>)
    requires Sorted(a) && Sorted(b) && forall m :: m in a <==> m in b
    ensures a == b
  {
    assert b != [] ==> b[0] in b;
    if a != [] {
      assert a[0] in b && b[0] in a;
      SameHead(a, b);
      forall m ensures m in a[1..] <==> m in b[1..] {
        LessIrreflexive(a[0].key);
        assert m in a <==> m == a[0] || m in a[1..];
        assert m in b <==> m == b[0] || m in b[1..];
        assert forall i :: 0 <= i < |a[1..]| ==> a[1..][i] == a[i + 1];
        assert forall i :: 0 <= i < |b[1..]| ==> b[1..][i] == b[i + 1];
      }
      SortedUnique(a[1..], b[1..]);
    }
  }

  lemma SameHead(a: seq<Member>, b: seq<Member>)
    requires a != [] && b != [] && Sorted(a) && Sorted(b) && a[0] in b && b[0] in a
    ensures a[0] == b[0]
  {
    if a[0] != b[0] {
      LessTransitive(a[0].key, b[0].key, a[0].key);
      LessIrreflexive(a[0].key);
    }
  }

  lemma SameObject(a: seq<Member>, b: seq<Member>, k: Text)
    requires Sorted(a) && Sorted(b) && Without(a, k) == Without(b, k) && Get(a, k) == Get(b, k)
    ensures a == b
  {
    GetIn(a, k);
    GetIn(b, k);
    forall m ensures m in a <==> m in b {
      if m.key != k {
        assert m in a <==> m in Without(a, k);
        assert m in b <==> m in Without(b, k);
      } else {
        assert m in a ==> Get(a, k) == Some(m.val);
        assert m in b ==> Get(b, k) == Some(m.val);
        assert m == Member(k, m.val);
      }
    }
    SortedUnique(a, b);
  }

  lemma KeysDiffer()
    ensures IDX() != SELF() && PREV() != SELF()
  {
    assert |IDX()| == 3 && |PREV()| == 9 && |SELF()| == 9;
    assert PREV()[0] == 'p' as int && SELF()[0] == 's' as int;
  }

  /** Two entries with the same committed text and the same self_hash are the same entry. */
  lemma SamePayload(x: Json, y: Json)
    requires x.Object? && y.Object? && Profile(x) && Profile(y) && Payload(x) == Payload(y)
    requires Get(x.members, SELF()) == Get(y.members, SELF())
    ensures x == y
  {
    hide Print;
    CanonicalInjective(Object(Without(x.members, SELF())), Object(Without(y.members, SELF())));
    SameObject(x.members, y.members, SELF());
  }

  /** The places idx and prev_hash name are part of the committed text. */
  lemma PayloadPlaces(h: Hash, x: Json, y: Json, i: nat, j: nat, p: Text, q: Text)
    requires x.Object? && y.Object? && Profile(x) && Profile(y) && Payload(x) == Payload(y)
    requires Links(h, x, i, p) && Links(h, y, j, q)
    ensures i == j && p == q && x == y
  {
    KeysDiffer();
    SamePayload(x, y);
  }

  /** The two ledgers hold different committed texts with one digest, at these places. */
  ghost predicate Collision(h: Hash, a: seq<Json>, b: seq<Json>, i: nat, j: nat)
    requires Profiles(a) && Profiles(b)
  {
    i < |a| && j < |b| && Payload(a[i]) != Payload(b[j]) && Digest(h, Payload(a[i])) == Digest(h, Payload(b[j]))
  }

  /** Two chains that verify and end in the same self_hash are equal entry by entry, or a collision of the
      digest is exhibited from them. Their lengths are not assumed equal: idx is part of what is hashed. */
  lemma {:induction false} TipCommitsToHistory(h: Hash, a: seq<Json>, b: seq<Json>) returns (i: nat, j: nat)
    requires Profiles(a) && Profiles(b) && ChainOk(h, a) && ChainOk(h, b)
    requires PrevHash(a, |a|) == PrevHash(b, |b|)
    ensures a == b || Collision(h, a, b, i, j)
    decreases |a|
  {
    hide Links, Payload, SelfHash;
    var m, n := |a| - 1, |b| - 1;
    var x, y := a[m], b[n];
    assert LinkedAt(h, a, m) && LinkedAt(h, b, n);
    i, j := m, n;
    SelfHashIsDigest(h, x, m, PrevHash(a, m));
    SelfHashIsDigest(h, y, n, PrevHash(b, n));
    if Payload(x) == Payload(y) {
      PayloadPlaces(h, x, y, m, n, PrevHash(a, m), PrevHash(b, n));
      var a', b' := a[..m], b[..n];
      assert a == a' + [x] && b == b' + [y];
      if m > 0 {
        LinkedPrefix(h, a', a);
        LinkedPrefix(h, b', b);
        assert a'[m - 1] == a[m - 1] && b'[n - 1] == b[n - 1];
        i, j := TipCommitsToHistory(h, a', b');
      }
    }
  }

  lemma SelfHashIsDigest(h: Hash, e: Json, n: nat, prev: Text)
    requires Profile(e) && Links(h, e, n, prev)
    ensures SelfHash(e) == Digest(h, Payload(e))
  {}
}
