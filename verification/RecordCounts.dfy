/** cra_evidence/locker.py: the counts a pack declares, how many records of each kind its ledger holds. */
module RecordCounts {
  import opened Texts
  import opened JsonValues
  import opened Chain
  import opened Tip
  import opened TipCheck
  import opened PackSpec
  import opened Producer
  import LedgerEntries
  import PackHost

  /** The kind of a record: a text that is not empty. */
  function KindOf(e: Json): (r: Option<Text>)
  {
    var k := StrAt(DataOf(e), KIND());
    if k.Some? && k.value != [] then k else None
  }

  function Amount(ms: seq<Member>, k: Text): (r: int)
  {
    var v := Get(ms, k);
    if v.Some? && v.value.Int? then v.value.n else 0
  }

  /** `counts[k] = counts.get(k, 0) + 1`. */
  function Bumped(ms: seq<Member>, k: Text): (r: seq<Member>) { Put(Without(ms, k), k, Int(Amount(ms, k) + 1)) }

  function KindCounts(es: seq<Json>): (r: seq<Member>)
  {
    if es == [] then []
    else
      var before, k := KindCounts(es[..|es| - 1]), KindOf(es[|es| - 1]);
      if k.None? then before else Bumped(before, k.value)
  }

  function Occurrences(es: seq<Json>, k: Text): (r: nat)
  {
    if es == [] then 0 else Occurrences(es[..|es| - 1], k) + (if KindOf(es[|es| - 1]) == Some(k) then 1 else 0)
  }

  lemma {:induction false} GetWithout(ms: seq<Member>, drop: Text, k: Text)
    requires k != drop
    ensures Get(Without(ms, drop), k) == Get(ms, k)
  {
    if ms != [] { GetWithout(ms[1..], drop, k); }
  }

  lemma GetBumped(ms: seq<Member>, k: Text, x: Text)
    ensures Get(Bumped(ms, k), x) == if x == k then Some(Int(Amount(ms, k) + 1)) else Get(ms, x)
  {
    hide Put, Without, Get;
    GetPut(Without(ms, k), k, Int(Amount(ms, k) + 1), x);
    if x != k { GetWithout(ms, k, x); }
  }

  /** The counts are exact: a kind that occurs has its number of occurrences, and no other has an entry. */
  lemma {:induction false} CountsExactly(es: seq<Json>, k: Text)
    ensures Get(KindCounts(es), k) == if Occurrences(es, k) == 0 then None else Some(Int(Occurrences(es, k)))
  {
    hide KindOf, Bumped, Get;
    if es == [] {
      EmptyHasNone(k);
    } else {
      var before, kind := es[..|es| - 1], KindOf(es[|es| - 1]);
      CountsExactly(before, k);
      if kind.Some? { GetBumped(KindCounts(before), kind.value, k); }
    }
  }

  lemma EmptyHasNone(k: Text)
    ensures Get([], k) == None
  {}

  /** The entry is a record of this kind: its data says so, by a text that is not empty. */
  ghost predicate OfKind(e: Json, k: Text)
  {
    e.Object? && k != []
    && exists d :: Get(e.members, Lit("data")) == Some(Object(d)) && Get(d, Lit("kind")) == Some(Str(k))
  }

  lemma KindMeans(e: Json, k: Text)
    ensures KindOf(e) == Some(k) <==> OfKind(e, k)
  {
    hide Lit, Get;
    DataNames();
    NoData();
    if KindOf(e) == Some(k) {
      assert e.Object?;
      assert Get(e.members, Lit("data")) == Some(Object(DataOf(e)));
    }
  }

  lemma DataNames()
    ensures LedgerEntries.DATA() == Lit("data") && KIND() == Lit("kind")
  {}

  lemma NoData()
    ensures forall k :: Get([], k) == None
  {}

  /** The places of the records of a kind. */
  ghost function PlacesOf(es: seq<Json>, k: Text): (r: set<nat>) { set i: nat | i < |es| && OfKind(es[i], k) }

  lemma {:induction false} OccurrencesAre(es: seq<Json>, k: Text)
    ensures Occurrences(es, k) == |PlacesOf(es, k)|
  {
    hide KindOf, OfKind;
    if es == [] {
      assert PlacesOf(es, k) == {};
    } else {
      var n := |es| - 1;
      var less := es[..n];
      OccurrencesAre(less, k);
      KindMeans(es[n], k);
      assert forall i: nat :: i < n ==> less[i] == es[i];
      assert PlacesOf(es, k) == PlacesOf(less, k) + if OfKind(es[n], k) then {n} else {};
    }
  }

  /** Under each kind the number of its records, and under no other text anything. */
  lemma CountsMean(es: seq<Json>, k: Text)
    ensures Get(KindCounts(es), k) == if PlacesOf(es, k) == {} then None else Some(Int(|PlacesOf(es, k)|))
  {
    hide Get, PlacesOf;
    CountsExactly(es, k);
    OccurrencesAre(es, k);
  }

  /** What the counts are as a value: a map in key order from scalar texts to integers. */
  ghost predicate FlatCounts(ms: seq<Member>)
  {
    Sorted(ms) && forall i :: 0 <= i < |ms| ==> Scalars(ms[i].key) && ms[i].val.Int?
  }

  lemma BumpedFlat(ms: seq<Member>, k: Text)
    requires FlatCounts(ms) && Scalars(k)
    ensures FlatCounts(Bumped(ms, k))
  {
    hide Put, Without, Get, Less, Scalars;
    var less := Without(ms, k);
    var more := Bumped(ms, k);
    assert !Has(less, k) by {
      forall i | 0 <= i < |less| ensures less[i].key != k { assert less[i] in less; }
    }
    PutSorted(less, k, Int(Amount(ms, k) + 1));
    PutMembers(less, k, Int(Amount(ms, k) + 1));
    forall i | 0 <= i < |more| ensures Scalars(more[i].key) && more[i].val.Int? {
      assert more[i] in more;
      if more[i] in less { assert more[i] in ms; }
    }
  }

  lemma {:induction false} CountsFlat(es: seq<Json>)
    requires Profiles(es)
    ensures FlatCounts(KindCounts(es))
  {
    hide KindOf, Bumped, FlatCounts, Profile, Depth;
    if es == [] {
      NoCounts();
    } else {
      var before, kind := es[..|es| - 1], KindOf(es[|es| - 1]);
      CountsFlat(before);
      if kind.Some? {
        KindIsScalar(es[|es| - 1]);
        BumpedFlat(KindCounts(before), kind.value);
      }
    }
  }

  lemma NoCounts()
    ensures FlatCounts([])
  {}

  lemma KindIsScalar(e: Json)
    requires Profile(e) && KindOf(e).Some?
    ensures Scalars(KindOf(e).value)
  {
    hide Profile, Get, KIND, Scalars;
    DataProfile(e);
    PackHost.TextProfile(DataOf(e), KIND());
  }

  /** The loop over the ledger. */
  method CountKinds(es: seq<Json>) returns (counts: seq<Member>)
    ensures counts == KindCounts(es)
  {
    hide KindOf, Bumped;
    counts := [];
    for i := 0 to |es|
      invariant counts == KindCounts(es[..i])
    {
      assert es[..i + 1][..i] == es[..i] && es[..i + 1][i] == es[i];
      var k := KindOf(es[i]);
      if k.Some? { counts := Bumped(counts, k.value); }
    }
    assert es[..|es|] == es;
  }
}
