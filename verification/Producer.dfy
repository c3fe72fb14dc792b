/** cra_evidence/locker.py: records bound to their content, and the evidence pack over a ledger. */
module Producer {
  import opened Texts
  import opened JsonValues
  import opened JsonGrammar
  import opened JsonPrinter
  import opened GoCanonical
  import opened Chain
  import opened LedgerEntries
  import opened Tip
  import opened PackHost
  import opened PackSpec
  import Utf8

  // ---- records -------------------------------------------------------------------------------------

  /** locker.py `_bind`: the record with the digest of its content. */
  function Bind(h3: Hash, d: seq<Member>): (r: seq<Member>)
    requires Profile(Object(d))
  {
    Put(d, RECORD_SHA3(), Str(Digest(h3, Canonical(Object(d)))))
  }

  lemma {:induction false} GetPut(ms: seq<Member>, k: Text, v: Json, x: Text)
    requires !Has(ms, k)
    ensures Get(Put(ms, k, v), x) == if x == k then Some(v) else Get(ms, x)
    ensures Without(Put(ms, k, v), k) == ms
  {
    if ms == [] {
      WithoutNone(ms, k);
    } else {
      assert ms[0].key != k;
      assert forall i :: 0 <= i < |ms[1..]| ==> ms[1..][i] == ms[i + 1];
      if Less(k, ms[0].key) {
        assert ([Member(k, v)] + ms)[1..] == ms;
        WithoutNone(ms, k);
        NotThere(ms, k);
      } else {
        GetPut(ms[1..], k, v, x);
        var rest := Put(ms[1..], k, v);
        assert ([ms[0]] + rest)[1..] == rest;
        assert ms == [ms[0]] + ms[1..];
      }
    }
  }

  lemma {:induction false} NotThere(ms: seq<Member>, k: Text)
    requires !Has(ms, k)
    ensures Get(ms, k) == None
  {
    if ms != [] {
      assert ms[0].key != k;
      assert forall i :: 0 <= i < |ms[1..]| ==> ms[1..][i] == ms[i + 1];
      NotThere(ms[1..], k);
    }
  }

  /** A bound record is a value of the profile, and the verifier recomputes the digest it carries. */
  lemma BindIsBound(h3: Hash, d: seq<Member>)
    requires Profile(Object(d)) && !Has(d, RECORD_SHA3())
    ensures Profile(Object(Bind(h3, d))) && Bound(h3, Bind(h3, d))
    ensures forall k :: k != RECORD_SHA3() ==> Get(Bind(h3, d), k) == Get(d, k)
  {
    hide RECORD_SHA3, Canonical, Less;
    var k := RECORD_SHA3();
    var sha := Str(Digest(h3, Canonical(Object(d))));
    assert Scalars(k) by { RecordKeyScalars(); }
    HexIsScalar(sha.s, 64);
    PutSorted(d, k, sha);
    PutMembers(d, k, sha);
    var b := Put(d, k, sha);
    forall i | 0 <= i < |b| ensures Scalars(b[i].key) && Profile(b[i].val) { assert b[i] in b; }
    GetPut(d, k, sha, k);
    forall x | x != k ensures Get(b, x) == Get(d, x) { GetPut(d, k, sha, x); }
  }

  lemma RecordKeyScalars()
    ensures Scalars(RECORD_SHA3())
  {}

  // ---- the locker's own verification ---------------------------------------------------------------

  /** How many of the entries are records of a known kind. */
  function RecordCount(es: seq<Json>): (r: nat)
  {
    if es == [] then 0 else RecordCount(es[..|es| - 1]) + (if IsRecord(DataOf(es[|es| - 1])) then 1 else 0)
  }

  /** locker.py `CRAEvidenceLocker.verify`: the chain, then every record's digest. The file is read for each, so
      the second reading may see more than the first. */
  method LockerVerify(h: Hash, h3: Hash, first: Text, second: Text)
      returns (chainOk: bool, n: nat, last: Text, checked: nat, bound: bool)
    ensures chainOk <==> FileOk(h, first) && bound
    ensures bound <==>
      ReadEntries(second).Some? && Profiles(ReadEntries(second).value) && AllBound(h3, ReadEntries(second).value)
    ensures chainOk ==> n == |ReadEntries(first).value| && last == PrevHash(ReadEntries(first).value, n)
    ensures bound ==> checked == RecordCount(ReadEntries(second).value)
  {
    hide ReadEntries, ChainOk, RecordOk, Profile, Depth, PrevHash, IsRecord, Bound, LastSeen;
    ReadProfiles(first);
    ReadProfiles(second);
    chainOk, n, last, checked, bound := false, 0, ZEROS(), 0, true;
    var es := ReadAll(first);
    if es.Some? { chainOk, n, last := VerifyEntries(h, es.value); }
    var again := ReadAll(second);
    if again.None? { return false, n, last, 0, false; }
    var mismatched := 0;
    for k := 0 to |again.value|
      invariant 0 <= mismatched && (mismatched == 0 <==> forall i :: 0 <= i < k ==> RecordOk(h3, again.value[i]))
      invariant checked == RecordCount(again.value[..k])
    {
      var e := again.value[k];
      assert again.value[..k + 1][..k] == again.value[..k] && again.value[..k + 1][k] == e;
      RecordStep(h3, e);
      if IsRecord(DataOf(e)) {
        checked := checked + 1;
        if !Bound(h3, DataOf(e)) { mismatched := mismatched + 1; }
      }
    }
    assert again.value[..|again.value|] == again.value;
    bound := mismatched == 0;
    chainOk := chainOk && bound;
  }

  lemma RecordStep(h3: Hash, e: Json)
    requires Profile(e)
    ensures Profile(Object(DataOf(e))) && (RecordOk(h3, e) <==> (IsRecord(DataOf(e)) ==> Bound(h3, DataOf(e))))
  {
    DataProfile(e);
  }

  // ---- the pack ------------------------------------------------------------------------------------

  /** What a pack says besides its ledger: prose and product fields. The scope holds the declared limit. */
  datatype Product = Product(id: Text, version: Text, supportEnd: Option<Text>, legalBasis: Text, scopeBefore: Text,
                             scopeAfter: Text, rule: Text)

  /** The ledger snapshot a pack commits to. */
  datatype Snapshot = Snapshot(ledgerFile: Text, entries: nat, last: Text, checked: nat, counts: seq<Member>)

  function PackFront(p: Product, s: Snapshot, utc: Text): (r: seq<Member>)
  {
    [Member(Lit("generated_utc"), Str(utc)), Member(SCOPE(), Str(p.scopeBefore + SCOPE_MARK() + p.scopeAfter)),
     Member(KIND(), Str(PACK_KIND())),
     Member(LEDGER_ENTRIES(), Int(s.entries)), Member(LEDGER_FILE(), Str(s.ledgerFile)),
     Member(LAST_SELF(), Str(s.last)),
     Member(Lit("legal_basis"), Str(p.legalBasis))]
  }

  function PackBack(p: Product, s: Snapshot): (r: seq<Member>)
  {
    [Member(Lit("product_id"), Str(p.id)), Member(Lit("product_version"), Str(p.version)),
     Member(Lit("record_counts"), Object(s.counts)),
     Member(Lit("retention"), Retention(p)), Member(Lit("retention_years"), Int(10)),
     Member(VERIFICATION(), SnapshotVerification(s))]
  }

  function Retention(p: Product): (r: Json)
  {
    Object([Member(Lit("minimum_years"), Int(10)), Member(Lit("rule"), Str(p.rule)),
            Member(Lit("support_period_end_utc"), if p.supportEnd.Some? then Str(p.supportEnd.value) else Null)])
  }

  /** Written only when the locker's verification held. */
  function SnapshotVerification(s: Snapshot): (r: Json)
  {
    Object([Member(CHAIN_OK(), Bool(true)), Member(Lit("entries"), Int(s.entries)), Member(DIGESTS_BOUND(), Bool(true)),
            Member(Lit("records_checked"), Int(s.checked))])
  }

  /** The pack before it carries its digest. */
  function PackBody(p: Product, s: Snapshot, utc: Text): (r: seq<Member>) { PackFront(p, s, utc) + PackBack(p, s) }

  /** The pack: its digest is that of the rest of it. */
  function PackOf(h3: Hash, p: Product, s: Snapshot, utc: Text): (r: seq<Member>)
    requires Profile(Object(PackBody(p, s, utc)))
  {
    PackFront(p, s, utc) + [Member(PACK_SHA3(), Str(PackDigest(h3, p, s, utc)))] + PackBack(p, s)
  }

  function PackDigest(h3: Hash, p: Product, s: Snapshot, utc: Text): (r: Text)
    requires Profile(Object(PackBody(p, s, utc)))
  {
    Digest(h3, Canonical(Object(PackBody(p, s, utc))))
  }

  /** The record that anchors the pack. */
  function AnchorData(sha: Text, file: Text): (r: seq<Member>)
  {
    [Member(ANCHORED_SHA3(), Str(sha)), Member(KIND(), Str(ANCHOR_KIND())), Member(Lit("pack_file"), Str(file))]
  }

  // ---- the order of the keys -----------------------------------------------------------------------

  lemma FrontOrder()
    ensures Less(Lit("generated_utc"), SCOPE()) && Less(SCOPE(), KIND()) && Less(KIND(), LEDGER_ENTRIES())
  {
    assert Lit("generated_utc")[0] == 'g' as int && SCOPE()[0] == 'h' as int && KIND()[0] == 'k' as int
      && LEDGER_ENTRIES()[0] == 'l' as int;
  }

  lemma LedgerKeyOrder()
    ensures Less(LEDGER_ENTRIES(), LEDGER_FILE()) && Less(LEDGER_FILE(), LAST_SELF())
      && Less(LAST_SELF(), Lit("legal_basis"))
  {
    hide Less;
    var a, b, c, d := LEDGER_ENTRIES(), LEDGER_FILE(), LAST_SELF(), Lit("legal_basis");
    assert a[..7] == b[..7] == c[..7] && a[7] == 'e' as int && b[7] == 'f' as int && c[7] == 'l' as int;
    Utf8.LessAtDifference(a, b, 7);
    Utf8.LessAtDifference(b, c, 7);
    assert c[..2] == d[..2] && c[2] == 'd' as int && d[2] == 'g' as int;
    Utf8.LessAtDifference(c, d, 2);
  }

  lemma MiddleOrder()
    ensures Less(Lit("legal_basis"), PACK_SHA3()) && Less(PACK_SHA3(), Lit("product_id"))
    ensures Less(Lit("product_id"), Lit("product_version")) && Less(Lit("product_version"), Lit("record_counts"))
  {
    hide Less;
    var a, b, c, d, e := Lit("legal_basis"), PACK_SHA3(), Lit("product_id"), Lit("product_version"),
      Lit("record_counts");
    assert a[..0] == b[..0] == c[..0] == d[..0] == e[..0];
    Utf8.LessAtDifference(a, b, 0);
    Utf8.LessAtDifference(d, e, 0);
    assert b[..1] == c[..1];
    Utf8.LessAtDifference(b, c, 1);
    assert c[..8] == d[..8] && c[8] == 'i' as int && d[8] == 'v' as int;
    Utf8.LessAtDifference(c, d, 8);
  }

  lemma EmptyIsLess()
    ensures Less([], Lit("_years"))
  {}

  lemma BackOrder()
    ensures Less(Lit("record_counts"), Lit("retention")) && Less(Lit("retention"), Lit("retention_years"))
    ensures Less(Lit("retention_years"), VERIFICATION())
  {
    hide Less;
    var a, b, c, d := Lit("record_counts"), Lit("retention"), Lit("retention_years"), VERIFICATION();
    assert a[..2] == b[..2] && a[2] == 'c' as int && b[2] == 't' as int;
    Utf8.LessAtDifference(a, b, 2);
    assert c == b + Lit("_years") && b == b + [];
    Utf8.LessAfterPrefix(b, [], Lit("_years"));
    EmptyIsLess();
    assert c[..0] == d[..0];
    Utf8.LessAtDifference(c, d, 0);
  }

  /** The fourteen keys of a pack in order, and in the closed list. */
  lemma PackOrder(front: seq<Member>, sha: Member, back: seq<Member>, p: Product, s: Snapshot, utc: Text)
    requires front == PackFront(p, s, utc) && back == PackBack(p, s) && sha.key == PACK_SHA3()
    ensures var ms := front + [sha] + back; forall k :: 0 <= k < |ms| - 1 ==> Less(ms[k].key, ms[k + 1].key)
  {
    hide Less, Lit, SCOPE, KIND, LEDGER_ENTRIES, LEDGER_FILE, LAST_SELF, PACK_SHA3, VERIFICATION, SCOPE_MARK,
      PACK_KIND, Retention, SnapshotVerification;
    FrontOrder();
    LedgerKeyOrder();
    MiddleOrder();
    BackOrder();
  }

  lemma PackKeysKnown(front: seq<Member>, sha: Member, back: seq<Member>, p: Product, s: Snapshot, utc: Text)
    requires front == PackFront(p, s, utc) && back == PackBack(p, s) && sha.key == PACK_SHA3()
    ensures SchemaOk(front + [sha] + back)
  {
    hide Lit, SCOPE, KIND, LEDGER_ENTRIES, LEDGER_FILE, LAST_SELF, PACK_SHA3, VERIFICATION, SCOPE_MARK, PACK_KIND,
      Retention, SnapshotVerification;
    assert front[0].key == PackKeyAt(1) && front[1].key == PackKeyAt(3) && front[2].key == PackKeyAt(0)
      && front[3].key == PackKeyAt(9);
    assert front[4].key == PackKeyAt(8) && front[5].key == PackKeyAt(10) && front[6].key == PackKeyAt(2)
      && sha.key == PackKeyAt(13);
    assert back[0].key == PackKeyAt(4) && back[1].key == PackKeyAt(5) && back[2].key == PackKeyAt(11)
      && back[3].key == PackKeyAt(6);
    assert back[4].key == PackKeyAt(7) && back[5].key == PackKeyAt(12);
  }
}
