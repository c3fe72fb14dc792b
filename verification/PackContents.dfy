/** What a written pack and its anchor say, field by field, in the terms of the request and of the ledger. */
module PackContents {
  import opened Texts
  import opened JsonValues
  import opened JsonPrinter
  import opened Chain
  import opened History
  import opened Ledger
  import opened LedgerEntries
  import opened PackHost
  import opened PackSpec
  import opened Producer
  import opened ProducerPack
  import opened ProducerRuns
  import opened Locker
  import RecordCounts
  import Tip

  /** The object has this value under this key. */
  predicate Says(ms: seq<Member>, key: string, v: Json) { Get(ms, Lit(key)) == Some(v) }

  lemma MemberSaid(ms: seq<Member>, key: string, v: Json)
    requires Sorted(ms) && Member(Lit(key), v) in ms
    ensures Says(ms, key, v)
  {
    hide Lit, Get;
    GetIn(ms, Lit(key));
  }

  /** The names of the fields, apart from the constants the model uses for them. */
  lemma FieldNames()
    ensures SCOPE() == Lit("honest_scope") && Tip.KIND() == Lit("kind") && PACK_KIND() == Lit("cra_evidence_pack/1")
    ensures LEDGER_ENTRIES() == Lit("ledger_entries") && LEDGER_FILE() == Lit("ledger_file")
    ensures LAST_SELF() == Lit("ledger_last_self_hash") && PACK_SHA3() == Lit("pack_sha3")
    ensures VERIFICATION() == Lit("verification") && CHAIN_OK() == Lit("chain_ok")
    ensures DIGESTS_BOUND() == Lit("record_digests_bound") && SCOPE_MARK() == Lit("NOT a conformity assessment")
    ensures ANCHORED_SHA3() == Lit("anchored_pack_sha3") && ANCHOR_KIND() == Lit("cra_pack_anchor")
    ensures RECORD_SHA3() == Lit("record_sha3")
  {}

  /** The fields before the digest, and those after it. */
  lemma BodyMembers(h3: Hash, p: Product, s: Snapshot, utc: Text)
    requires Profile(Object(PackBody(p, s, utc)))
    ensures var pack := PackOf(h3, p, s, utc);
      && (forall m :: m in PackFront(p, s, utc) ==> m in pack) && (forall m :: m in PackBack(p, s) ==> m in pack)
      && Member(PACK_SHA3(), Str(PackDigest(h3, p, s, utc))) in pack
  {
    hide PackFront, PackBack, PackDigest, PACK_SHA3, Profile;
  }

  lemma FrontHolds(p: Product, s: Snapshot, utc: Text)
    ensures var ms := PackFront(p, s, utc);
      && Member(Lit("generated_utc"), Str(utc)) in ms
      && Member(Lit("honest_scope"), Str(p.scopeBefore + Lit("NOT a conformity assessment") + p.scopeAfter)) in ms
      && Member(Lit("kind"), Str(Lit("cra_evidence_pack/1"))) in ms
      && Member(Lit("ledger_entries"), Int(s.entries)) in ms && Member(Lit("ledger_file"), Str(s.ledgerFile)) in ms
      && Member(Lit("ledger_last_self_hash"), Str(s.last)) in ms && Member(Lit("legal_basis"), Str(p.legalBasis)) in ms
  {
    hide Lit, SCOPE, Tip.KIND, PACK_KIND, LEDGER_ENTRIES, LEDGER_FILE, LAST_SELF, SCOPE_MARK;
    FieldNames();
    var ms := PackFront(p, s, utc);
    assert ms[0] in ms && ms[1] in ms && ms[2] in ms && ms[3] in ms && ms[4] in ms && ms[5] in ms && ms[6] in ms;
  }

  lemma BackHolds(p: Product, s: Snapshot)
    ensures var ms := PackBack(p, s);
      && Member(Lit("product_id"), Str(p.id)) in ms && Member(Lit("product_version"), Str(p.version)) in ms
      && Member(Lit("record_counts"), Object(s.counts)) in ms && Member(Lit("retention"), Retention(p)) in ms
      && Member(Lit("retention_years"), Int(10)) in ms && Member(Lit("verification"), SnapshotVerification(s)) in ms
  {
    hide Lit, VERIFICATION, Retention, SnapshotVerification;
    FieldNames();
    var ms := PackBack(p, s);
    assert ms[0] in ms && ms[1] in ms && ms[2] in ms && ms[3] in ms && ms[4] in ms && ms[5] in ms;
  }

  lemma RetentionSays(p: Product)
    ensures var ms := Retention(p).members;
      && Says(ms, "minimum_years", Int(10)) && Says(ms, "rule", Str(p.rule))
      && Says(ms, "support_period_end_utc", if p.supportEnd.Some? then Str(p.supportEnd.value) else Null)
  {
    hide Lit, Less, Says;
    RetentionOrder();
    var ms := Retention(p).members;
    Tip.InOrder(ms);
    assert ms[0] in ms && ms[1] in ms && ms[2] in ms;
    MemberSaid(ms, "minimum_years", Int(10));
    MemberSaid(ms, "rule", Str(p.rule));
    MemberSaid(ms, "support_period_end_utc", if p.supportEnd.Some? then Str(p.supportEnd.value) else Null);
  }

  lemma VerificationSays(s: Snapshot)
    ensures var ms := SnapshotVerification(s).members;
      && Says(ms, "chain_ok", Bool(true)) && Says(ms, "entries", Int(s.entries))
      && Says(ms, "record_digests_bound", Bool(true)) && Says(ms, "records_checked", Int(s.checked))
  {
    hide Lit, Less, Says, CHAIN_OK, DIGESTS_BOUND;
    FieldNames();
    VerificationOrder();
    var ms := SnapshotVerification(s).members;
    Tip.InOrder(ms);
    assert ms[0] in ms && ms[1] in ms && ms[2] in ms && ms[3] in ms;
    MemberSaid(ms, "chain_ok", Bool(true));
    MemberSaid(ms, "entries", Int(s.entries));
    MemberSaid(ms, "record_digests_bound", Bool(true));
    MemberSaid(ms, "records_checked", Int(s.checked));
  }

  /** What a pack says of the product and of the ledger: every field but its digest. */
  lemma PackSays(h3: Hash, p: Product, s: Snapshot, utc: Text)
    requires Profile(Object(PackBody(p, s, utc)))
    ensures var pack := PackOf(h3, p, s, utc);
      && Says(pack, "kind", Str(Lit("cra_evidence_pack/1"))) && Says(pack, "generated_utc", Str(utc))
      && Says(pack, "product_id", Str(p.id)) && Says(pack, "product_version", Str(p.version))
      && Says(pack, "legal_basis", Str(p.legalBasis))
      && Says(pack, "honest_scope", Str(p.scopeBefore + Lit("NOT a conformity assessment") + p.scopeAfter))
      && Says(pack, "retention_years", Int(10)) && Says(pack, "retention", Retention(p))
      && Says(pack, "ledger_file", Str(s.ledgerFile)) && Says(pack, "ledger_entries", Int(s.entries))
      && Says(pack, "ledger_last_self_hash", Str(s.last)) && Says(pack, "record_counts", Object(s.counts))
      && Says(pack, "verification", SnapshotVerification(s))
  {
    hide PackOf, PackFront, PackBack, PackDigest, Lit, Says, Retention, SnapshotVerification, PACK_SHA3, Profile,
      Sorted;
    var pack := PackOf(h3, p, s, utc);
    PackProfile(h3, p, s, utc);
    SortedOf(pack);
    BodyMembers(h3, p, s, utc);
    FrontHolds(p, s, utc);
    BackHolds(p, s);
    MemberSaid(pack, "kind", Str(Lit("cra_evidence_pack/1")));
    MemberSaid(pack, "generated_utc", Str(utc));
    MemberSaid(pack, "product_id", Str(p.id));
    MemberSaid(pack, "product_version", Str(p.version));
    MemberSaid(pack, "legal_basis", Str(p.legalBasis));
    MemberSaid(pack, "honest_scope", Str(p.scopeBefore + Lit("NOT a conformity assessment") + p.scopeAfter));
    MemberSaid(pack, "retention_years", Int(10));
    MemberSaid(pack, "retention", Retention(p));
    MemberSaid(pack, "ledger_file", Str(s.ledgerFile));
    MemberSaid(pack, "ledger_entries", Int(s.entries));
    MemberSaid(pack, "ledger_last_self_hash", Str(s.last));
    MemberSaid(pack, "record_counts", Object(s.counts));
    MemberSaid(pack, "verification", SnapshotVerification(s));
  }

  /** The digest a pack carries is that of the pack without it. */
  lemma PackDigestSays(h3: Hash, p: Product, s: Snapshot, utc: Text)
    requires Profile(Object(PackBody(p, s, utc)))
    ensures var pack := PackOf(h3, p, s, utc);
      && Profile(Object(Without(pack, Lit("pack_sha3"))))
      && Says(pack, "pack_sha3", Str(Digest(h3, Canonical(Object(Without(pack, Lit("pack_sha3")))))))
  {
    hide PackOf, PackBody, Lit, Profile, Sorted, PACK_SHA3, Without, Get, Digest;
    var pack := PackOf(h3, p, s, utc);
    FieldNames();
    PackProfile(h3, p, s, utc);
    PackFields(h3, p, s, utc);
  }

  /** The anchor names the pack's digest and its file, and is bound. */
  lemma AnchorSays(h3: Hash, p: Product, s: Snapshot, utc: Text, file: Text)
    requires Profile(Object(PackBody(p, s, utc))) && Scalars(file)
    ensures var d := AnchorOf(h3, p, s, utc, file);
      && Says(d, "kind", Str(Lit("cra_pack_anchor"))) && Says(d, "pack_file", Str(file))
      && Get(d, Lit("anchored_pack_sha3")) == Get(PackOf(h3, p, s, utc), Lit("pack_sha3"))
      && Get(d, Lit("anchored_pack_sha3")).Some?
  {
    hide PackOf, PackBody, PackDigest, Lit, Profile, Get, Bind, AnchorData, IsHexN, Tip.KIND, ANCHOR_KIND,
      ANCHORED_SHA3, PACK_SHA3, RECORD_SHA3, Scalars;
    FieldNames();
    PackFields(h3, p, s, utc);
    DigestIsHex(h3, p, s, utc);
    var sha := PackDigest(h3, p, s, utc);
    AnchorRecord(h3, sha, file);
    AnchorGivesFields(h3, p, s, utc, file);
    BindIsBound(h3, AnchorData(sha, file));
    FileNamed(sha, file);
    assert RECORD_SHA3() != Lit("pack_file") by { AnchorKeys(); }
  }

  lemma FileNamed(sha: Text, file: Text)
    ensures Says(AnchorData(sha, file), "pack_file", Str(file))
  {
    hide ANCHORED_SHA3, Tip.KIND, ANCHOR_KIND, Less, Lit;
    AnchorKeys();
    var d := AnchorData(sha, file);
    Tip.InOrder(d);
    assert d[2] in d;
    MemberSaid(d, "pack_file", Str(file));
  }

  /** What `EvidencePack` returns, said of the caller's request and of the entries the ledger held. */
  lemma WrittenPackSays(h: Hash, h3: Hash, r: Request, s: Snapshot, before: Text, after: Text, p: seq<Member>)
    requires PackFor(h, h3, r, s, before, after, p)
    ensures ReadEntries(before).Some? && Profiles(ReadEntries(before).value)
    ensures var es := ReadEntries(before).value;
      && Says(p, "kind", Str(Lit("cra_evidence_pack/1"))) && Says(p, "generated_utc", Str(r.utc))
      && Says(p, "product_id", Str(r.product.id)) && Says(p, "product_version", Str(r.product.version))
      && Says(p, "legal_basis", Str(r.product.legalBasis))
      && Says(p, "ledger_file", Str(r.ledgerFile)) && Says(p, "ledger_entries", Int(|es|))
      && Says(p, "ledger_last_self_hash", Str(PrevHash(es, |es|)))
      && Says(p, "record_counts", Object(RecordCounts.KindCounts(es))) && Says(p, "retention_years", Int(10))
    ensures var ret := Get(p, Lit("retention"));
      && ret.Some? && ret.value.Object? && Says(ret.value.members, "minimum_years", Int(10))
      && Says(ret.value.members, "rule", Str(r.product.rule))
      && Says(ret.value.members, "support_period_end_utc",
              if r.product.supportEnd.Some? then Str(r.product.supportEnd.value) else Null)
    ensures var es, v := ReadEntries(before).value, Get(p, Lit("verification"));
      && v.Some? && v.value.Object? && Says(v.value.members, "chain_ok", Bool(true))
      && Says(v.value.members, "entries", Int(|es|)) && Says(v.value.members, "record_digests_bound", Bool(true))
      && Says(v.value.members, "records_checked", Int(RecordCount(es)))
  {
    hide PackOf, PackBody, Retention, SnapshotVerification, ReadEntries, AllBound, PrevHash, Profile, Appendable,
      PendingAt, Lit, Scalars, RecordCounts.KindCounts, RecordCount, AnchorOf, Get, Depth, Linked;
    PackSays(h3, r.product, s, r.utc);
    RetentionSays(r.product);
    VerificationSays(s);
    assert Retention(r.product).Object? && SnapshotVerification(s).Object? by { BothObjects(r.product, s); }
  }

  lemma BothObjects(p: Product, s: Snapshot)
    ensures Retention(p).Object? && SnapshotVerification(s).Object?
  {}
}
