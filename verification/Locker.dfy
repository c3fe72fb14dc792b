/** cra_evidence/locker.py `_evidence_pack_locked`: snapshot, pack, anchor, as one call over the ledger file. */
module Locker {
  import opened Texts
  import opened JsonValues
  import opened Chain
  import opened Refusal
  import opened LedgerEntries
  import opened Ledger
  import opened PackHost
  import opened PackSpec
  import opened PackMeaning
  import opened Producer
  import opened ProducerPack
  import opened ProducerRuns
  import opened PackReceipt
  import opened LedgerRuns
  import RecordCounts
  import Tip
  import TipCheck
  import Utf8

  /** The caller's values: the product fields, the clock, and the names of the files. */
  datatype Request = Request(product: Product, utc: Text, now: Text, ledgerFile: Text, packFile: Text)

  /** Texts a Python caller can hold. */
  ghost predicate Held(r: Request)
  {
    && CodePoints(r.utc) && CodePoints(r.now) && CodePoints(r.ledgerFile) && CodePoints(r.packFile)
    && CodePoints(r.product.id) && CodePoints(r.product.version) && CodePoints(r.product.legalBasis)
    && CodePoints(r.product.scopeBefore) && CodePoints(r.product.scopeAfter) && CodePoints(r.product.rule)
    && (r.product.supportEnd.Some? ==> CodePoints(r.product.supportEnd.value))
  }

  /** What the pack says of a ledger with these entries. */
  ghost function SnapshotTaken(ledgerFile: Text, es: seq<Json>): (s: Snapshot)
  {
    Snapshot(ledgerFile, |es|, PrevHash(es, |es|), RecordCount(es), RecordCounts.KindCounts(es))
  }

  lemma LitCodePoints(s: string)
    ensures CodePoints(Lit(s))
  {}

  lemma FrontWellFormed(p: Product, s: Snapshot, utc: Text)
    requires CodePoints(utc) && CodePoints(p.scopeBefore) && CodePoints(p.scopeAfter) && CodePoints(s.ledgerFile)
    requires CodePoints(s.last) && CodePoints(p.legalBasis)
    ensures forall m :: m in PackFront(p, s, utc) ==> CodePoints(m.key) && WellFormed(m.val)
  {
    hide Lit, CodePoints;
    LitCodePoints("generated_utc");
    LitCodePoints("legal_basis");
    KnownCodePoints();
    assert CodePoints(p.scopeBefore + SCOPE_MARK() + p.scopeAfter) by {
      JoinCodePoints(p.scopeBefore, SCOPE_MARK(), p.scopeAfter);
    }
  }

  lemma JoinCodePoints(a: Text, b: Text, c: Text)
    requires CodePoints(a) && CodePoints(b) && CodePoints(c)
    ensures CodePoints(a + b + c)
  {}

  lemma KnownCodePoints()
    ensures CodePoints(SCOPE()) && CodePoints(SCOPE_MARK()) && CodePoints(Tip.KIND()) && CodePoints(PACK_KIND())
    ensures CodePoints(LEDGER_ENTRIES()) && CodePoints(LEDGER_FILE()) && CodePoints(LAST_SELF())
    ensures CodePoints(VERIFICATION()) && CodePoints(CHAIN_OK()) && CodePoints(DIGESTS_BOUND())
  {}

  lemma BackWellFormed(p: Product, s: Snapshot)
    requires CodePoints(p.id) && CodePoints(p.version) && CodePoints(p.rule) && RecordCounts.FlatCounts(s.counts)
    requires p.supportEnd.Some? ==> CodePoints(p.supportEnd.value)
    ensures forall m :: m in PackBack(p, s) ==> CodePoints(m.key) && WellFormed(m.val)
  {
    hide Lit, CodePoints, Retention, SnapshotVerification, Sorted;
    LitCodePoints("product_id");
    LitCodePoints("product_version");
    LitCodePoints("record_counts");
    LitCodePoints("retention");
    LitCodePoints("retention_years");
    KnownCodePoints();
    RetentionWellFormed(p);
    VerificationWellFormed(s);
    forall i | 0 <= i < |s.counts| ensures CodePoints(s.counts[i].key) { ScalarsAreCodePoints(s.counts[i].key); }
  }

  lemma RetentionWellFormed(p: Product)
    requires CodePoints(p.rule) && (p.supportEnd.Some? ==> CodePoints(p.supportEnd.value))
    ensures WellFormed(Retention(p))
  {
    hide CodePoints, Less;
    LitCodePoints("minimum_years");
    LitCodePoints("rule");
    LitCodePoints("support_period_end_utc");
    RetentionOrder();
    Tip.InOrder(Retention(p).members);
  }

  lemma RetentionOrder()
    ensures Less(Lit("minimum_years"), Lit("rule")) && Less(Lit("rule"), Lit("support_period_end_utc"))
  {
    assert Lit("minimum_years")[0] == 'm' as int && Lit("rule")[0] == 'r' as int
      && Lit("support_period_end_utc")[0] == 's' as int;
  }

  lemma VerificationWellFormed(s: Snapshot)
    ensures WellFormed(SnapshotVerification(s))
  {
    hide CodePoints, Less;
    LitCodePoints("entries");
    LitCodePoints("records_checked");
    KnownCodePoints();
    VerificationOrder();
    Tip.InOrder(SnapshotVerification(s).members);
  }

  lemma VerificationOrder()
    ensures Less(CHAIN_OK(), Lit("entries")) && Less(Lit("entries"), DIGESTS_BOUND())
      && Less(DIGESTS_BOUND(), Lit("records_checked"))
  {
    hide Less;
    var a, b, c, d := CHAIN_OK(), Lit("entries"), DIGESTS_BOUND(), Lit("records_checked");
    assert a[..0] == b[..0] == c[..0];
    Utf8.LessAtDifference(a, b, 0);
    Utf8.LessAtDifference(b, c, 0);
    assert c[..6] == d[..6] && c[6] == '_' as int && d[6] == 's' as int;
    Utf8.LessAtDifference(c, d, 6);
  }

  /** The pack before it carries its digest is a value Python can hold, so its guard has an answer. */
  lemma BodyWellFormed(r: Request, s: Snapshot)
    requires Held(r) && s.ledgerFile == r.ledgerFile && CodePoints(s.last) && RecordCounts.FlatCounts(s.counts)
    ensures WellFormed(Object(PackBody(r.product, s, r.utc)))
  {
    hide PackFront, PackBack, CodePoints, Less, PACK_SHA3, Without;
    var a, b, m := PackFront(r.product, s, r.utc), PackBack(r.product, s), Member(PACK_SHA3(), Null);
    FrontWellFormed(r.product, s, r.utc);
    BackWellFormed(r.product, s);
    PackOrder(a, m, b, r.product, s, r.utc);
    Tip.InOrder(a + [m] + b);
    SortedJoin(a, m, b);
    WithoutMiddle(a, m, b);
    forall i | 0 <= i < |a + b| ensures CodePoints((a + b)[i].key) && WellFormed((a + b)[i].val) {
      assert (a + b)[i] in a || (a + b)[i] in b;
    }
  }

  lemma AnchorWellFormed(sha: Text, file: Text)
    requires IsHexN(sha, 64) && CodePoints(file)
    ensures WellFormed(Object(AnchorData(sha, file)))
    ensures Profile(Object(AnchorData(sha, file))) ==> Scalars(file)
  {
    hide ANCHORED_SHA3, Tip.KIND, ANCHOR_KIND, Less;
    AnchorKeys();
    HexIsScalar(sha, 64);
    var d := AnchorData(sha, file);
    Tip.InOrder(d);
    ScalarsAreCodePoints(ANCHORED_SHA3());
    ScalarsAreCodePoints(Tip.KIND());
    ScalarsAreCodePoints(Lit("pack_file"));
    ScalarsAreCodePoints(ANCHOR_KIND());
    ScalarsAreCodePoints(sha);
    if Profile(Object(d)) { assert Profile(d[2].val); }
  }

  /** What a call comes to: no pack and nothing written; the pack, anchored; or an anchor whose write failed. */
  datatype PackOutcome = Declined | Written(pack: seq<Member>) | Interrupted

  /** A pack can be written over these bytes: the ledger verifies and its records are bound, what the pack and its
      anchor say can be encoded, and the anchor can be appended. */
  ghost predicate Packable(h: Hash, h3: Hash, r: Request, before: Text)
  {
    && FileOk(h, before) && AllBound(h3, ReadEntries(before).value)
    && var s := SnapshotTaken(r.ledgerFile, ReadEntries(before).value);
       && Encodable(r, s)
       && Appendable(h, before, Anchor(h3, r, s), r.now)
  }

  ghost predicate Encodable(r: Request, s: Snapshot)
  {
    var body := Object(PackBody(r.product, s, r.utc));
    !Refuses(body, 0) && Profile(body) && Scalars(r.packFile)
  }

  ghost function Anchor(h3: Hash, r: Request, s: Snapshot): (e: Json)
    requires Profile(Object(PackBody(r.product, s, r.utc))) && Scalars(r.packFile)
  {
    Object(AnchorOf(h3, r.product, s, r.utc, r.packFile))
  }

  /** Each outcome with the bytes it leaves. A call is declined exactly when no pack can be written, or there is no
      lock. */
  ghost predicate PackResult(h: Hash, h3: Hash, r: Request, before: Text, after: Text, mayWrite: bool, o: PackOutcome)
  {
    match o
    case Declined => after == before && !(mayWrite && Packable(h, h3, r, before))
    case Written(p) =>
      && mayWrite && Packable(h, h3, r, before)
      && PackFor(h, h3, r, SnapshotTaken(r.ledgerFile, ReadEntries(before).value), before, after, p)
    case Interrupted =>
      && mayWrite && Packable(h, h3, r, before)
      && var anchor := Anchor(h3, r, SnapshotTaken(r.ledgerFile, ReadEntries(before).value));
         exists k :: CutAt(before, PendingAt(h, before, anchor, r.now), after, k)
  }

  /** The pack of this snapshot of a ledger that verifies, and its anchor in the ledger. */
  ghost predicate PackFor(h: Hash, h3: Hash, r: Request, s: Snapshot, before: Text, after: Text, p: seq<Member>)
  {
    && FileOk(h, before) && AllBound(h3, ReadEntries(before).value)
    && s == SnapshotTaken(r.ledgerFile, ReadEntries(before).value)
    && PackedAs(h, h3, r, s, before, after, p)
  }

  ghost predicate PackedAs(h: Hash, h3: Hash, r: Request, s: Snapshot, before: Text, after: Text, p: seq<Member>)
  {
    && Profile(Object(PackBody(r.product, s, r.utc))) && Scalars(r.packFile)
    && p == PackOf(h3, r.product, s, r.utc)
    && Appendable(h, before, Anchor(h3, r, s), r.now)
    && after == before + PendingAt(h, before, Anchor(h3, r, s), r.now)
  }

  /** Every outcome of the append of the anchor, as an outcome of the whole. */
  lemma AnchorSettled(h: Hash, h3: Hash, r: Request, s: Snapshot, before: Text, after: Text, mayWrite: bool, o: Outcome)
    requires FileOk(h, before) && AllBound(h3, ReadEntries(before).value) && Encodable(r, s)
    requires s == SnapshotTaken(r.ledgerFile, ReadEntries(before).value)
    requires Settled(h, before, after, Anchor(h3, r, s), r.now, mayWrite, o)
    ensures PackResult(h, h3, r, before, after, mayWrite,
                       match o
                       case Refused => Declined
                       case Appended(_) => Written(PackOf(h3, r.product, s, r.utc))
                       case Failed(_) => Interrupted)
  {
    hide FileOk, ReadEntries, AllBound, PrevHash, Profile, PackBody, PackOf, AnchorOf, Appendable, PendingAt, Scalars,
      Refuses, CutAt, SnapshotTaken;
  }

  /** No pack over an empty ledger, one that does not verify, or one with a record that is not bound; no pack without
      its anchor in the chain; and a pack whenever none of this stands in its way and the write goes through. */
  method EvidencePack(h: Hash, h3: Hash, ledger: Ledger, r: Request, locked: bool) returns (o: PackOutcome)
    requires Held(r)
    modifies ledger.file
    ensures PackResult(h, h3, r, old(ledger.file.bytes), ledger.file.bytes, locked || ledger.allowUnlocked, o)
  {
    hide FileOk, ReadEntries, AllBound, PrevHash, Profile, WellFormed, PackBody, PackOf, Bind, AnchorData, Settled,
      Appendable, PendingAt, PackDigest, Scalars, Refuses, Depth, CodePoints, RecordCounts.KindCounts, RecordCount,
      AnchorOf, RecordCounts.FlatCounts;
    ghost var before := ledger.file.bytes;
    var chainOk, n, last, checked, bound := LockerVerify(h, h3, ledger.file.bytes, ledger.file.bytes);
    if n == 0 || !chainOk {
      NoEntriesNoPack(h, h3, before, n, chainOk);
      return Declined;
    }
    var read := ReadAll(ledger.file.bytes);
    var counts := RecordCounts.CountKinds(read.value);
    var s := Snapshot(r.ledgerFile, n, last, checked, counts);
    SnapshotHolds(h, h3, r, before);
    Guard(Object(PackBody(r.product, s, r.utc)));
    if Refuses(Object(PackBody(r.product, s, r.utc)), 0) { return Declined; }
    var sha := PackDigest(h3, r.product, s, r.utc);
    DigestIsHex(h3, r.product, s, r.utc);
    AnchorGuard(sha, r.packFile);
    if Refuses(Object(AnchorData(sha, r.packFile)), 0) { return Declined; }
    AnchorRecord(h3, sha, r.packFile);
    var anchor := Bind(h3, AnchorData(sha, r.packFile));
    AnchorReady(h3, sha, r.packFile);
    AnchorIs(h3, r.product, s, r.utc, r.packFile);
    var outcome := ledger.Append(h, Object(anchor), None, r.now, locked);
    AnchorSettled(h, h3, r, s, before, ledger.file.bytes, locked || ledger.allowUnlocked, outcome);
    match outcome
    case Refused => return Declined;
    case Failed(_) => return Interrupted;
    case Appended(_) => return Written(PackOf(h3, r.product, s, r.utc));
  }

  lemma NoEntriesNoPack(h: Hash, h3: Hash, before: Text, n: nat, chainOk: bool)
    requires n == 0 || !chainOk
    requires chainOk <==>
      FileOk(h, before) && ReadEntries(before).Some? && Profiles(ReadEntries(before).value)
      && AllBound(h3, ReadEntries(before).value)
    requires chainOk ==> n == |ReadEntries(before).value|
    ensures !(FileOk(h, before) && AllBound(h3, ReadEntries(before).value))
  {
    hide ReadEntries, AllBound, Profile, Depth, Linked;
  }

  lemma SnapshotHolds(h: Hash, h3: Hash, r: Request, before: Text)
    requires Held(r) && FileOk(h, before)
    ensures ReadEntries(before).Some?
    ensures WellFormed(Object(PackBody(r.product, SnapshotTaken(r.ledgerFile, ReadEntries(before).value), r.utc)))
  {
    hide ReadEntries, PackBody, WellFormed, CodePoints, Profile, Depth, Payload, RecordCounts.KindCounts,
      RecordCounts.FlatCounts;
    ReadProfiles(before);
    var es := ReadEntries(before).value;
    RecordCounts.CountsFlat(es);
    TipCheck.HashesAreHex(h, es, |es| - 1);
    HexIsScalar(PrevHash(es, |es|), 64);
    ScalarsAreCodePoints(PrevHash(es, |es|));
    BodyWellFormed(r, SnapshotTaken(r.ledgerFile, es));
  }

  /** The guard of the anchor passes exactly for a file name that can be encoded. */
  lemma AnchorGuard(sha: Text, file: Text)
    requires IsHexN(sha, 64) && CodePoints(file)
    ensures Refuses(Object(AnchorData(sha, file)), 0) <==> !Scalars(file)
  {
    hide Refuses, Profile, Scalars, AnchorData, CodePoints;
    AnchorWellFormed(sha, file);
    Guard(Object(AnchorData(sha, file)));
    if Scalars(file) {
      AnchorIsFlat(sha, file);
    }
  }

  lemma AnchorIsFlat(sha: Text, file: Text)
    requires IsHexN(sha, 64) && Scalars(file)
    ensures Profile(Object(AnchorData(sha, file))) && Depth(Object(AnchorData(sha, file))) <= MAX_JSON_DEPTH
  {
    hide Profile, Scalars, Has, Get, Bind;
    AnchorRecord((t: Text) => t, sha, file);
    DepthWithin(AnchorData(sha, file), 0);
  }

  lemma AnchorReady(h3: Hash, sha: Text, file: Text)
    requires IsHexN(sha, 64) && Scalars(file)
    ensures Profile(Object(AnchorData(sha, file))) && WellFormed(Object(Bind(h3, AnchorData(sha, file))))
  {
    hide *;
    AnchorRecord(h3, sha, file);
    BindIsBound(h3, AnchorData(sha, file));
    ProfileWellFormed(Object(Bind(h3, AnchorData(sha, file))));
  }

  lemma AnchorIs(h3: Hash, p: Product, s: Snapshot, utc: Text, file: Text)
    requires Profile(Object(PackBody(p, s, utc))) && Scalars(file)
    ensures Profile(Object(AnchorData(PackDigest(h3, p, s, utc), file)))
    ensures AnchorOf(h3, p, s, utc, file) == Bind(h3, AnchorData(PackDigest(h3, p, s, utc), file))
  {
    hide PackDigest, PackBody, Profile, Bind, AnchorData, Scalars, IsHexN;
    DigestIsHex(h3, p, s, utc);
    AnchorRecord(h3, PackDigest(h3, p, s, utc), file);
  }

  // ---- the pack, checked later ---------------------------------------------------------------------

  /** The ledger just after the anchor: nobody writes, and the anchor is the one acknowledged append. */
  ghost function JustAnchored(before: Text, after: Text, entry: Json): (r: Machine)
  {
    Machine(after, Nobody, after, [Ack(|EntriesIn(before)|, entry)])
  }

  /** The append of the anchor as the beginning of a run. */
  lemma AnchorIsARun(h: Hash, h3: Hash, r: Request, s: Snapshot, before: Text, after: Text, p: seq<Member>)
      returns (entry: Json, states: seq<Machine>, steps: seq<Step>)
    requires PackedAs(h, h3, r, s, before, after, p)
    ensures Run(h, states, steps) && Init(before, states[0]) && BoundSteps(h3, steps)
    ensures states[|steps|] == JustAnchored(before, after, entry)
    ensures Profile(Object(PackBody(r.product, s, r.utc))) && Scalars(r.packFile)
    ensures DataOf(entry) == AnchorOf(h3, r.product, s, r.utc, r.packFile)
    ensures Some(entry) == Record(h, before, Object(AnchorOf(h3, r.product, s, r.utc, r.packFile)), r.now)
  {
    hide Next, Appendable, PendingAt, Record, Profile, PackBody, PackOf, AnchorOf, BoundData, Init, DataOf, Scalars;
    var anchor := Object(AnchorOf(h3, r.product, s, r.utc, r.packFile));
    RecordShape(h, before, anchor, r.now);
    entry := Record(h, before, anchor, r.now).value;
    Starts(before);
    SettledAs(h, before, after, anchor, r.now, entry);
    states, steps := AppendIsARun(h, Machine(before, Nobody, before, []), anchor, r.now, after, Appended(entry));
    AnchorIsBound(h3, r.product, s, r.utc, r.packFile);
  }

  lemma Starts(b: Text)
    ensures Init(b, Machine(b, Nobody, b, []))
  {}

  lemma SettledAs(h: Hash, b: Text, after: Text, data: Json, ts: Text, e: Json)
    requires Appendable(h, b, data, ts) && Some(e) == Record(h, b, data, ts) && after == b + PendingAt(h, b, data, ts)
    ensures Settled(h, b, after, data, ts, true, Appended(e))
  {}

  lemma AnchorIsBound(h3: Hash, p: Product, s: Snapshot, utc: Text, file: Text)
    requires Profile(Object(PackBody(p, s, utc))) && Scalars(file)
    ensures BoundData(h3, Object(AnchorOf(h3, p, s, utc, file)))
  {
    hide *;
    AnchorIs(h3, p, s, utc, file);
    DigestIsHex(h3, p, s, utc);
    AnchorRecord(h3, PackDigest(h3, p, s, utc), file);
    BindGivesBoundData(h3, AnchorData(PackDigest(h3, p, s, utc), file));
  }

  /** A pack returned by `EvidencePack` verifies later: after any further run of bound appends by any number of
      processes, under exactly the conditions of ProducerMeetsVerifier. */
  lemma WrittenPackVerifies(host: Host, path: Text, r: Request, s: Snapshot, before: Text, after: Text, p: seq<Member>,
                            states: seq<Machine>, steps: seq<Step>)
    requires PackFor(host.sha256, host.sha3, r, s, before, after, p)
    requires Run(host.sha256, states, steps) && BoundSteps(host.sha3, steps)
    requires AnchorEntry(host.sha256, host.sha3, r, s, before).Some?
    requires states[0] == JustAnchored(before, after, AnchorEntry(host.sha256, host.sha3, r, s, before).value)
    requires !states[|steps|].holder.Writing? && states[|steps|].file == states[|steps|].whole
    ensures ReadEntries(before).Some? && ReadEntries(states[|steps|].file).Some? && Profile(Object(p))
    ensures Stands(host, path, p, r.ledgerFile, states[|steps|].file) ==>
      var receipt := ReceiptOf(host, Bare(path));
      && (receipt.ok <==>
          |PackText(p)| <= MAX_DOC_BYTES && FileNameOk(r.ledgerFile) && !AnyUnknown(ReadEntries(before).value)
                          && SourcesFine(host, host.dir + r.ledgerFile, ReadEntries(states[|steps|].file).value, false))
      && (receipt.ok ==> receipt.auth == Authenticity.Anchored && receipt.anchored)
  {
    hide *;
    var h, h3 := host.sha256, host.sha3;
    PackForParts(h, h3, r, s, before, after, p);
    var entry, first, firstSteps := AnchorIsARun(h, h3, r, s, before, after, p);
    EntryIs(h, h3, r, s, before, entry);
    RunJoin(h, first, firstSteps, states, steps);
    BoundJoin(h3, firstSteps, steps);
    AcksKept(h, states, steps, |steps|);
    RunLength(h, states, steps);
    RunLength(h, first, firstSteps);
    AnchorStays(before, after, entry, states[0], states[|steps|]);
    assert |firstSteps + steps| == |firstSteps| + |steps|;
    ProducerMeetsVerifier(host, path, r.product, s, r.utc, r.packFile, before, first + states[1..], firstSteps
                          + steps, 0);
  }

  /** The record that anchors the pack. */
  ghost function AnchorEntry(h: Hash, h3: Hash, r: Request, s: Snapshot, before: Text): (res: Option<Json>)
  {
    if Profile(Object(PackBody(r.product, s, r.utc))) && Scalars(r.packFile)
    then Record(h, before, Object(AnchorOf(h3, r.product, s, r.utc, r.packFile)), r.now)
    else None
  }

  lemma EntryIs(h: Hash, h3: Hash, r: Request, s: Snapshot, before: Text, entry: Json)
    requires Profile(Object(PackBody(r.product, s, r.utc))) && Scalars(r.packFile)
    requires Some(entry) == Record(h, before, Object(AnchorOf(h3, r.product, s, r.utc, r.packFile)), r.now)
    ensures AnchorEntry(h, h3, r, s, before) == Some(entry)
  {
    hide Profile, PackBody, Scalars, Record, AnchorOf;
  }

  lemma PackForParts(h: Hash, h3: Hash, r: Request, s: Snapshot, before: Text, after: Text, p: seq<Member>)
    requires PackFor(h, h3, r, s, before, after, p)
    ensures FileOk(h, before) && ReadEntries(before).Some? && Profiles(ReadEntries(before).value)
      && AllBound(h3, ReadEntries(before).value)
    ensures SnapshotOf(s, ReadEntries(before).value) && PackedAs(h, h3, r, s, before, after, p)
      && s.ledgerFile == r.ledgerFile
    ensures Profile(Object(PackBody(r.product, s, r.utc))) && Scalars(r.packFile)
      && p == PackOf(h3, r.product, s, r.utc)
  {
    ReadProfiles(before);
    RecordCounts.CountsFlat(ReadEntries(before).value);
    hide ReadEntries, AllBound, PackBody, PackOf, AnchorOf, Appendable, PendingAt, Scalars, PrevHash, Profile, Depth,
      Linked;
  }

  lemma BoundJoin(h3: Hash, a: seq<Step>, b: seq<Step>)
    requires BoundSteps(h3, a) && BoundSteps(h3, b)
    ensures BoundSteps(h3, a + b)
  {
    hide BoundData;
  }

  lemma AnchorStays(before: Text, after: Text, entry: Json, s: Machine, last: Machine)
    requires s == JustAnchored(before, after, entry) && s.acks <= last.acks
    ensures |last.acks| > 0 && last.acks[0].entry == entry
  {
    hide EntriesIn;
  }
}
