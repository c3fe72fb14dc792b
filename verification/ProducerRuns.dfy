/** Producer meets verifier: a pack written over a verifying ledger, checked after any run of appenders. */
module ProducerRuns {
  import opened Texts
  import opened JsonValues
  import opened JsonPrinter
  import opened Chain
  import opened LedgerEntries
  import opened Ledger
  import opened LedgerRuns
  import opened Tip
  import opened TipCheck
  import opened PackReceipt
  import opened PackHost
  import opened PackSpec
  import opened PackMeaning
  import opened Producer
  import opened ProducerPack
  import opened CrashSafety

  /** The data of an append that went through `_bind`: if it is a record, it carries its digest. */
  ghost predicate BoundData(h3: Hash, data: Json)
  {
    data.Object? && Profile(data) && (IsRecord(data.members) ==> Bound(h3, data.members))
  }

  lemma BindGivesBoundData(h3: Hash, d: seq<Member>)
    requires Profile(Object(d)) && !Has(d, RECORD_SHA3())
    ensures Profile(Object(Bind(h3, d))) && BoundData(h3, Object(Bind(h3, d)))
  {
    hide Bound, IsRecord, Profile, Bind, RECORD_SHA3;
    BindIsBound(h3, d);
  }

  // ---- what one record adds ------------------------------------------------------------------------

  /** The record of an append holds its data, and no field outside the schema. */
  lemma RecordShape(h: Hash, b: Text, data: Json, ts: Text)
    requires Appendable(h, b, data, ts) && data.Object?
    ensures Record(h, b, data, ts).Some?
    ensures var e := Record(h, b, data, ts).value; DataOf(e) == data.members && !HasUnknownKey(e)
  {
    hide Profile, Print, DATA, IDX, PREV, SELF, TS, ReadEntries;
    var t := TailOf(b).value;
    SignedShape(t, data, ts, Digest(h, Canonical(Draft(t, data, ts))));
  }

  lemma SignedShape(t: Tail, data: Json, ts: Text, own: Text)
    requires data.Object?
    ensures DataOf(LedgerEntries.Signed(t, data, ts, own)) == data.members
      && !HasUnknownKey(LedgerEntries.Signed(t, data, ts, own))
  {
    hide DATA, IDX, PREV, SELF, TS;
    var ms := LedgerEntries.Signed(t, data, ts, own).members;
    assert ms == [ms[0]] + [ms[1], ms[2], ms[3], ms[4]];
    HeadFirst(ms[0], [ms[1], ms[2], ms[3], ms[4]], DATA());
  }

  /** The ledger after a step: as it was, or with the one record its writer was at. */
  ghost predicate Grows(h: Hash, s: Machine, s': Machine)
  {
    || EntriesIn(s'.whole) == EntriesIn(s.whole)
    || (WritingWell(h, s) && Record(h, s.whole, s.holder.data, s.holder.ts).Some?
        && EntriesIn(s'.whole) == EntriesIn(s.whole) + [Record(h, s.whole, s.holder.data, s.holder.ts).value])
  }

  lemma NextGrows(h: Hash, start: Text, s: Machine, step: Step, s': Machine)
    requires Inv(h, start, s) && Next(h, s, step, s')
    ensures Grows(h, s, s')
  {
    hide Appendable, PendingAt, Torn, TailOf, EntriesIn, LedgerRuns.Holds, Sound, Record;
    match step {
      case Begin(p, data, ts) => AppendableTail(h, s.file, data, ts);
      case Commit(p) => WholeWrite(h, s.whole, s.holder.data, s.holder.ts);
      case Abandon(p) => LeftGrows(h, s.whole, s.holder.data, s.holder.ts, s.holder.done);
      case Die(p, kept) => if s.holder.Writing? { LeftGrows(h, s.whole, s.holder.data, s.holder.ts, kept); }
      case _ =>
    }
  }

  lemma LeftGrows(h: Hash, b: Text, data: Json, ts: Text, k: nat)
    requires Appendable(h, b, data, ts) && k <= |PendingAt(h, b, data, ts)|
    ensures Record(h, b, data, ts).Some?
    ensures var torn := Torn(h, b, data, ts, k);
      TailOf(torn).Some? ==>
        EntriesIn(torn) == EntriesIn(b) || EntriesIn(torn) == EntriesIn(b) + [Record(h, b, data, ts).value]
  {
    hide ReadEntries, Appendable, Record, PendingAt, CrashSafety.Torn, TailOf, Storable, Links, AllChained, Chained,
      Pending, Terminated, PrevHash;
    var torn := Torn(h, b, data, ts, k);
    Parts(h, b, data, ts);
    TornEntries(h, b, data, ts, k, torn, ReadEntries(b).value, Record(h, b, data, ts).value);
    TailReads(torn);
  }

  // ---- over a run ----------------------------------------------------------------------------------

  /** Everything the run appends was bound. */
  ghost predicate BoundSteps(h3: Hash, steps: seq<Step>)
  {
    forall i :: 0 <= i < |steps| && steps[i].Begin? ==> BoundData(h3, steps[i].data)
  }

  /** What a run of bound appends keeps of its ledger. */
  ghost predicate KeepsRecords(h3: Hash, start: Text, s: Machine)
  {
    && Profiles(EntriesIn(s.whole))
    && AllBound(h3, EntriesIn(s.whole))
    && (AnyUnknown(EntriesIn(s.whole)) <==> AnyUnknown(EntriesIn(start)))
    && (s.holder.Writing? ==> BoundData(h3, s.holder.data))
    && (forall i :: 0 <= i < |s.acks| ==> s.acks[i].place >= |EntriesIn(start)|)
  }

  lemma OneMoreRecord(h3: Hash, es: seq<Json>, e: Json, data: Json)
    requires Profiles(es) && Profile(e) && Depth(e) <= MAX_JSON_DEPTH && AllBound(h3, es)
    requires BoundData(h3, data) && DataOf(e) == data.members && !HasUnknownKey(e)
    ensures Profiles(es + [e]) && AllBound(h3, es + [e]) && (AnyUnknown(es + [e]) <==> AnyUnknown(es))
  {
    hide Profile, Depth, Bound, IsRecord, DataOf, HasUnknownKey;
    var all := es + [e];
    forall k | 0 <= k < |all| ensures Profile(all[k]) && Depth(all[k]) <= MAX_JSON_DEPTH && RecordOk(h3, all[k]) {
      assert k < |es| ==> all[k] == es[k] && RecordOk(h3, es[k]);
      assert k == |es| ==> all[k] == e;
    }
    if AnyUnknown(es) {
      var k :| 0 <= k < |es| && HasUnknownKey(es[k]);
      assert HasUnknownKey(all[k]);
    }
    if AnyUnknown(all) {
      var k :| 0 <= k < |all| && HasUnknownKey(all[k]);
      assert k < |es| && HasUnknownKey(es[k]);
    }
  }

  lemma NextKeepsRecords(h: Hash, h3: Hash, start: Text, s: Machine, step: Step, s': Machine)
    requires Inv(h, start, s) && Next(h, s, step, s') && KeepsRecords(h3, start, s)
    requires step.Begin? ==> BoundData(h3, step.data)
    ensures KeepsRecords(h3, start, s')
  {
    hide Inv, EntriesIn, AllBound, AnyUnknown, BoundData, Record, Appendable, PendingAt, Torn, TailOf, Profile, Depth;
    NextGrows(h, start, s, step, s');
    if EntriesIn(s'.whole) != EntriesIn(s.whole) {
      var e := Record(h, s.whole, s.holder.data, s.holder.ts).value;
      Parts(h, s.whole, s.holder.data, s.holder.ts);
      BoundIsObject(h3, s.holder.data);
      RecordShape(h, s.whole, s.holder.data, s.holder.ts);
      OneMoreRecord(h3, EntriesIn(s.whole), e, s.holder.data);
    }
    PrefixLength(h, start, s);
  }

  lemma BoundIsObject(h3: Hash, data: Json)
    requires BoundData(h3, data)
    ensures data.Object?
  {}

  lemma PrefixLength(h: Hash, start: Text, s: Machine)
    requires Inv(h, start, s)
    ensures |EntriesIn(start)| <= |EntriesIn(s.whole)|
  {}

  lemma {:induction false} RunKeepsRecords(h: Hash, h3: Hash, start: Text, states: seq<Machine>, steps: seq<Step>,
                                           n: nat)
    requires Run(h, states, steps) && Init(start, states[0]) && n <= |steps| && BoundSteps(h3, steps)
    requires Profiles(EntriesIn(start)) && AllBound(h3, EntriesIn(start))
    ensures KeepsRecords(h3, start, states[n])
  {
    hide Inv, Next, KeepsRecords, EntriesIn, AllBound, BoundData, Profile, Depth;
    if n == 0 {
      StartKeepsRecords(h3, start, states[0]);
    } else {
      RunKeepsRecords(h, h3, start, states, steps, n - 1);
      RunKeepsInv(h, start, states, steps, n - 1);
      assert Next(h, states[n - 1], steps[n - 1], states[n]);
      NextKeepsRecords(h, h3, start, states[n - 1], steps[n - 1], states[n]);
    }
  }

  lemma StartKeepsRecords(h3: Hash, start: Text, s: Machine)
    requires Init(start, s) && Profiles(EntriesIn(start)) && AllBound(h3, EntriesIn(start))
    ensures KeepsRecords(h3, start, s)
  {
    hide EntriesIn, AllBound, AnyUnknown;
  }

  // ---- the theorem ---------------------------------------------------------------------------------

  lemma {:induction false} DepthWithin(ms: seq<Member>, d: nat)
    requires forall i :: 0 <= i < |ms| ==> Depth(ms[i].val) <= d
    ensures MembersDepth(ms) <= d
  {
    if ms != [] { DepthWithin(ms[1..], d); }
  }

  ghost predicate CountsFlat(s: Snapshot) { forall i :: 0 <= i < |s.counts| ==> s.counts[i].val.Int? }

  lemma PackDepth(h3: Hash, p: Product, s: Snapshot, utc: Text)
    requires Profile(Object(PackBody(p, s, utc))) && CountsFlat(s)
    ensures Depth(Object(PackOf(h3, p, s, utc))) <= 2
  {
    hide Profile, Lit, SCOPE, KIND, LEDGER_ENTRIES, LEDGER_FILE, LAST_SELF, PACK_SHA3, VERIFICATION, SCOPE_MARK,
      PACK_KIND, CHAIN_OK, DIGESTS_BOUND, PackDigest;
    DepthWithin(s.counts, 0);
    DepthWithin(Retention(p).members, 0);
    DepthWithin(SnapshotVerification(s).members, 0);
    var a, b := PackFront(p, s, utc), PackBack(p, s);
    assert forall i :: 0 <= i < |b| ==> Depth(b[i].val) <= 1;
    assert forall i :: 0 <= i < |a| ==> Depth(a[i].val) <= 1;
    DepthWithin(PackOf(h3, p, s, utc), 1);
  }

  lemma AnchorRecord(h3: Hash, sha: Text, file: Text)
    requires IsHexN(sha, 64) && Scalars(file)
    ensures Profile(Object(AnchorData(sha, file))) && !Has(AnchorData(sha, file), RECORD_SHA3())
    ensures var d := Bind(h3, AnchorData(sha, file));
      Get(d, KIND()) == Some(Str(ANCHOR_KIND())) && Get(d, ANCHORED_SHA3()) == Some(Str(sha))
  {
    hide RECORD_SHA3, ANCHORED_SHA3, KIND, ANCHOR_KIND, Bind, Less;
    var d := AnchorData(sha, file);
    AnchorKeys();
    HexIsScalar(sha, 64);
    Tip.InOrder(d);
    AnchorGets(sha, file);
    BindIsBound(h3, d);
  }

  lemma AnchorGets(sha: Text, file: Text)
    ensures var d := AnchorData(sha, file);
      Get(d, KIND()) == Some(Str(ANCHOR_KIND())) && Get(d, ANCHORED_SHA3()) == Some(Str(sha))
  {
    hide RECORD_SHA3, ANCHORED_SHA3, KIND, ANCHOR_KIND, Less;
    AnchorKeys();
    var d := AnchorData(sha, file);
    assert d[1..][0] == d[1];
  }

  lemma AnchorKeys()
    ensures Less(ANCHORED_SHA3(), KIND()) && Less(KIND(), Lit("pack_file"))
    ensures RECORD_SHA3() != ANCHORED_SHA3() && RECORD_SHA3() != KIND() && RECORD_SHA3() != Lit("pack_file")
      && ANCHORED_SHA3() != KIND()
    ensures Scalars(ANCHORED_SHA3()) && Scalars(KIND()) && Scalars(Lit("pack_file")) && Scalars(ANCHOR_KIND())
  {
    assert ANCHORED_SHA3()[0] == 'a' as int && KIND()[0] == 'k' as int && Lit("pack_file")[0] == 'p' as int
      && RECORD_SHA3()[0] == 'r' as int;
  }

  /** The anchor of the pack stands in the ledger at or after the state the pack declares. */
  lemma AnchorFound(h3: Hash, p: Product, s: Snapshot, utc: Text, es: seq<Json>, place: nat, file: Text)
    requires Profile(Object(PackBody(p, s, utc))) && Scalars(file) && place < |es| && s.entries <= place
    requires DataOf(es[place]) == AnchorOf(h3, p, s, utc, file)
    ensures var pack := PackOf(h3, p, s, utc);
      LastAnchor(pack, es).Some? && LastAnchor(pack, es).value >= s.entries
  {
    hide *;
    var pack := PackOf(h3, p, s, utc);
    PackFields(h3, p, s, utc);
    DigestIsHex(h3, p, s, utc);
    AnchorGivesFields(h3, p, s, utc, file);
    Anchors(pack, es[place], PackDigest(h3, p, s, utc));
    LastAnchorExactly(pack, es);
  }

  lemma AnchorGivesFields(h3: Hash, p: Product, s: Snapshot, utc: Text, file: Text)
    requires Profile(Object(PackBody(p, s, utc))) && Scalars(file)
    ensures var d := AnchorOf(h3, p, s, utc, file);
      Get(d, KIND()) == Some(Str(ANCHOR_KIND())) && Get(d, ANCHORED_SHA3()) == Some(Str(PackDigest(h3, p, s, utc)))
  {
    hide PackDigest, PackBody, Profile, Bind, AnchorData, Scalars, IsHexN, Tip.KIND, ANCHOR_KIND, ANCHORED_SHA3, Get;
    DigestIsHex(h3, p, s, utc);
    AnchorRecord(h3, PackDigest(h3, p, s, utc), file);
  }

  lemma Anchors(pack: seq<Member>, e: Json, sha: Text)
    requires Get(DataOf(e), KIND()) == Some(Str(ANCHOR_KIND())) && Get(DataOf(e), ANCHORED_SHA3()) == Some(Str(sha))
    requires Get(pack, PACK_SHA3()) == Some(Str(sha)) && IsHexN(sha, 64)
    ensures AnchorsPack(pack, e)
  {
    hide DataOf, KIND, ANCHOR_KIND, ANCHORED_SHA3, PACK_SHA3, Get, IsHexN;
  }

  function AnchorOf(h3: Hash, p: Product, s: Snapshot, utc: Text, file: Text): (r: seq<Member>)
    requires Profile(Object(PackBody(p, s, utc))) && Scalars(file)
  {
    DigestIsHex(h3, p, s, utc);
    AnchorRecord(h3, PackDigest(h3, p, s, utc), file);
    Bind(h3, AnchorData(PackDigest(h3, p, s, utc), file))
  }

  lemma DigestIsHex(h3: Hash, p: Product, s: Snapshot, utc: Text)
    requires Profile(Object(PackBody(p, s, utc)))
    ensures IsHexN(PackDigest(h3, p, s, utc), 64)
  {}

  /** The snapshot was taken of these entries. */
  ghost predicate SnapshotOf(s: Snapshot, es: seq<Json>)
  {
    es != [] && s.entries == |es| && s.last == PrevHash(es, |es|) && CountsFlat(s)
  }

  lemma StateHolds(h: Hash, h3: Hash, p: Product, s: Snapshot, utc: Text, es0: seq<Json>, es: seq<Json>)
    requires Profile(Object(PackBody(p, s, utc))) && SnapshotOf(s, es0) && es0 <= es && Profiles(es) && Linked(h, es)
    requires LastAnchor(PackOf(h3, p, s, utc), es).Some? && LastAnchor(PackOf(h3, p, s, utc), es).value >= s.entries
    ensures StateAgrees(PackOf(h3, p, s, utc), es, LastAnchor(PackOf(h3, p, s, utc), es))
  {
    hide PackOf, PackBody, Profile, LastAnchor, LEDGER_ENTRIES, LAST_SELF, Payload, Digest;
    PackFields(h3, p, s, utc);
    var n := |es0|;
    assert es[n - 1] == es0[n - 1];
    assert LinkedAt(h, es, n - 1);
  }

  /** The ledger stage over a ledger that continues the snapshot with bound records and holds the anchor. */
  lemma LedgerAccepts(host: Host, p: Product, s: Snapshot, utc: Text, file: Text, es0: seq<Json>, es: seq<Json>,
                      place: nat, lp: Text, inputs: Inputs)
    requires Profile(Object(PackBody(p, s, utc))) && Scalars(file) && SnapshotOf(s, es0) && es0 <= es
    requires Profiles(es) && ChainOk(host.sha256, es) && AllBound(host.sha3, es)
    requires s.entries <= place < |es| && DataOf(es[place]) == AnchorOf(host.sha3, p, s, utc, file)
    requires inputs.logKey == None && !inputs.requireSources
    ensures var pack := PackOf(host.sha3, p, s, utc);
      && LastAnchor(pack, es).Some?
      && (LedgerFine(host, inputs, pack, lp, es) <==> !AnyUnknown(es) && SourcesFine(host, lp, es, false))
  {
    hide PackOf, PackBody, Profile, LastAnchor, Depth, AnyUnknown, SourcesFine, AllBound, StateAgrees, AnchorOf,
      SnapshotOf, LinkedAt, DataOf;
    SnapshotEntries(s, es0);
    AnchorFound(host.sha3, p, s, utc, es, place, file);
    StateHolds(host.sha256, host.sha3, p, s, utc, es0, es);
  }

  lemma SnapshotEntries(s: Snapshot, es: seq<Json>)
    requires SnapshotOf(s, es)
    ensures s.entries == |es| && es != []
  {}

  /** A host where the pack file, no sidecar and the ledger next to the pack are found. */
  ghost predicate Stands(host: Host, path: Text, pack: seq<Member>, name: Text, ledger: Text)
    requires Profile(Object(pack))
  {
    && host.files(path) == Contents(PackText(pack))
    && !Present(SidecarFile(host, path))
    && host.files(host.dir + name) == Contents(ledger)
  }

  function Bare(path: Text): (r: Inputs) { Inputs(path, None, None, None, false) }

  /** When exactly a pack that continues into this ledger verifies, and as what. */
  lemma PackVerifies(host: Host, path: Text, p: Product, s: Snapshot, utc: Text, file: Text, es0: seq<Json>,
                     ledger: Text, place: nat)
    requires Profile(Object(PackBody(p, s, utc))) && Scalars(file) && SnapshotOf(s, es0)
    requires FileOk(host.sha256, ledger) && es0 <= ReadEntries(ledger).value
      && AllBound(host.sha3, ReadEntries(ledger).value)
    requires s.entries <= place < |ReadEntries(ledger).value|
    requires DataOf(ReadEntries(ledger).value[place]) == AnchorOf(host.sha3, p, s, utc, file)
    requires Profile(Object(PackOf(host.sha3, p, s, utc)))
      && Stands(host, path, PackOf(host.sha3, p, s, utc), s.ledgerFile, ledger)
    ensures var r := ReceiptOf(host, Bare(path));
      && (r.ok <==> |PackText(PackOf(host.sha3, p, s, utc))| <= MAX_DOC_BYTES && FileNameOk(s.ledgerFile)
                    && !AnyUnknown(ReadEntries(ledger).value)
                    && SourcesFine(host, host.dir + s.ledgerFile, ReadEntries(ledger).value, false))
      && (r.ok ==> r.auth == Anchored && r.anchored)
  {
    hide ReceiptOf, PackOf, PackBody, Profile, AnyUnknown, SourcesFine, AllBound, AnchorOf, SnapshotOf, FileOk,
      FileNameOk, Acceptable, PackText, DataOf, ReadEntries;
    var pack := PackOf(host.sha3, p, s, utc);
    OkMeans(host, Bare(path));
    PackDepthOf(host.sha3, p, s, utc, es0);
    PackFileReads(pack);
    AcceptsBare(host, path, p, s, utc, file, es0, ledger, place);
    if ReceiptOf(host, Bare(path)).ok { BareIsAnchored(host, path, pack); }
  }

  lemma PackDepthOf(h3: Hash, p: Product, s: Snapshot, utc: Text, es0: seq<Json>)
    requires Profile(Object(PackBody(p, s, utc))) && SnapshotOf(s, es0)
    ensures Depth(Object(PackOf(h3, p, s, utc))) <= MAX_JSON_DEPTH
  {
    hide PackOf, PackBody, Profile;
    PackDepth(h3, p, s, utc);
  }

  lemma AcceptsBare(host: Host, path: Text, p: Product, s: Snapshot, utc: Text, file: Text, es0: seq<Json>,
                    ledger: Text, place: nat)
    requires Profile(Object(PackBody(p, s, utc))) && Scalars(file) && SnapshotOf(s, es0)
    requires FileOk(host.sha256, ledger) && es0 <= ReadEntries(ledger).value
      && AllBound(host.sha3, ReadEntries(ledger).value)
    requires s.entries <= place < |ReadEntries(ledger).value|
    requires DataOf(ReadEntries(ledger).value[place]) == AnchorOf(host.sha3, p, s, utc, file)
    requires Profile(Object(PackOf(host.sha3, p, s, utc)))
      && Stands(host, path, PackOf(host.sha3, p, s, utc), s.ledgerFile, ledger)
    requires ReadDoc(Contents(PackText(PackOf(host.sha3, p, s, utc)))) ==
      if |PackText(PackOf(host.sha3, p, s, utc))| <= MAX_DOC_BYTES
      then Doc(Object(PackOf(host.sha3, p, s, utc)))
      else BadDoc
    ensures Acceptable(host, Bare(path)) <==>
      && |PackText(PackOf(host.sha3, p, s, utc))| <= MAX_DOC_BYTES && FileNameOk(s.ledgerFile)
      && !AnyUnknown(ReadEntries(ledger).value)
      && SourcesFine(host, host.dir + s.ledgerFile, ReadEntries(ledger).value, false)
  {
    hide PackOf, PackBody, Profile, AnyUnknown, SourcesFine, AllBound, AnchorOf, SnapshotOf, FileNameOk, PackText,
      WellFormedPack, LedgerStageFine, AuthenticityFine, DataOf, ReadEntries, ReadDoc, ChainOk, Depth;
    var pack := PackOf(host.sha3, p, s, utc);
    PackIsWellFormed(host, p, s, utc);
    LedgerStage(host, path, p, s, utc, file, es0, ledger, place);
    if LedgerStageFine(host, Bare(path), pack) { BareAuthentic(host, path, pack); }
  }

  /** The ledger stage for a pack that names a ledger next to it. */
  lemma LedgerStage(host: Host, path: Text, p: Product, s: Snapshot, utc: Text, file: Text, es0: seq<Json>,
                    ledger: Text, place: nat)
    requires Profile(Object(PackBody(p, s, utc))) && Scalars(file) && SnapshotOf(s, es0)
    requires FileOk(host.sha256, ledger) && es0 <= ReadEntries(ledger).value
      && AllBound(host.sha3, ReadEntries(ledger).value)
    requires s.entries <= place < |ReadEntries(ledger).value|
    requires DataOf(ReadEntries(ledger).value[place]) == AnchorOf(host.sha3, p, s, utc, file)
    requires host.files(host.dir + s.ledgerFile) == Contents(ledger)
    ensures var pack := PackOf(host.sha3, p, s, utc);
      && (LedgerStageFine(host, Bare(path), pack) <==>
          FileNameOk(s.ledgerFile) && !AnyUnknown(ReadEntries(ledger).value)
                                                       && SourcesFine(host, host.dir
                                                           + s.ledgerFile, ReadEntries(ledger).value, false))
      && (LedgerStageFine(host, Bare(path), pack) ==> AnchoredIn(host, Bare(path), pack))
  {
    hide PackOf, PackBody, Profile, AnyUnknown, SourcesFine, AllBound, AnchorOf, SnapshotOf, FileNameOk, LedgerFine,
      DataOf, ReadEntries, ChainOk, Depth, LastAnchor, LEDGER_FILE, Get;
    var pack := PackOf(host.sha3, p, s, utc);
    var lp := host.dir + s.ledgerFile;
    PackFields(host.sha3, p, s, utc);
    LedgerAccepts(host, p, s, utc, file, es0, ReadEntries(ledger).value, place, lp, Bare(path));
    NameNotEmpty(s.ledgerFile);
  }

  lemma NameNotEmpty(v: Text)
    ensures FileNameOk(v) ==> v != []
  {}

  lemma BareAuthentic(host: Host, path: Text, pack: seq<Member>)
    requires Profile(Object(pack)) && !Present(SidecarFile(host, path)) && AnchoredIn(host, Bare(path), pack)
    ensures AuthenticityFine(host, Bare(path), pack)
  {
    hide AnchoredIn, Profile, ValidSidecar, SidecarFile, CheckSignature;
    SignaturePasses(host, path, None, pack);
    SkippedMeans(host, Bare(path), pack);
  }

  lemma BareIsAnchored(host: Host, path: Text, pack: seq<Member>)
    requires Profile(Object(pack)) && !Present(SidecarFile(host, path))
    requires ReadDoc(host.files(path)) == Doc(Object(pack)) || ReadDoc(host.files(path)) == BadDoc
    requires ReceiptOf(host, Bare(path)).ok
    ensures ReceiptOf(host, Bare(path)).auth == Anchored && ReceiptOf(host, Bare(path)).anchored
  {
    hide AnchoredIn, Profile, SidecarFile, CheckSignature, RunPart, ReadDoc, Failing, Judged, Unassessed, StatesOf,
      PackReceipt.InOrder;
    SkippedMeans(host, Bare(path), pack);
  }

  /** Producer meets verifier. A pack is written over a ledger that the locker verified, then any number of
      processes append bound records in any interleaving, one of these appends being the anchor of the pack. When
      no write is under way and none was cut short, the pack, unsigned and checked with nothing but itself,
      verifies as anchored if and only if its file is within the size bound, the ledger's own name is a plain
      file name, no entry older than the pack has a field outside the schema, and no recorded source document is
      malformed, altered or unreadable. */
  lemma ProducerMeetsVerifier(host: Host, path: Text, p: Product, s: Snapshot, utc: Text, file: Text, start: Text,
                              states: seq<Machine>, steps: seq<Step>, i: nat)
    requires FileOk(host.sha256, start) && AllBound(host.sha3, ReadEntries(start).value)
    requires SnapshotOf(s, ReadEntries(start).value) && Profile(Object(PackBody(p, s, utc))) && Scalars(file)
    requires Run(host.sha256, states, steps) && Init(start, states[0]) && BoundSteps(host.sha3, steps)
    requires var last := states[|steps|];
      && !last.holder.Writing? && last.file == last.whole
      && i < |last.acks| && DataOf(last.acks[i].entry) == AnchorOf(host.sha3, p, s, utc, file)
    ensures Profile(Object(PackOf(host.sha3, p, s, utc))) && ReadEntries(states[|steps|].file).Some?
    ensures Stands(host, path, PackOf(host.sha3, p, s, utc), s.ledgerFile, states[|steps|].file) ==>
      var r := ReceiptOf(host, Bare(path));
      && (r.ok <==> |PackText(PackOf(host.sha3, p, s, utc))| <= MAX_DOC_BYTES && FileNameOk(s.ledgerFile)
                    && !AnyUnknown(ReadEntries(start).value)
                    && SourcesFine(host, host.dir + s.ledgerFile, ReadEntries(states[|steps|].file).value, false))
      && (r.ok ==> r.auth == Anchored && r.anchored)
  {
    hide *;
    RunLength(host.sha256, states, steps);
    PackProfile(host.sha3, p, s, utc);
    SoundParts(host.sha256, start);
    RunEnds(host, p, s, utc, file, start, states, steps, i);
    var ledger := states[|steps|].file;
    var place := states[|steps|].acks[i].place;
    if Stands(host, path, PackOf(host.sha3, p, s, utc), s.ledgerFile, ledger) {
      PackVerifies(host, path, p, s, utc, file, ReadEntries(start).value, ledger, place);
    }
  }

  lemma RunLength(h: Hash, states: seq<Machine>, steps: seq<Step>)
    requires Run(h, states, steps)
    ensures |states| == |steps| + 1
  {}

  lemma SoundParts(h: Hash, b: Text)
    requires FileOk(h, b)
    ensures Sound(h, b) && ReadEntries(b).Some? && Profiles(EntriesIn(b)) && EntriesIn(b) == ReadEntries(b).value
      && EntriesIn(b) != []
  {
    hide ReadEntries;
  }

  lemma RunEnds(host: Host, p: Product, s: Snapshot, utc: Text, file: Text, start: Text, states: seq<Machine>,
                steps: seq<Step>, i: nat)
    requires FileOk(host.sha256, start) && AllBound(host.sha3, ReadEntries(start).value)
    requires SnapshotOf(s, ReadEntries(start).value) && Profile(Object(PackBody(p, s, utc))) && Scalars(file)
    requires Run(host.sha256, states, steps) && Init(start, states[0]) && BoundSteps(host.sha3, steps)
    requires var last := states[|steps|];
      && !last.holder.Writing? && last.file == last.whole
      && i < |last.acks| && DataOf(last.acks[i].entry) == AnchorOf(host.sha3, p, s, utc, file)
    ensures var last := states[|steps|]; var place := last.acks[i].place;
      && FileOk(host.sha256, last.file) && ReadEntries(last.file).Some? && Profiles(ReadEntries(last.file).value)
      && ReadEntries(start).value <= ReadEntries(last.file).value
      && AllBound(host.sha3, ReadEntries(last.file).value)
      && (AnyUnknown(ReadEntries(last.file).value) <==> AnyUnknown(ReadEntries(start).value))
      && s.entries <= place < |ReadEntries(last.file).value|
      && DataOf(ReadEntries(last.file).value[place]) == AnchorOf(host.sha3, p, s, utc, file)
  {
    hide *;
    RunLength(host.sha256, states, steps);
    SoundParts(host.sha256, start);
    SnapshotEntries(s, ReadEntries(start).value);
    var last := states[|steps|];
    RunKeepsInv(host.sha256, start, states, steps, |steps|);
    RunKeepsRecords(host.sha256, host.sha3, start, states, steps, |steps|);
    EndState(host.sha256, host.sha3, start, last, i);
  }

  lemma EndState(h: Hash, h3: Hash, start: Text, s: Machine, i: nat)
    requires FileOk(h, start) && Inv(h, start, s) && KeepsRecords(h3, start, s) && s.file == s.whole && i < |s.acks|
    ensures FileOk(h, s.file) && ReadEntries(s.file).Some? && ReadEntries(start).Some?
      && Profiles(ReadEntries(s.file).value)
    ensures ReadEntries(start).value <= ReadEntries(s.file).value && AllBound(h3, ReadEntries(s.file).value)
    ensures AnyUnknown(ReadEntries(s.file).value) <==> AnyUnknown(ReadEntries(start).value)
    ensures |ReadEntries(start).value| <= s.acks[i].place < |ReadEntries(s.file).value|
    ensures ReadEntries(s.file).value[s.acks[i].place] == s.acks[i].entry
  {
    hide ReadEntries, FileOk, AllBound, AnyUnknown, TailOf, WritingWell, Torn, Profile, Depth;
    SoundParts(h, start);
  }
}
