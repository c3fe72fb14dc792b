/** What each stage of verify_pack.py says of a pack, subject by subject. No function here but the last stage sees
    the trust store. */
module PackSpec {
  import opened Texts
  import opened JsonValues
  import opened JsonGrammar
  import opened Chain
  import opened LedgerEntries
  import opened GoCanonical
  import opened Tip
  import opened TipCheck
  import opened PackReceipt
  import opened PackHost

  // ---- the pack itself -----------------------------------------------------------------------------

  function LEDGER_FILE(): (r: Text) { Lit("ledger_file") }
  function LEDGER_ENTRIES(): (r: Text) { Lit("ledger_entries") }
  function LAST_SELF(): (r: Text) { Lit("ledger_last_self_hash") }
  function SCOPE(): (r: Text) { Lit("honest_scope") }
  function SCOPE_MARK(): (r: Text) { Lit("NOT a conformity assessment") }
  function VERIFICATION(): (r: Text) { Lit("verification") }
  function CHAIN_OK(): (r: Text) { Lit("chain_ok") }
  function DIGESTS_BOUND(): (r: Text) { Lit("record_digests_bound") }
  function PACK_KIND(): (r: Text) { Lit("cra_evidence_pack/1") }

  /** The closed list of the pack's top-level fields. */
  function PackKeyAt(i: nat): (r: Text)
    requires i < 14
  {
    if i == 0 then KIND() else if i == 1 then Lit("generated_utc") else if i == 2 then Lit("legal_basis")
    else if i == 3 then SCOPE() else if i == 4 then Lit("product_id") else if i == 5 then Lit("product_version")
    else if i == 6 then Lit("retention") else if i == 7 then Lit("retention_years") else if i == 8 then LEDGER_FILE()
    else if i == 9 then LEDGER_ENTRIES() else if i == 10 then LAST_SELF() else if i == 11 then Lit("record_counts")
    else if i == 12 then VERIFICATION() else PACK_SHA3()
  }

  predicate PackKey(k: Text) { exists i :: 0 <= i < 14 && k == PackKeyAt(i) }

  predicate KindOk(pack: seq<Member>) { Get(pack, KIND()) == Some(Str(PACK_KIND())) }

  predicate SchemaOk(pack: seq<Member>) { forall m :: m in pack ==> PackKey(m.key) }

  predicate StandsAt(t: Text, i: nat, mark: Text) { i + |mark| <= |t| && t[i..i + |mark|] == mark }

  predicate HasMark(t: Text, mark: Text)
  {
    exists i :: 0 <= i <= |t| - |mark| && StandsAt(t, i, mark)
  }

  predicate ScopeOk(pack: seq<Member>)
  {
    StrAt(pack, SCOPE()).Some? && HasMark(StrAt(pack, SCOPE()).value, SCOPE_MARK())
  }

  predicate DigestOk(host: Host, pack: seq<Member>)
    requires Profile(Object(pack))
  {
    Get(pack, PACK_SHA3()) == Some(Str(DigestWithout(host.sha3, pack, PACK_SHA3())))
  }

  predicate SnapshotOk(pack: seq<Member>)
  {
    var v := Get(pack, VERIFICATION());
    v.Some? && v.value.Object? &&
    Get(v.value.members, CHAIN_OK()) == Some(Bool(true)) && Get(v.value.members, DIGESTS_BOUND()) == Some(Bool(true))
  }

  function Against1(s: Subject, ok: bool, r: Reason): (res: Tagged) { Tagged(s, if ok then Holds else Against(r)) }

  /** The form of the pack, with the refusals in the order they are checked. */
  function FormPart(pack: seq<Member>): (r: Part)
  {
    Part([Judge(PackJson, true), Judge(LayerName.PackKind, KindOk(pack)), Judge(PackSchema, SchemaOk(pack)),
          Judge(HonestScope, ScopeOk(pack))],
         [],
         (if KindOk(pack) then [] else [FormatUnsupported]) + (if SchemaOk(pack) then [] else [UnknownMember])
         + (if ScopeOk(pack) then [] else [Malformed]),
         {})
  }

  /** Its digest, and the verification its producer recorded in it. */
  function SealPart(host: Host, pack: seq<Member>): (r: Part)
    requires Profile(Object(pack))
  {
    Part([Judge(PackSha3, DigestOk(host, pack)), Judge(PackSelfVerification, SnapshotOk(pack))],
         [Against1(SealedContent, DigestOk(host, pack), DigestMismatch),
          Against1(SealedContent, SnapshotOk(pack), SelfVerificationFailed)],
         [], {})
  }

  function PackPart(host: Host, pack: seq<Member>): (r: Part)
    requires Profile(Object(pack))
  {
    Join(FormPart(pack), SealPart(host, pack))
  }

  // ---- the ledger ----------------------------------------------------------------------------------

  predicate FileNameOk(v: Text)
  {
    v != [] && v != Lit(".") && v != Lit("..") && forall k :: 0 <= k < |v| ==> v[k] != 47 && v[k] != 92 && v[k] != 0
  }

  /** The pack names its ledger, but not by a plain file name. */
  predicate NameBad(pack: seq<Member>)
  {
    var lf := Get(pack, LEDGER_FILE());
    lf.Some? && !lf.value.Null? && !(lf.value.Str? && FileNameOk(lf.value.s))
  }

  /** The caller's path wins; otherwise the name next to the pack. */
  function LedgerPath(host: Host, inputs: Inputs, pack: seq<Member>): (r: Option<Text>)
  {
    if inputs.ledgerPath.Some? then inputs.ledgerPath
    else if StrAt(pack, LEDGER_FILE()).Some? && !NameBad(pack) then Some(host.dir + StrAt(pack, LEDGER_FILE()).value)
    else None
  }

  predicate LedgerAsked(inputs: Inputs)
  {
    (inputs.ledgerPath.Some? && inputs.ledgerPath.value != []) || (inputs.logKey.Some? && inputs.logKey.value != [])
      || inputs.requireSources
  }

  predicate LedgerThere(host: Host, inputs: Inputs, pack: seq<Member>)
  {
    var lp := LedgerPath(host, inputs, pack);
    lp.Some? && lp.value != [] && Present(host.files(lp.value))
  }

  datatype LedgerRead = HostCannotRead | NotALedger | Entries(es: seq<Json>)

  function ReadLedger(f: File): (r: LedgerRead)
  {
    match f
    case Contents(b) => (match ReadEntries(b) case None => NotALedger case Some(es) => Entries(es))
    case NotRegular => NotALedger
    case _ => HostCannotRead
  }

  lemma ReadLedgerProfiles(f: File)
    ensures ReadLedger(f).Entries? ==> Profiles(ReadLedger(f).es)
  {
    if f.Contents? { ReadProfiles(f.bytes); }
  }

  predicate EntryKey(k: Text) { k == IDX() || k == TS() || k == DATA() || k == PREV() || k == SELF() }

  predicate HasUnknownKey(e: Json) { e.Object? && exists m :: m in e.members && !EntryKey(m.key) }

  predicate AnyUnknown(es: seq<Json>) { exists k :: 0 <= k < |es| && HasUnknownKey(es[k]) }

  function DataOf(e: Json): (r: seq<Member>)
  {
    var d := Get(Members(e), DATA());
    if d.Some? && d.value.Object? then d.value.members else []
  }

  lemma DataProfile(e: Json)
    requires Profile(e)
    ensures Profile(Object(DataOf(e)))
  {
    if e.Object? { Ledger.MemberProfile(e, DATA()); }
  }

  import Ledger

  function RECORD_SHA3(): (r: Text) { Lit("record_sha3") }
  function ANCHOR_KIND(): (r: Text) { Lit("cra_pack_anchor") }
  function ANCHORED_SHA3(): (r: Text) { Lit("anchored_pack_sha3") }
  function SBOM_KIND(): (r: Text) { Lit("cra_sbom") }

  predicate RecordKind(k: Text)
  {
    k == SBOM_KIND() || k == Lit("cra_vuln") || k == Lit("cra_srp_notice") || k == Lit("cra_longterm_seal")
      || k == ANCHOR_KIND()
  }

  predicate IsRecord(d: seq<Member>) { StrAt(d, KIND()).Some? && RecordKind(StrAt(d, KIND()).value) }

  /** The record carries the digest of its own content. */
  predicate Bound(h3: Hash, d: seq<Member>)
    requires Profile(Object(d))
  {
    Get(d, RECORD_SHA3()) == Some(Str(DigestWithout(h3, d, RECORD_SHA3())))
  }

  predicate RecordOk(h3: Hash, e: Json)
    requires Profile(e)
  {
    DataProfile(e);
    IsRecord(DataOf(e)) ==> Bound(h3, DataOf(e))
  }

  predicate AllBound(h3: Hash, es: seq<Json>)
    requires Profiles(es)
  {
    forall k :: 0 <= k < |es| ==> RecordOk(h3, es[k])
  }

  /** The entry anchors this pack. */
  predicate AnchorsPack(pack: seq<Member>, e: Json)
  {
    var d, own := DataOf(e), StrAt(pack, PACK_SHA3());
    StrAt(d, KIND()) == Some(ANCHOR_KIND()) && own.Some? && IsHexN(own.value, 64) && StrAt(d, ANCHORED_SHA3()) == own
  }

  function LastAnchor(pack: seq<Member>, es: seq<Json>): (r: Option<nat>)
    ensures r.Some? ==> r.value < |es|
  {
    if es == [] then None
    else if AnchorsPack(pack, es[|es| - 1]) then Some(|es| - 1)
    else LastAnchor(pack, es[..|es| - 1])
  }

  lemma {:induction false} LastAnchorExactly(pack: seq<Member>, es: seq<Json>)
    ensures LastAnchor(pack, es).Some? <==> exists k :: 0 <= k < |es| && AnchorsPack(pack, es[k])
    ensures var r := LastAnchor(pack, es);
      r.Some? ==> AnchorsPack(pack, es[r.value]) && forall k :: r.value < k < |es| ==> !AnchorsPack(pack, es[k])
  {
    hide AnchorsPack;
    if es != [] && !AnchorsPack(pack, es[|es| - 1]) {
      var less := es[..|es| - 1];
      LastAnchorExactly(pack, less);
      assert forall k :: 0 <= k < |less| ==> less[k] == es[k];
      if exists k :: 0 <= k < |es| && AnchorsPack(pack, es[k]) {
        var k :| 0 <= k < |es| && AnchorsPack(pack, es[k]);
        assert AnchorsPack(pack, less[k]);
      }
    }
  }

  /** The ledger state the pack declares is the state the ledger had at that point, before the anchor. */
  predicate StateAgrees(pack: seq<Member>, es: seq<Json>, anchor: Option<nat>)
  {
    var n := Get(pack, LEDGER_ENTRIES());
    && n.Some? && n.value.Int? && 0 < n.value.n <= |es|
    && Get(Members(es[n.value.n - 1]), SELF()) == Get(pack, LAST_SELF())
    && (anchor.None? || anchor.value >= n.value.n)
  }

  function AnchorPart(host: Host, pack: seq<Member>, es: seq<Json>): (r: Part)
    requires Profiles(es)
  {
    var bound, anchor := AllBound(host.sha3, es), LastAnchor(pack, es);
    var state := StateAgrees(pack, es, anchor);
    Part([Judge(LedgerChain, bound && anchor.Some?), Judge(PackLedgerState, state)],
         [Tagged(LedgerAnchor,
                 if !bound then Against(RecordUnbound) else if anchor.None? then Against(NotAnchored) else Holds),
          Against1(LedgerAnchor, state, StateMismatch)],
         [], {})
  }

  // ---- source documents ----------------------------------------------------------------------------

  datatype SourceRef = NoSource | BadSource | Source(hash: Text)

  predicate ExternalFormat(t: Text) { t == Lit("cyclonedx-json") || t == Lit("spdx-json") || t == Lit("spdx-jsonld") }

  /** The source document an entry records. */
  function RefOf(e: Json): (r: SourceRef)
  {
    var d := DataOf(e);
    var src := Get(d, Lit("source"));
    if StrAt(d, KIND()) != Some(SBOM_KIND()) || src.None? || !src.value.Object? then NoSource
    else
      var sha := Get(src.value.members, Lit("sha256"));
      if sha.None? || sha.value.Null? || sha.value == Str([]) then
        var f := StrAt(src.value.members, Lit("format"));
        if f.Some? && ExternalFormat(f.value) then BadSource else NoSource
      else if sha.value.Str? && IsHexN(sha.value.s, 64) then Source(sha.value.s)
      else BadSource
  }

  /** The hashes recorded, each once, as first seen. */
  function FirstSeen(es: seq<Json>): (r: seq<Text>)
  {
    if es == [] then []
    else
      var w, r := FirstSeen(es[..|es| - 1]), RefOf(es[|es| - 1]);
      if r.Source? && r.hash !in w then w + [r.hash] else w
  }

  function BadCount(es: seq<Json>): (r: nat)
  {
    if es == [] then 0 else BadCount(es[..|es| - 1]) + if RefOf(es[|es| - 1]).BadSource? then 1 else 0
  }

  lemma {:induction false} SeenExactly(es: seq<Json>)
    ensures forall h :: h in FirstSeen(es) <==> exists k :: 0 <= k < |es| && RefOf(es[k]) == Source(h)
    ensures BadCount(es) > 0 <==> exists k :: 0 <= k < |es| && RefOf(es[k]).BadSource?
  {
    hide RefOf;
    if es != [] {
      var less, last := es[..|es| - 1], es[|es| - 1];
      SeenExactly(less);
      assert forall k :: 0 <= k < |less| ==> less[k] == es[k];
      assert es == less + [last];
      forall h ensures h in FirstSeen(es) <==> exists k :: 0 <= k < |es| && RefOf(es[k]) == Source(h) {
        if h in FirstSeen(less) {
          var k :| 0 <= k < |less| && RefOf(less[k]) == Source(h);
          assert RefOf(es[k]) == Source(h);
        } else if RefOf(last) == Source(h) {
          assert RefOf(es[|less|]) == Source(h);
        }
      }
      if BadCount(less) > 0 {
        var k :| 0 <= k < |less| && RefOf(less[k]).BadSource?;
        assert RefOf(es[k]).BadSource?;
      }
      assert RefOf(es[|less|]) == RefOf(last);
    }
  }

  function SourcePath(lp: Text, h: Text): (r: Text) { lp + Lit(".sources/") + h + Lit(".json") }

  function DocElement(host: Host, lp: Text, h: Text): (r: Element)
  {
    match host.files(SourcePath(lp, h))
    case NoEntry => Unjudged(HashOnly)
    case NotRegular => Against(SourceMismatch)
    case Contents(b) =>
      if |b| <= MAX_SOURCE_BYTES && Digest(host.sha256, b) == h then Holds else Against(SourceMismatch)
    case _ => Unjudged(Unreadable)
  }

  function DocElements(host: Host, lp: Text, hs: seq<Text>): (r: seq<Tagged>)
  {
    if hs == [] then []
    else DocElements(host, lp, hs[..|hs| - 1]) + [Tagged(SourceDocuments, DocElement(host, lp, hs[|hs| - 1]))]
  }

  function MalformedElements(n: nat): (r: seq<Tagged>)
  {
    if n == 0 then [] else MalformedElements(n - 1) + [Tagged(SourceDocuments, Against(RecordMalformed))]
  }

  lemma {:induction false} DocElementsExactly(host: Host, lp: Text, hs: seq<Text>)
    ensures forall t :: t in DocElements(host, lp, hs) <==>
      exists h :: h in hs && t == Tagged(SourceDocuments, DocElement(host, lp, h))
  {
    hide DocElement;
    if hs != [] {
      DocElementsExactly(host, lp, hs[..|hs| - 1]);
      assert hs == hs[..|hs| - 1] + [hs[|hs| - 1]];
    }
  }

  lemma {:induction false} MalformedExactly(n: nat)
    ensures forall t :: t in MalformedElements(n) <==> n > 0 && t == Tagged(SourceDocuments, Against(RecordMalformed))
  {
    if n > 0 { MalformedExactly(n - 1); }
  }

  function SourceElements(host: Host, lp: Text, es: seq<Json>): (r: seq<Tagged>)
  {
    MalformedElements(BadCount(es)) + DocElements(host, lp, SortKeys(FirstSeen(es)))
  }

  predicate BadElement(t: Tagged) { t.e.Against? || t.e == Unjudged(Unreadable) }

  predicate SourcesBad(ts: seq<Tagged>) { exists t :: t in ts && BadElement(t) }

  predicate SourcesMissing(ts: seq<Tagged>) { Tagged(SourceDocuments, Unjudged(HashOnly)) in ts }

  function SourceStatus(ts: seq<Tagged>, require: bool): (r: Status)
  {
    if ts == [] then Skip
    else if SourcesBad(ts) then Status.Fail
    else if SourcesMissing(ts) then (if require then Status.Fail else Skip)
    else Pass
  }

  function SourcePart(host: Host, lp: Text, es: seq<Json>, require: bool): (r: Part)
  {
    var ts := SourceElements(host, lp, es);
    Part([Layer(SourceLayer, SourceStatus(ts, require), true)], ts, [],
         if require && SourcesMissing(ts) then {SourcesRequired} else {})
  }

  // ---- the signed tip ------------------------------------------------------------------------------

  function TipPath(lp: Text): (r: Text) { lp + Lit(".tip.json") }

  function TipElement(v: Verdict): (r: Element)
  {
    match v
    case Accepted => Holds
    case Unchecked => Unjudged(InstrumentFailure)
    case NotATip => Against(TipInvalid)
    case BadFields => Against(TipInvalid)
    case OtherKey => Against(TipInvalid)
    case WeakKey => Against(TipInvalid)
    case BadSignature => Against(TipInvalid)
    case _ => Against(TailMismatch)
  }

  function TipJudged(e: Element): (r: Part)
  {
    Part([Layer(TipLayer, if e.Holds? then Pass else Status.Fail, e != Unjudged(InstrumentFailure))],
         [Tagged(SignedTip, e)], [], {})
  }

  function TipVerdict(host: Host, key: Text, lp: Text, es: seq<Json>): (r: Element)
    requires es != []
  {
    var doc := ReadDoc(host.files(TipPath(lp)));
    ReadDocProfile(host.files(TipPath(lp)));
    if doc.HostError? then Unjudged(Unreadable)
    else if doc.BadDoc? then Against(TipInvalid)
    else TipElement(PyVerifyTip(host.ed, host.crypto, doc.value, key, |es|, SelfHash(es[0]), SelfHash(es[|es| - 1])))
  }

  function TipPart(host: Host, logKey: Option<Text>, lp: Text, es: seq<Json>): (r: Part)
    requires es != []
  {
    var f := host.files(TipPath(lp));
    if logKey.Some? && logKey.value != [] then
      if !Present(f) then Part([Judge(TipLayer, false)], [Tagged(SignedTip, Unjudged(NotPresent))], [], {TipRequired})
      else TipJudged(TipVerdict(host, logKey.value, lp, es))
    else if Present(f) then Part([Layer(TipLayer, Skip, true)], [Tagged(SignedTip, Unjudged(KeyNotGiven))], [], {})
    else Part([Layer(TipLayer, Skip, true)], [], [], {})
  }

  // ---- the ledger stage ----------------------------------------------------------------------------

  /** The tip and the sources were not looked at. */
  function NotLooked(): (r: Part)
  {
    Part([], [Tagged(SignedTip, Unjudged(LedgerNotVerified)), Tagged(SourceDocuments, Unjudged(LedgerNotVerified))],
         [], {})
  }

  function ChainFailed(e: Element): (r: Part) { Part([Judge(LedgerChain, false)], [Tagged(LedgerAnchor, e)], [], {}) }

  function SchemaPart(es: seq<Json>): (r: Part)
  {
    if AnyUnknown(es)
    then Part([Judge(LedgerSchema, false)], [Tagged(LedgerAnchor, Against(EntryUnknownMember))], [], {})
    else EMPTY
  }

  ghost function EntriesPart(host: Host, inputs: Inputs, pack: seq<Member>, lp: Text, es: seq<Json>): (r: Part)
    requires Profiles(es)
  {
    if !ChainOk(host.sha256, es) then Join(Join(SchemaPart(es), ChainFailed(Against(ChainBroken))), NotLooked())
    else
      Join(Join(Join(SchemaPart(es), AnchorPart(host, pack, es)), SourcePart(host, lp, es, inputs.requireSources)),
           TipPart(host, inputs.logKey, lp, es))
  }

  ghost function LedgerPart(host: Host, inputs: Inputs, pack: seq<Member>): (r: Part)
  {
    if NameBad(pack) then Join(Part([Judge(LedgerChain, false)], [], [Malformed], {}), NotLooked())
    else if LedgerThere(host, inputs, pack) then
      var lp := LedgerPath(host, inputs, pack).value;
      var r := ReadLedger(host.files(lp));
      ReadLedgerProfiles(host.files(lp));
      if r.HostCannotRead? then Join(ChainFailed(Unjudged(Unreadable)), NotLooked())
      else if r.NotALedger? then Join(ChainFailed(Against(LedgerMalformed)), NotLooked())
      else EntriesPart(host, inputs, pack, lp, r.es)
    else if LedgerAsked(inputs) then
      Join(Part([Judge(LedgerChain, false)], [Tagged(LedgerAnchor, Unjudged(NotPresent))], [], {LedgerRequired}),
           NotLooked())
    else Join(Part([Layer(LedgerChain, Skip, true)], [], [], {}), NotLooked())
  }

  /** The ledger verifies, its records are bound, and this pack is anchored in it. */
  ghost predicate AnchoredIn(host: Host, inputs: Inputs, pack: seq<Member>)
  {
    && !NameBad(pack) && LedgerThere(host, inputs, pack)
    && var f := host.files(LedgerPath(host, inputs, pack).value);
       f.Contents? && FileOk(host.sha256, f.bytes) && AllBound(host.sha3, ReadEntries(f.bytes).value)
       && LastAnchor(pack, ReadEntries(f.bytes).value).Some?
  }

  // ---- the producer's signature --------------------------------------------------------------------

  function ProducerElement(sig: SignatureResult, store: bool): (r: Element)
  {
    if sig.status == Pass then
      if !store then Unjudged(SelfAsserted) else if sig.trusted then Holds else Unjudged(KeyUnresolved)
    else if sig.reason in {NotPresent, InstrumentFailure, Unreadable} then Unjudged(sig.reason)
    else Against(sig.reason)
  }

  function ProducerPart(sig: SignatureResult, store: bool): (r: Part)
  {
    Part([Layer(ProducerLayer, sig.status, sig.assessed)]
         + (if store && (sig.status == Skip || (sig.status == Pass && !sig.trusted)) then
            [Judge(TrustedSignerLayer, false)] else []),
         [Tagged(ProducerSignature, ProducerElement(sig, store))], [],
         if store && !(sig.status == Pass && sig.trusted) then {TrustedSigner} else {})
  }

  // ---- the whole run -------------------------------------------------------------------------------

  ghost function RunPart(host: Host, inputs: Inputs, pack: seq<Member>): (r: Part)
    requires Profile(Object(pack))
  {
    Join(Join(PackPart(host, pack), LedgerPart(host, inputs, pack)),
         ProducerPart(CheckSignature(host, inputs.path, inputs.store, pack), inputs.store.Some?))
  }

  function Unparsable(): (r: Receipt)
  {
    Receipt(false, true, FailedAuth, false, [Judge(PackJson, false)], Refused(Malformed))
  }

  /** The receipt of `_verify`. */
  ghost function ReceiptOf(host: Host, inputs: Inputs): (r: Receipt)
  {
    var doc := ReadDoc(host.files(inputs.path));
    ReadDocProfile(host.files(inputs.path));
    if !doc.Doc? || !doc.value.Object? then Unparsable()
    else
      var pack := doc.value.members;
      Conclude(RunPart(host, inputs, pack), CheckSignature(host, inputs.path, inputs.store, pack), inputs.store.Some?,
               AnchoredIn(host, inputs, pack))
  }
}
