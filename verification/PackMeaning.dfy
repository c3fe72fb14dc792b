/** What `ok` means: the conditions a pack, its ledger, its tip and its signature meet when a receipt is ok,
    said without layers, elements or stages. */
module PackMeaning {
  import opened Texts
  import opened JsonValues
  import opened Chain
  import opened Tip
  import opened TipCheck
  import opened PackReceipt
  import opened PackHost
  import opened PackSpec
  import GoCanonical
  import Refusal
  import VerifyPack

  ghost predicate WellFormedPack(host: Host, pack: seq<Member>)
    requires Profile(Object(pack))
  {
    KindOk(pack) && SchemaOk(pack) && ScopeOk(pack) && DigestOk(host, pack) && SnapshotOk(pack)
  }

  /** A recorded source document is where its hash says, or nowhere (which --require-sources does not allow). */
  ghost predicate DocumentFine(host: Host, lp: Text, h: Text, require: bool)
  {
    var f := host.files(SourcePath(lp, h));
    (f.NoEntry? && !require) || (f.Contents? && |f.bytes| <= MAX_SOURCE_BYTES && Digest(host.sha256, f.bytes) == h)
  }

  ghost predicate SourcesFine(host: Host, lp: Text, es: seq<Json>, require: bool)
  {
    forall k :: 0 <= k < |es| ==>
      !RefOf(es[k]).BadSource? && (RefOf(es[k]).Source? ==> DocumentFine(host, lp, RefOf(es[k]).hash, require))
  }

  ghost predicate TipFine(host: Host, logKey: Option<Text>, lp: Text, es: seq<Json>)
    requires es != []
  {
    logKey.Some? && logKey.value != [] ==>
      var doc := ReadDoc(host.files(TipPath(lp)));
      doc.Doc? && Profile(doc.value) &&
      PyVerifyTip(host.ed, host.crypto, doc.value, logKey.value, |es|, SelfHash(es[0]), SelfHash(es[|es| - 1]))
        == Accepted
  }

  /** The ledger at this path verifies, knows no other fields, binds its records, and anchors the pack at or after
      the state the pack declares. */
  ghost predicate LedgerFine(host: Host, inputs: Inputs, pack: seq<Member>, lp: Text, es: seq<Json>)
    requires Profiles(es)
  {
    && ChainOk(host.sha256, es) && !AnyUnknown(es) && AllBound(host.sha3, es)
    && LastAnchor(pack, es).Some? && StateAgrees(pack, es, LastAnchor(pack, es))
    && SourcesFine(host, lp, es, inputs.requireSources) && TipFine(host, inputs.logKey, lp, es)
  }

  ghost predicate LedgerStageFine(host: Host, inputs: Inputs, pack: seq<Member>)
  {
    && !NameBad(pack)
    && if LedgerThere(host, inputs, pack) then
         var lp := LedgerPath(host, inputs, pack).value;
         var r := ReadLedger(host.files(lp));
         r.Entries? && Profiles(r.es) && LedgerFine(host, inputs, pack, lp, r.es)
       else !LedgerAsked(inputs)
  }

  /** A valid signature, by a trusted key if there is a trust store; or no sidecar at all, no trust store, and the
      anchor as the only basis. */
  ghost predicate AuthenticityFine(host: Host, inputs: Inputs, pack: seq<Member>)
    requires Profile(Object(pack))
  {
    var sig := CheckSignature(host, inputs.path, inputs.store, pack);
    if exists side :: SignedBy(host, inputs.path, pack, side) then inputs.store.Some? ==> sig.trusted
    else !Present(SidecarFile(host, inputs.path)) && inputs.store.None? && AnchoredIn(host, inputs, pack)
  }

  ghost predicate Acceptable(host: Host, inputs: Inputs)
  {
    var doc := ReadDoc(host.files(inputs.path));
    && doc.Doc? && doc.value.Object? && Profile(doc.value)
    && WellFormedPack(host, doc.value.members)
    && LedgerStageFine(host, inputs, doc.value.members)
    && AuthenticityFine(host, inputs, doc.value.members)
  }

  // ---- stage by stage ------------------------------------------------------------------------------

  lemma FormPasses(pack: seq<Member>)
    ensures !Failing(FormPart(pack)) <==> KindOk(pack) && SchemaOk(pack) && ScopeOk(pack)
  {
    hide KindOk, SchemaOk, ScopeOk;
    var p := FormPart(pack);
    assert p.layers[1] in p.layers && p.layers[2] in p.layers && p.layers[3] in p.layers;
  }

  lemma TwoLayers(a: Layer, b: Layer, p: Part)
    requires p.layers == [a, b]
    ensures Failing(p) <==> a.status == Status.Fail || b.status == Status.Fail
  {
    assert a in p.layers && b in p.layers;
  }

  lemma SealPasses(host: Host, pack: seq<Member>)
    requires Profile(Object(pack))
    ensures !Failing(SealPart(host, pack)) <==> DigestOk(host, pack) && SnapshotOk(pack)
  {
    hide DigestOk, SnapshotOk, Failing;
    TwoLayers(Judge(PackSha3, DigestOk(host, pack)), Judge(PackSelfVerification, SnapshotOk(pack)),
              SealPart(host, pack));
  }

  lemma AnchorPasses(host: Host, pack: seq<Member>, es: seq<Json>)
    requires Profiles(es)
    ensures !Failing(AnchorPart(host, pack, es)) <==>
      AllBound(host.sha3, es) && LastAnchor(pack, es).Some? && StateAgrees(pack, es, LastAnchor(pack, es))
  {
    hide AllBound, LastAnchor, StateAgrees, Failing, Profile;
    var anchor := LastAnchor(pack, es);
    TwoLayers(Judge(LedgerChain, AllBound(host.sha3, es) && anchor.Some?),
              Judge(PackLedgerState, StateAgrees(pack, es, anchor)),
              AnchorPart(host, pack, es));
  }

  lemma OneStatus(l: Layer, p: Part)
    requires p.layers == [l]
    ensures Failing(p) <==> l.status == Status.Fail
  {
    assert l in p.layers;
  }

  lemma DocumentElement(host: Host, lp: Text, h: Text, require: bool)
    ensures var t := Tagged(SourceDocuments, DocElement(host, lp, h));
      DocumentFine(host, lp, h, require) <==> !BadElement(t) && !(require && t.e == Unjudged(HashOnly))
  {
    hide SourcePath, Digest;
  }

  /** The source layer passes or is skipped exactly when every record is well formed and every document is fine. */
  lemma SourcePasses(host: Host, lp: Text, es: seq<Json>, require: bool)
    ensures !Failing(SourcePart(host, lp, es, require)) <==> SourcesFine(host, lp, es, require)
  {
    hide DocElements, MalformedElements, GoCanonical.SortKeys, FirstSeen, BadCount, DocElement, DocumentFine, RefOf,
      SourcesFine, Failing, SourcesBad, SourcesMissing;
    var hs := GoCanonical.SortKeys(FirstSeen(es));
    var bad, docs := MalformedElements(BadCount(es)), DocElements(host, lp, hs);
    VerifyPack.StatusOfSources(bad, docs, BadCount(es));
    OneStatus(Layer(SourceLayer, SourceStatus(bad + docs, require), true), SourcePart(host, lp, es, require));
    MissingOrBad(bad + docs);
    SeenExactly(es);
    DocumentsFine(host, lp, hs, require);
    SourcesByHash(host, lp, es, hs, require);
  }

  lemma MissingOrBad(ts: seq<Tagged>)
    ensures SourcesBad(ts) || SourcesMissing(ts) ==> ts != []
  {}

  lemma DocumentsFine(host: Host, lp: Text, hs: seq<Text>, require: bool)
    ensures var ts := DocElements(host, lp, hs);
      !SourcesBad(ts) && !(require && SourcesMissing(ts)) <==>
        forall h :: h in hs ==> DocumentFine(host, lp, h, require)
  {
    hide DocElement, DocumentFine, DocElements;
    var ts := DocElements(host, lp, hs);
    DocElementsExactly(host, lp, hs);
    forall h | h in hs
      ensures Tagged(SourceDocuments, DocElement(host, lp, h)) in ts
      ensures DocumentFine(host, lp, h, require) <==>
        !BadElement(Tagged(SourceDocuments, DocElement(host, lp, h)))
          && !(require && DocElement(host, lp, h) == Unjudged(HashOnly))
    {
      DocumentElement(host, lp, h, require);
    }
  }

  lemma SourcesByHash(host: Host, lp: Text, es: seq<Json>, hs: seq<Text>, require: bool)
    requires forall h :: h in hs <==> exists k :: 0 <= k < |es| && RefOf(es[k]) == Source(h)
    requires BadCount(es) > 0 <==> exists k :: 0 <= k < |es| && RefOf(es[k]).BadSource?
    ensures SourcesFine(host, lp, es, require) <==>
      BadCount(es) == 0 && forall h :: h in hs ==> DocumentFine(host, lp, h, require)
  {
    hide RefOf, DocumentFine, BadCount;
    if SourcesFine(host, lp, es, require) {
      forall h | h in hs ensures DocumentFine(host, lp, h, require) {
        var k :| 0 <= k < |es| && RefOf(es[k]) == Source(h);
      }
    }
    if BadCount(es) == 0 && forall h :: h in hs ==> DocumentFine(host, lp, h, require) {
      forall k | 0 <= k < |es|
        ensures !RefOf(es[k]).BadSource?
          && (RefOf(es[k]).Source? ==> DocumentFine(host, lp, RefOf(es[k]).hash, require))
      {
        if RefOf(es[k]).Source? { assert RefOf(es[k]) == Source(RefOf(es[k]).hash); }
      }
    }
  }

  lemma TipPasses(host: Host, logKey: Option<Text>, lp: Text, es: seq<Json>)
    requires es != []
    ensures !Failing(TipPart(host, logKey, lp, es)) <==> TipFine(host, logKey, lp, es)
  {
    hide TipPath, ReadDoc, PyVerifyTip, SelfHash, Profile, Failing;
    var f := host.files(TipPath(lp));
    ReadDocProfile(f);
    AbsentHasNoDoc(f);
    var p := TipPart(host, logKey, lp, es);
    OneStatus(p.layers[0], p);
  }

  lemma AbsentHasNoDoc(f: File)
    ensures !Present(f) ==> ReadDoc(f).HostError?
  {}

  lemma NotLookedPasses(p: Part)
    ensures Failing(Join(p, NotLooked())) <==> Failing(p)
  {
    JoinParts(p, NotLooked());
    assert NotLooked().layers == [];
  }

  lemma SchemaPasses(es: seq<Json>)
    ensures Failing(SchemaPart(es)) <==> AnyUnknown(es)
  {
    hide AnyUnknown;
    if AnyUnknown(es) { assert Judge(LedgerSchema, false) in SchemaPart(es).layers; }
  }

  lemma EntriesPass(host: Host, inputs: Inputs, pack: seq<Member>, lp: Text, es: seq<Json>)
    requires Profiles(es)
    ensures !Failing(EntriesPart(host, inputs, pack, lp, es)) <==> LedgerFine(host, inputs, pack, lp, es)
  {
    hide AnyUnknown, ChainOk, AnchorPart, SourcePart, TipPart, SchemaPart, Profile, Join, Failing, AllBound,
      LastAnchor, StateAgrees, SourcesFine, TipFine;
    SchemaPasses(es);
    VerifyPack.ChainHasEntries(host.sha256, es);
    if !ChainOk(host.sha256, es) {
      var p := Join(SchemaPart(es), ChainFailed(Against(ChainBroken)));
      NotLookedPasses(p);
      JoinParts(SchemaPart(es), ChainFailed(Against(ChainBroken)));
      OneStatus(Judge(LedgerChain, false), ChainFailed(Against(ChainBroken)));
    } else {
      AnchorPasses(host, pack, es);
      SourcePasses(host, lp, es, inputs.requireSources);
      TipPasses(host, inputs.logKey, lp, es);
      var a, b := SchemaPart(es), AnchorPart(host, pack, es);
      JoinParts(a, b);
      JoinParts(Join(a, b), SourcePart(host, lp, es, inputs.requireSources));
      JoinParts(Join(Join(a, b), SourcePart(host, lp, es, inputs.requireSources)),
                TipPart(host, inputs.logKey, lp, es));
    }
  }

  lemma LedgerPasses(host: Host, inputs: Inputs, pack: seq<Member>)
    ensures !Failing(LedgerPart(host, inputs, pack)) <==> LedgerStageFine(host, inputs, pack)
  {
    hide NameBad, LedgerThere, LedgerPath, ReadLedger, EntriesPart, Join, LedgerAsked, ChainFailed, LedgerFine,
      Failing, NotLooked;
    if NameBad(pack) {
      NotLookedPasses(Part([Judge(LedgerChain, false)], [], [Malformed], {}));
      OneStatus(Judge(LedgerChain, false), Part([Judge(LedgerChain, false)], [], [Malformed], {}));
    } else if LedgerThere(host, inputs, pack) {
      VerifyPack.PathOfThere(host, inputs, pack);
      var lp := LedgerPath(host, inputs, pack).value;
      ReadLedgerProfiles(host.files(lp));
      var r := ReadLedger(host.files(lp));
      if r.Entries? {
        EntriesPass(host, inputs, pack, lp, r.es);
      } else {
        var e := if r.HostCannotRead? then Unjudged(Unreadable) else Against(LedgerMalformed);
        NotLookedPasses(ChainFailed(e));
        ChainFailedFails(e);
      }
    } else if LedgerAsked(inputs) {
      var p := Part([Judge(LedgerChain, false)], [Tagged(LedgerAnchor, Unjudged(NotPresent))], [], {LedgerRequired});
      NotLookedPasses(p);
      OneStatus(Judge(LedgerChain, false), p);
    } else {
      var p := Part([Layer(LedgerChain, Skip, true)], [], [], {});
      NotLookedPasses(p);
      OneStatus(Layer(LedgerChain, Skip, true), p);
    }
  }

  lemma ChainFailedFails(e: Element)
    ensures Failing(ChainFailed(e))
  {
    OneStatus(Judge(LedgerChain, false), ChainFailed(e));
  }

  lemma ProducerPasses(sig: SignatureResult, store: bool, anchored: bool)
    ensures !Failing(ProducerPart(sig, store)) && Authenticate(sig, store, anchored) != FailedAuth <==>
      (sig.status == Pass && (store ==> sig.trusted)) || (sig.status == Skip && !store && anchored)
  {
    var p := ProducerPart(sig, store);
    assert p.layers[0] in p.layers;
    if |p.layers| > 1 { assert p.layers[1] in p.layers; }
  }

  lemma SkippedMeans(host: Host, inputs: Inputs, pack: seq<Member>)
    requires Profile(Object(pack))
    ensures CheckSignature(host, inputs.path, inputs.store, pack).status == Skip <==>
      !Present(SidecarFile(host, inputs.path))
  {
    hide SidecarFile, ReadDoc, CheckSidecar, Profile;
    var file := SidecarFile(host, inputs.path);
    ReadDocProfile(file);
    if ReadDoc(file).Doc? && ReadDoc(file).value.Object? {
      SidecarForms(host, inputs.store, pack, ReadDoc(file).value.members);
    }
  }

  /** A receipt is ok exactly when the pack is acceptable: every clause on the right is necessary, and together
      they are enough. */
  lemma OkMeans(host: Host, inputs: Inputs)
    ensures ReceiptOf(host, inputs).ok <==> Acceptable(host, inputs)
  {
    hide RunPart, CheckSignature, AnchoredIn, Profile, ReadDoc, Failing, LedgerStageFine, WellFormedPack,
      AuthenticityFine, Judged, Unassessed, StatesOf, PackReceipt.InOrder;
    var file := host.files(inputs.path);
    ReadDocProfile(file);
    if ReadDoc(file).Doc? && ReadDoc(file).value.Object? { OkMeansPack(host, inputs, ReadDoc(file).value.members); }
  }

  lemma OkMeansPack(host: Host, inputs: Inputs, pack: seq<Member>)
    requires Profile(Object(pack))
    ensures var sig, anchored := CheckSignature(host, inputs.path, inputs.store, pack), AnchoredIn(host, inputs, pack);
      !Failing(RunPart(host, inputs, pack)) && Authenticate(sig, inputs.store.Some?, anchored) != FailedAuth <==>
      WellFormedPack(host, pack) && LedgerStageFine(host, inputs, pack) && AuthenticityFine(host, inputs, pack)
  {
    hide CheckSignature, AnchoredIn, Profile, Failing, LedgerPart, FormPart, SealPart, ProducerPart, Authenticate,
      Join, KindOk, SchemaOk, ScopeOk, DigestOk, SnapshotOk, LedgerStageFine, SignedBy, SidecarFile;
    var sig, anchored := CheckSignature(host, inputs.path, inputs.store, pack), AnchoredIn(host, inputs, pack);
    FormPasses(pack);
    SealPasses(host, pack);
    LedgerPasses(host, inputs, pack);
    ProducerPasses(sig, inputs.store.Some?, anchored);
    SignaturePasses(host, inputs.path, inputs.store, pack);
    SkippedMeans(host, inputs, pack);
    JoinParts(FormPart(pack), SealPart(host, pack));
    JoinParts(PackPart(host, pack), LedgerPart(host, inputs, pack));
    JoinParts(Join(PackPart(host, pack), LedgerPart(host, inputs, pack)), ProducerPart(sig, inputs.store.Some?));
  }

  /** A pack that parsed can always be canonicalised: the branch of `_verify` for one that can not is never taken. */
  lemma ParsedPackHasDigest(f: File, pack: seq<Member>)
    requires ReadDoc(f) == Doc(Object(pack))
    ensures !Refusal.Refuses(Object(Without(pack, PACK_SHA3())), 0)
  {
    hide ReadDoc, Without, PACK_SHA3, Profile, Refusal.Refuses;
    ReadDocProfile(f);
    WithoutProfile(pack, PACK_SHA3());
    var w := Object(Without(pack, PACK_SHA3()));
    WithoutDepth(pack, PACK_SHA3());
    ProfileWellFormed(w);
    Refusal.RefusesExactly(w, 0);
    Refusal.ReachNearDepth(w);
  }

  lemma {:induction false} WithoutDepth(ms: seq<Member>, k: Text)
    ensures MembersDepth(Without(ms, k)) <= MembersDepth(ms)
  {
    if ms != [] {
      WithoutDepth(ms[1..], k);
      var w := Without(ms[1..], k);
      assert ([ms[0]] + w)[1..] == w;
    }
  }

  lemma {:induction false} ProfileWellFormed(v: Json)
    requires Profile(v)
    ensures Refusal.WellFormed(v)
    decreases v
  {
    match v {
      case Array(items) =>
        forall k | 0 <= k < |items| ensures Refusal.WellFormed(items[k]) { ProfileWellFormed(items[k]); }
      case Object(ms) =>
        forall k | 0 <= k < |ms| ensures Refusal.CodePoints(ms[k].key) && Refusal.WellFormed(ms[k].val) {
          ProfileWellFormed(ms[k].val);
        }
      case _ =>
    }
  }
}
