/** cra_evidence/verify_pack.py `_verify`: the run over a pack, stage by stage, into the lists it keeps. */
module VerifyPack {
  import opened Texts
  import opened JsonValues
  import opened Chain
  import opened GoCanonical
  import opened TipCheck
  import opened PackReceipt
  import opened PackHost
  import opened PackSpec

  /** The lists `_verify` appends to. */
  class Findings {
    var layers: seq<Layer>
    var elements: seq<Tagged>
    var refusal: seq<RefusalClass>
    var unmet: set<Unmet>

    function Value(): (r: Part) reads this { Part(layers, elements, refusal, unmet) }

    constructor ()
      ensures Value() == EMPTY
    {
      layers, elements, refusal, unmet := [], [], [], {};
    }

    method AddLayer(name: LayerName, ok: bool)
      modifies this
      ensures Value() == old(Value()).(layers := old(layers) + [Judge(name, ok)])
    {
      layers := layers + [Judge(name, ok)];
    }

    method AddElement(s: Subject, e: Element)
      modifies this
      ensures Value() == old(Value()).(elements := old(elements) + [Tagged(s, e)])
    {
      elements := elements + [Tagged(s, e)];
    }

    method Refuse(c: RefusalClass)
      modifies this
      ensures Value() == old(Value()).(refusal := old(refusal) + [c])
    {
      refusal := refusal + [c];
    }

    method Miss(u: Unmet)
      modifies this
      ensures Value() == old(Value()).(unmet := old(unmet) + {u})
    {
      unmet := unmet + {u};
    }

    method Take(p: Part)
      modifies this
      ensures Value() == Join(old(Value()), p)
    {
      layers, elements, refusal, unmet := layers + p.layers, elements + p.elements, refusal + p.refusal, unmet
        + p.unmet;
    }
  }

  lemma JoinTwice(a: Part, b: Part, c: Part)
    ensures Join(Join(a, b), c) == Join(a, Join(b, c))
  {
    assert a.layers + b.layers + c.layers == a.layers + (b.layers + c.layers);
    assert a.elements + b.elements + c.elements == a.elements + (b.elements + c.elements);
    assert a.refusal + b.refusal + c.refusal == a.refusal + (b.refusal + c.refusal);
    assert a.unmet + b.unmet + c.unmet == a.unmet + (b.unmet + c.unmet);
  }

  lemma JoinEmpty(a: Part)
    ensures Join(EMPTY, a) == a && Join(a, EMPTY) == a
  {}

  // ---- the pack ------------------------------------------------------------------------------------

  /** Kind, closed schema and declared limit. */
  method JudgeForm(pack: seq<Member>, f: Findings)
    modifies f
    ensures f.Value() == Join(old(f.Value()), FormPart(pack))
  {
    hide KindOk, SchemaOk, ScopeOk;
    ghost var before := f.Value();
    f.AddLayer(PackJson, true);
    var kind := KindOk(pack);
    if !kind { f.Refuse(FormatUnsupported); }
    f.AddLayer(LayerName.PackKind, kind);
    var schema := SchemaOk(pack);
    if !schema { f.Refuse(UnknownMember); }
    f.AddLayer(PackSchema, schema);
    var scope := ScopeOk(pack);
    if !scope { f.Refuse(Malformed); }
    f.AddLayer(HonestScope, scope);
    assert f.unmet == before.unmet + {} && f.elements == before.elements + [];
  }

  /** The digest recomputed from the content, and the pack's own verification snapshot. */
  method JudgeSeal(host: Host, pack: seq<Member>, f: Findings)
    requires Profile(Object(pack))
    modifies f
    ensures f.Value() == Join(old(f.Value()), SealPart(host, pack))
  {
    hide DigestOk, SnapshotOk, Profile;
    ghost var before := f.Value();
    var digest := DigestOk(host, pack);
    f.AddElement(SealedContent, if digest then Holds else Against(DigestMismatch));
    f.AddLayer(PackSha3, digest);
    var snapshot := SnapshotOk(pack);
    f.AddElement(SealedContent, if snapshot then Holds else Against(SelfVerificationFailed));
    f.AddLayer(PackSelfVerification, snapshot);
    assert f.unmet == before.unmet + {} && f.refusal == before.refusal + [];
  }

  // ---- the ledger ----------------------------------------------------------------------------------

  /** The loop over the records: are they bound, and where is this pack anchored last? */
  method ScanRecords(h3: Hash, pack: seq<Member>, es: seq<Json>) returns (bound: bool, anchor: Option<nat>)
    requires Profiles(es)
    ensures bound == AllBound(h3, es) && anchor == LastAnchor(pack, es)
  {
    hide RecordOk, AnchorsPack, Profile, Depth;
    bound, anchor := true, None;
    for k := 0 to |es|
      invariant bound == forall i :: 0 <= i < k ==> RecordOk(h3, es[i])
      invariant anchor == LastAnchor(pack, es[..k])
    {
      assert es[..k + 1][..k] == es[..k] && es[..k + 1][k] == es[k];
      if !RecordOk(h3, es[k]) { bound := false; }
      if AnchorsPack(pack, es[k]) { anchor := Some(k); }
    }
    assert es[..|es|] == es;
  }

  method JudgeAnchor(host: Host, pack: seq<Member>, es: seq<Json>, f: Findings) returns (anchored: bool)
    requires Profiles(es)
    modifies f
    ensures f.Value() == Join(old(f.Value()), AnchorPart(host, pack, es))
    ensures anchored == (AllBound(host.sha3, es) && LastAnchor(pack, es).Some?)
  {
    hide AllBound, LastAnchor, StateAgrees, Profile;
    ghost var before := f.Value();
    var bound, anchor := ScanRecords(host.sha3, pack, es);
    anchored := false;
    if !bound {
      f.AddElement(LedgerAnchor, Against(RecordUnbound));
      f.AddLayer(LedgerChain, false);
    } else if anchor.None? {
      f.AddElement(LedgerAnchor, Against(NotAnchored));
      f.AddLayer(LedgerChain, false);
    } else {
      anchored := true;
      f.AddElement(LedgerAnchor, Holds);
      f.AddLayer(LedgerChain, true);
    }
    var state := StateAgrees(pack, es, anchor);
    f.AddElement(LedgerAnchor, if state then Holds else Against(StateMismatch));
    f.AddLayer(PackLedgerState, state);
    assert f.unmet == before.unmet + {} && f.refusal == before.refusal + [];
  }

  /** The first loop of `_source_documents`: which documents the ledger records by hash. */
  method CollectSources(es: seq<Json>, f: Findings) returns (wanted: seq<Text>, malformed: nat)
    modifies f
    ensures wanted == FirstSeen(es) && malformed == BadCount(es)
    ensures f.Value() == old(f.Value()).(elements := old(f.elements) + MalformedElements(BadCount(es)))
  {
    hide RefOf;
    ghost var before := f.Value();
    wanted, malformed := [], 0;
    for k := 0 to |es|
      invariant wanted == FirstSeen(es[..k]) && malformed == BadCount(es[..k])
      invariant f.Value() == before.(elements := before.elements + MalformedElements(malformed))
    {
      assert es[..k + 1][..k] == es[..k] && es[..k + 1][k] == es[k];
      var r := RefOf(es[k]);
      if r.BadSource? {
        malformed := malformed + 1;
        f.AddElement(SourceDocuments, Against(RecordMalformed));
      } else if r.Source? && r.hash !in wanted {
        wanted := wanted + [r.hash];
      }
    }
    assert es[..|es|] == es;
  }

  /** One document against its recorded hash. */
  method CheckSource(host: Host, lp: Text, h: Text, f: Findings) returns (bad: bool, absent: bool)
    modifies f
    ensures var t := Tagged(SourceDocuments, DocElement(host, lp, h));
      && f.Value() == old(f.Value()).(elements := old(f.elements) + [t])
      && (bad <==> BadElement(t)) && (absent <==> t.e == Unjudged(HashOnly))
  {
    hide SourcePath, Digest;
    bad, absent := false, false;
    var file := host.files(SourcePath(lp, h));
    if file.NoEntry? {
      absent := true;
      f.AddElement(SourceDocuments, Unjudged(HashOnly));
    } else if file.NotDirectory? || file.LstatError? || file.ReadError? {
      bad := true;
      f.AddElement(SourceDocuments, Unjudged(Unreadable));
    } else if file.NotRegular? || |file.bytes| > MAX_SOURCE_BYTES {
      bad := true;
      f.AddElement(SourceDocuments, Against(SourceMismatch));
    } else if Digest(host.sha256, file.bytes) == h {
      f.AddElement(SourceDocuments, Holds);
    } else {
      bad := true;
      f.AddElement(SourceDocuments, Against(SourceMismatch));
    }
  }

  /** The second loop: what is present, bad and absent. */
  method CheckSources(host: Host, lp: Text, hs: seq<Text>, f: Findings) returns (bad: nat, absent: nat)
    modifies f
    ensures var ts := DocElements(host, lp, hs);
      && f.Value() == old(f.Value()).(elements := old(f.elements) + ts)
      && (bad > 0 <==> SourcesBad(ts)) && (absent > 0 <==> SourcesMissing(ts))
  {
    hide DocElement, SourcesBad, SourcesMissing;
    ghost var before := f.Value();
    bad, absent := 0, 0;
    OneMoreElement([], Tagged(SourceDocuments, Holds));
    for k := 0 to |hs|
      invariant f.Value() == before.(elements := before.elements + DocElements(host, lp, hs[..k]))
      invariant bad > 0 <==> SourcesBad(DocElements(host, lp, hs[..k]))
      invariant absent > 0 <==> SourcesMissing(DocElements(host, lp, hs[..k]))
    {
      assert hs[..k + 1][..k] == hs[..k] && hs[..k + 1][k] == hs[k];
      ghost var ts := DocElements(host, lp, hs[..k]);
      var isBad, isAbsent := CheckSource(host, lp, hs[k], f);
      if isBad { bad := bad + 1; }
      if isAbsent { absent := absent + 1; }
      OneMoreElement(ts, Tagged(SourceDocuments, DocElement(host, lp, hs[k])));
    }
    assert hs[..|hs|] == hs;
  }

  lemma OneMoreElement(ts: seq<Tagged>, t: Tagged)
    ensures SourcesBad(ts + [t]) <==> SourcesBad(ts) || BadElement(t)
    ensures SourcesMissing(ts + [t]) <==> SourcesMissing(ts) || t == Tagged(SourceDocuments, Unjudged(HashOnly))
    ensures !SourcesBad([]) && !SourcesMissing([])
  {
    if SourcesBad(ts) {
      var x :| x in ts && BadElement(x);
      assert x in ts + [t];
    }
    assert t in ts + [t];
  }

  lemma StatusOfSources(a: seq<Tagged>, b: seq<Tagged>, n: nat)
    requires a == MalformedElements(n)
    ensures SourcesBad(a + b) <==> n > 0 || SourcesBad(b)
    ensures SourcesMissing(a + b) <==> SourcesMissing(b)
  {
    MalformedExactly(n);
    assert forall t :: t in a + b <==> t in a || t in b;
    if n > 0 { assert Tagged(SourceDocuments, Against(RecordMalformed)) in a + b; }
  }

  lemma {:induction false} ElementsCount(host: Host, lp: Text, hs: seq<Text>, n: nat)
    ensures DocElements(host, lp, hs) == [] <==> hs == []
    ensures MalformedElements(n) == [] <==> n == 0
  {}

  /** verify_pack.py `_source_documents`. */
  method JudgeSources(host: Host, lp: Text, es: seq<Json>, require: bool, f: Findings)
    modifies f
    ensures f.Value() == Join(old(f.Value()), SourcePart(host, lp, es, require))
  {
    hide FirstSeen, BadCount, DocElements, MalformedElements, SortKeys, SourcesBad, SourcesMissing;
    ghost var before := f.Value();
    var wanted, malformed := CollectSources(es, f);
    var sorted := SortKeys(wanted);
    SortKeepsEmpty(wanted);
    var bad, absent := CheckSources(host, lp, sorted, f);
    ElementsCount(host, lp, sorted, malformed);
    StatusOfSources(MalformedElements(malformed), DocElements(host, lp, sorted), malformed);
    var status;
    if wanted == [] && malformed == 0 {
      status := Skip;
    } else if malformed > 0 || bad > 0 {
      status := Status.Fail;
    } else if absent > 0 {
      status := if require then Status.Fail else Skip;
    } else {
      status := Pass;
    }
    if status == Status.Fail && require && absent > 0 { f.Miss(SourcesRequired); }
    f.layers := f.layers + [Layer(SourceLayer, status, true)];
    ghost var ts := MalformedElements(malformed) + DocElements(host, lp, sorted);
    assert before.elements + MalformedElements(malformed) + DocElements(host, lp, sorted) == before.elements + ts;
    assert ts == [] <==> wanted == [] && malformed == 0;
    SourcesDone(before, f.Value(), host, lp, es, require, ts, status);
  }

  lemma SourcesDone(before: Part, after: Part, host: Host, lp: Text, es: seq<Json>, require: bool, ts: seq<Tagged>,
                    status: Status)
    requires ts == SourceElements(host, lp, es) && status == SourceStatus(ts, require)
    requires after.layers == before.layers + [Layer(SourceLayer, status, true)]
      && after.elements == before.elements + ts
    requires after.refusal == before.refusal
    requires after.unmet ==
      before.unmet + if status == Status.Fail && require && SourcesMissing(ts) then {SourcesRequired} else {}
    ensures after == Join(before, SourcePart(host, lp, es, require))
  {
    hide SourceElements, SourcesMissing, SourcesBad;
    MissingNotEmpty(ts);
    assert after.refusal == before.refusal + [];
  }

  lemma MissingNotEmpty(ts: seq<Tagged>)
    ensures SourcesMissing(ts) ==> ts != []
  {}

  lemma SortKeepsEmpty(ks: seq<Text>)
    ensures SortKeys(ks) == [] <==> ks == []
  {}

  /** The signed tip, when a trusted log key is given; otherwise only whether one is there. */
  method JudgeTip(host: Host, logKey: Option<Text>, lp: Text, es: seq<Json>, f: Findings)
    requires es != []
    modifies f
    ensures f.Value() == Join(old(f.Value()), TipPart(host, logKey, lp, es))
  {
    hide TipPath, ReadDoc, PyVerifyTip, SelfHash, Profile;
    ghost var before := f.Value();
    var file := host.files(TipPath(lp));
    if logKey.Some? && logKey.value != [] {
      if !Present(file) {
        f.AddElement(SignedTip, Unjudged(NotPresent));
        f.Miss(TipRequired);
        f.AddLayer(TipLayer, false);
      } else {
        var doc := ReadDoc(file);
        var e;
        if doc.HostError? {
          e := Unjudged(Unreadable);
        } else if doc.BadDoc? {
          e := Against(TipInvalid);
        } else {
          ReadDocProfile(file);
          var verdict := PyVerifyTip(host.ed, host.crypto, doc.value, logKey.value, |es|, SelfHash(es[0]),
                                     SelfHash(es[|es| - 1]));
          e := TipElement(verdict);
        }
        f.Take(TipJudged(e));
      }
    } else if Present(file) {
      f.AddElement(SignedTip, Unjudged(KeyNotGiven));
      f.layers := f.layers + [Layer(TipLayer, Skip, true)];
    } else {
      f.layers := f.layers + [Layer(TipLayer, Skip, true)];
    }
    assert before.unmet + {} == before.unmet && before.refusal + [] == before.refusal
      && before.elements + [] == before.elements;
  }

  lemma ChainHasEntries(h: Hash, es: seq<Json>)
    requires Profiles(es)
    ensures ChainOk(h, es) ==> es != []
  {}

  /** The entries of a ledger that was read: schema, chain, anchor, sources, tip. */
  method JudgeEntries(host: Host, inputs: Inputs, pack: seq<Member>, lp: Text, es: seq<Json>, f: Findings)
      returns (anchored: bool)
    requires Profiles(es)
    modifies f
    ensures f.Value() == Join(old(f.Value()), EntriesPart(host, inputs, pack, lp, es))
    ensures anchored == (ChainOk(host.sha256, es) && AllBound(host.sha3, es) && LastAnchor(pack, es).Some?)
  {
    hide AnyUnknown, ChainOk, AllBound, LastAnchor, AnchorPart, SourcePart, TipPart, Profile, SchemaPart, Join;
    ghost var before := f.Value();
    var chainOk, n, last := VerifyEntries(host.sha256, es);
    ChainHasEntries(host.sha256, es);
    JudgeSchema(es, f);
    if !chainOk {
      f.Take(ChainFailed(Against(ChainBroken)));
      f.Take(NotLooked());
      JoinTwice(before, SchemaPart(es), ChainFailed(Against(ChainBroken)));
      JoinTwice(before, Join(SchemaPart(es), ChainFailed(Against(ChainBroken))), NotLooked());
      return false;
    }
    anchored := JudgeAnchor(host, pack, es, f);
    JudgeSources(host, lp, es, inputs.requireSources, f);
    JudgeTip(host, inputs.logKey, lp, es, f);
    var schema, anchor := SchemaPart(es), AnchorPart(host, pack, es);
    var source, tip := SourcePart(host, lp, es, inputs.requireSources), TipPart(host, inputs.logKey, lp, es);
    JoinTwice(before, schema, anchor);
    JoinTwice(before, Join(schema, anchor), source);
    JoinTwice(before, Join(Join(schema, anchor), source), tip);
  }

  method JudgeSchema(es: seq<Json>, f: Findings)
    modifies f
    ensures f.Value() == Join(old(f.Value()), SchemaPart(es))
  {
    hide HasUnknownKey;
    ghost var before := f.Value();
    var unknown := 0;
    for k := 0 to |es|
      invariant unknown == 0 <==> forall i :: 0 <= i < k ==> !HasUnknownKey(es[i])
      invariant 0 <= unknown
      invariant f.Value() == before
    {
      if HasUnknownKey(es[k]) { unknown := unknown + 1; }
    }
    if unknown > 0 {
      f.AddElement(LedgerAnchor, Against(EntryUnknownMember));
      f.AddLayer(LedgerSchema, false);
      assert f.unmet == before.unmet + {} && f.refusal == before.refusal + [];
    } else {
      JoinEmpty(before);
    }
  }

  /** The ledger stage: whether there is one to judge, whether it can be read, and its entries. */
  method JudgeLedger(host: Host, inputs: Inputs, pack: seq<Member>, f: Findings) returns (anchored: bool)
    modifies f
    ensures f.Value() == Join(old(f.Value()), LedgerPart(host, inputs, pack))
    ensures anchored == AnchoredIn(host, inputs, pack)
  {
    hide NameBad, LedgerThere, LedgerPath, EntriesPart, ReadEntries, Join, Profile, AllBound, LastAnchor, ChainOk,
      LedgerAsked;
    ghost var before := f.Value();
    anchored := false;
    if NameBad(pack) {
      JudgeAbsent(Part([Judge(LedgerChain, false)], [], [Malformed], {}), f);
    } else if LedgerThere(host, inputs, pack) {
      PathOfThere(host, inputs, pack);
      var lp := LedgerPath(host, inputs, pack).value;
      var file := host.files(lp);
      ReadLedgerProfiles(file);
      if file.Contents? {
        var es := ReadAll(file.bytes);
        if es.None? {
          JudgeAbsent(ChainFailed(Against(LedgerMalformed)), f);
        } else {
          anchored := JudgeEntries(host, inputs, pack, lp, es.value, f);
        }
      } else if file.NotRegular? {
        JudgeAbsent(ChainFailed(Against(LedgerMalformed)), f);
      } else {
        JudgeAbsent(ChainFailed(Unjudged(Unreadable)), f);
      }
    } else if LedgerAsked(inputs) {
      JudgeAbsent(Part([Judge(LedgerChain, false)], [Tagged(LedgerAnchor, Unjudged(NotPresent))], [],
                       {LedgerRequired}), f);
    } else {
      JudgeAbsent(Part([Layer(LedgerChain, Skip, true)], [], [], {}), f);
    }
  }

  lemma PathOfThere(host: Host, inputs: Inputs, pack: seq<Member>)
    ensures LedgerThere(host, inputs, pack) ==> LedgerPath(host, inputs, pack).Some?
  {}

  /** A ledger that was not verified: its tip and its sources are not looked at. */
  method JudgeAbsent(p: Part, f: Findings)
    modifies f
    ensures f.Value() == Join(old(f.Value()), Join(p, NotLooked()))
  {
    JoinTwice(f.Value(), p, NotLooked());
    f.Take(p);
    f.Take(NotLooked());
  }

  // ---- the run -------------------------------------------------------------------------------------

  method JudgeProducer(sig: SignatureResult, store: bool, f: Findings)
    modifies f
    ensures f.Value() == Join(old(f.Value()), ProducerPart(sig, store))
  {
    ghost var before := f.Value();
    f.layers := f.layers + [Layer(ProducerLayer, sig.status, sig.assessed)];
    f.AddElement(ProducerSignature, ProducerElement(sig, store));
    if store && !(sig.status == Pass && sig.trusted) { f.Miss(TrustedSigner); }
    if store && sig.status == Skip {
      f.AddLayer(TrustedSignerLayer, false);
    } else if store && sig.status == Pass && !sig.trusted {
      f.AddLayer(TrustedSignerLayer, false);
    }
    assert f.refusal == before.refusal + [];
  }

  /** verify_pack.py `_verify`. */
  method Verify(host: Host, inputs: Inputs) returns (r: Receipt)
    ensures r == ReceiptOf(host, inputs)
  {
    hide Join, PackPart, FormPart, SealPart, LedgerPart, ProducerPart, CheckSignature, ReadDoc, AnchoredIn, Profile,
      Conclude;
    var doc := ReadDoc(host.files(inputs.path));
    ReadDocProfile(host.files(inputs.path));
    if !doc.Doc? || !doc.value.Object? { return Unparsable(); }
    var pack := doc.value.members;
    var f := new Findings();
    JudgeForm(pack, f);
    JudgeSeal(host, pack, f);
    var anchored := JudgeLedger(host, inputs, pack, f);
    var sig := CheckSignature(host, inputs.path, inputs.store, pack);
    JudgeProducer(sig, inputs.store.Some?, f);
    PackIsBoth(host, pack);
    r := Conclude(f.Value(), sig, inputs.store.Some?, anchored);
  }

  lemma PackIsBoth(host: Host, pack: seq<Member>)
    requires Profile(Object(pack))
    ensures Join(Join(EMPTY, FormPart(pack)), SealPart(host, pack)) == PackPart(host, pack)
  {
    hide FormPart, SealPart, Join;
    JoinEmpty(FormPart(pack));
  }
}
