/** The equations of the receipt, for every pack, every host and every input. */
module PackTheorems {
  import opened Texts
  import opened JsonValues
  import opened Chain
  import opened Tip
  import opened TipCheck
  import opened PackReceipt
  import opened PackHost
  import opened PackSpec

  /** A stage that keeps the equations. */
  ghost predicate Sound(p: Part) { Balanced(p) && HostReasonsUnjudged(p) }

  lemma JoinSound(a: Part, b: Part)
    requires Sound(a) && Sound(b)
    ensures Sound(Join(a, b))
  {
    hide Balanced;
    JoinBalanced(a, b);
    forall t | t in Join(a, b).elements && t.e.Against? ensures t.e.why != InstrumentFailure && t.e.why != Unreadable {
      assert t in a.elements || t in b.elements;
    }
  }

  /** A stage with one layer and at most one element or refusal or unmet item. */
  lemma OneLayer(l: Layer, ts: seq<Tagged>, refusal: seq<RefusalClass>, unmet: set<Unmet>)
    requires |ts| <= 1
    requires ts != [] && ts[0].e.Against? ==>
      ts[0].e.why != InstrumentFailure && ts[0].e.why != Unreadable && l.assessed
    requires !l.assessed <==> ts != [] && ts[0].e == Unjudged(InstrumentFailure)
    requires (l.status == Status.Fail) == (refusal != [] || unmet != {} ||
      (ts != [] && (ts[0].e.Against? || ts[0].e == Unjudged(InstrumentFailure) || ts[0].e == Unjudged(Unreadable))))
    ensures Sound(Part([l], ts, refusal, unmet))
  {
    var p := Part([l], ts, refusal, unmet);
    assert l in p.layers;
    if ts != [] { assert ts[0] in p.elements; }
  }

  lemma TwoElements(a: Layer, b: Layer, x: Tagged, y: Tagged)
    requires Sound(Part([a], [x], [], {})) && Sound(Part([b], [y], [], {}))
    ensures Sound(Part([a, b], [x, y], [], {}))
  {
    hide Sound;
    JoinSound(Part([a], [x], [], {}), Part([b], [y], [], {}));
    assert [a] + [b] == [a, b] && [x] + [y] == [x, y];
    var none: set<Unmet> := {};
    assert none + none == none;
    assert Join(Part([a], [x], [], {}), Part([b], [y], [], {})) == Part([a, b], [x, y], [], {});
  }

  lemma FormSound(pack: seq<Member>)
    ensures Sound(FormPart(pack))
  {
    hide KindOk, SchemaOk, ScopeOk;
    var p := FormPart(pack);
    assert p.layers[1] in p.layers && p.layers[2] in p.layers && p.layers[3] in p.layers;
  }

  lemma SealSound(host: Host, pack: seq<Member>)
    requires Profile(Object(pack))
    ensures Sound(SealPart(host, pack))
  {
    hide DigestOk, SnapshotOk, Sound;
    var d, s := DigestOk(host, pack), SnapshotOk(pack);
    OneLayer(Judge(PackSha3, d), [Against1(SealedContent, d, DigestMismatch)], [], {});
    OneLayer(Judge(PackSelfVerification, s), [Against1(SealedContent, s, SelfVerificationFailed)], [], {});
    TwoElements(Judge(PackSha3, d), Judge(PackSelfVerification, s), Against1(SealedContent, d, DigestMismatch),
                Against1(SealedContent, s, SelfVerificationFailed));
  }

  lemma AnchorSound(host: Host, pack: seq<Member>, es: seq<Json>)
    requires Profiles(es)
    ensures Sound(AnchorPart(host, pack, es))
  {
    hide AllBound, LastAnchor, StateAgrees, Sound;
    var bound, anchor := AllBound(host.sha3, es), LastAnchor(pack, es);
    var state := StateAgrees(pack, es, anchor);
    var a := Judge(LedgerChain, bound && anchor.Some?);
    var x := Tagged(LedgerAnchor,
                    if !bound then Against(RecordUnbound) else if anchor.None? then Against(NotAnchored) else Holds);
    OneLayer(a, [x], [], {});
    OneLayer(Judge(PackLedgerState, state), [Against1(LedgerAnchor, state, StateMismatch)], [], {});
    TwoElements(a, Judge(PackLedgerState, state), x, Against1(LedgerAnchor, state, StateMismatch));
  }

  /** The source layer fails exactly when a document speaks against its record, can not be read, or is required
      and missing. */
  lemma SourceSound(host: Host, lp: Text, es: seq<Json>, require: bool)
    ensures Sound(SourcePart(host, lp, es, require))
  {
    hide FirstSeen, BadCount, DocElements, MalformedElements, GoCanonical.SortKeys;
    var ts := SourceElements(host, lp, es);
    var p := SourcePart(host, lp, es, require);
    SourceForms(host, lp, es);
    var l := Layer(SourceLayer, SourceStatus(ts, require), true);
    assert p.layers == [l] && l in p.layers;
    SourceTells(ts);
    assert Adverse(p) || FailClosed(p) <==> SourcesBad(ts);
  }

  lemma SourceTells(ts: seq<Tagged>)
    requires forall t :: t in ts ==> t.e != Unjudged(InstrumentFailure)
    ensures (exists t :: t in ts && t.e.Against?) ==> SourcesBad(ts)
    ensures (exists t :: t in ts && t.e == Unjudged(Unreadable)) ==> SourcesBad(ts)
    ensures SourcesBad(ts) ==>
      (exists t :: t in ts && t.e.Against?) || (exists t :: t in ts && t.e == Unjudged(Unreadable))
    ensures SourcesBad(ts) || SourcesMissing(ts) ==> ts != []
  {
    forall t | t in ts && (t.e.Against? || t.e == Unjudged(Unreadable)) ensures BadElement(t) {}
  }

  import GoCanonical

  lemma SourceForms(host: Host, lp: Text, es: seq<Json>)
    ensures forall t :: t in SourceElements(host, lp, es) ==>
      t.e != Unjudged(InstrumentFailure) && (t.e.Against? ==> t.e.why != InstrumentFailure && t.e.why != Unreadable)
  {
    hide FirstSeen, BadCount, GoCanonical.SortKeys, SourcePath, Digest, DocElements, MalformedElements;
    var hs := GoCanonical.SortKeys(FirstSeen(es));
    MalformedExactly(BadCount(es));
    DocElementsExactly(host, lp, hs);
    forall t | t in SourceElements(host, lp, es)
      ensures t.e != Unjudged(InstrumentFailure)
        && (t.e.Against? ==> t.e.why != InstrumentFailure && t.e.why != Unreadable)
    {
      assert t in MalformedElements(BadCount(es)) || t in DocElements(host, lp, hs);
    }
  }

  lemma TipSound(host: Host, logKey: Option<Text>, lp: Text, es: seq<Json>)
    requires es != []
    ensures Sound(TipPart(host, logKey, lp, es))
  {
    hide TipPath, ReadDoc, PyVerifyTip, SelfHash, Profile, Sound, TipVerdict;
    var f := host.files(TipPath(lp));
    if logKey.Some? && logKey.value != [] {
      if !Present(f) {
        OneLayer(Judge(TipLayer, false), [Tagged(SignedTip, Unjudged(NotPresent))], [], {TipRequired});
      } else {
        TipForms(host, logKey.value, lp, es);
        var e := TipVerdict(host, logKey.value, lp, es);
        OneLayer(Layer(TipLayer, if e.Holds? then Pass else Status.Fail, e != Unjudged(InstrumentFailure)),
                 [Tagged(SignedTip, e)], [], {});
      }
    } else if Present(f) {
      OneLayer(Layer(TipLayer, Skip, true), [Tagged(SignedTip, Unjudged(KeyNotGiven))], [], {});
    } else {
      OneLayer(Layer(TipLayer, Skip, true), [], [], {});
    }
  }

  lemma TipForms(host: Host, key: Text, lp: Text, es: seq<Json>)
    requires es != []
    ensures var e := TipVerdict(host, key, lp, es);
      && (e.Against? ==> e.why == TipInvalid || e.why == TailMismatch)
      && (e.Unjudged? ==> e.why == InstrumentFailure || e.why == Unreadable)
  {
    hide PyVerifyTip, ReadDoc, TipPath, SelfHash;
  }

  lemma NotLookedSound()
    ensures Sound(NotLooked())
  {}

  lemma ChainFailedSound(e: Element)
    requires e == Unjudged(Unreadable) || (e.Against? && e.why != InstrumentFailure && e.why != Unreadable)
    ensures Sound(ChainFailed(e))
  {
    hide Sound;
    OneLayer(Judge(LedgerChain, false), [Tagged(LedgerAnchor, e)], [], {});
  }

  lemma EntriesSound(host: Host, inputs: Inputs, pack: seq<Member>, lp: Text, es: seq<Json>)
    requires Profiles(es)
    ensures Sound(EntriesPart(host, inputs, pack, lp, es))
  {
    hide Sound, AnyUnknown, ChainOk, AnchorPart, SourcePart, TipPart, Profile, Join;
    SchemaSound(es);
    if !ChainOk(host.sha256, es) {
      ChainFailedSound(Against(ChainBroken));
      NotLookedSound();
      JoinSound(SchemaPart(es), ChainFailed(Against(ChainBroken)));
      JoinSound(Join(SchemaPart(es), ChainFailed(Against(ChainBroken))), NotLooked());
    } else {
      VerifyPack.ChainHasEntries(host.sha256, es);
      AnchorSound(host, pack, es);
      SourceSound(host, lp, es, inputs.requireSources);
      TipSound(host, inputs.logKey, lp, es);
      var a, b := SchemaPart(es), AnchorPart(host, pack, es);
      JoinSound(a, b);
      JoinSound(Join(a, b), SourcePart(host, lp, es, inputs.requireSources));
      JoinSound(Join(Join(a, b), SourcePart(host, lp, es, inputs.requireSources)),
                TipPart(host, inputs.logKey, lp, es));
    }
  }

  import VerifyPack

  lemma SchemaSound(es: seq<Json>)
    ensures Sound(SchemaPart(es))
  {
    hide AnyUnknown;
    if AnyUnknown(es) {
      OneLayer(Judge(LedgerSchema, false), [Tagged(LedgerAnchor, Against(EntryUnknownMember))], [], {});
    }
  }

  lemma LedgerSound(host: Host, inputs: Inputs, pack: seq<Member>)
    ensures Sound(LedgerPart(host, inputs, pack))
  {
    hide Sound, NameBad, LedgerThere, LedgerPath, ReadLedger, EntriesPart, Join, LedgerAsked, ChainFailed;
    NotLookedSound();
    if NameBad(pack) {
      OneLayer(Judge(LedgerChain, false), [], [Malformed], {});
      JoinSound(Part([Judge(LedgerChain, false)], [], [Malformed], {}), NotLooked());
    } else if LedgerThere(host, inputs, pack) {
      VerifyPack.PathOfThere(host, inputs, pack);
      var lp := LedgerPath(host, inputs, pack).value;
      ReadLedgerProfiles(host.files(lp));
      var r := ReadLedger(host.files(lp));
      if r.Entries? {
        EntriesSound(host, inputs, pack, lp, r.es);
      } else {
        var e := if r.HostCannotRead? then Unjudged(Unreadable) else Against(LedgerMalformed);
        ChainFailedSound(e);
        JoinSound(ChainFailed(e), NotLooked());
      }
    } else if LedgerAsked(inputs) {
      var p := Part([Judge(LedgerChain, false)], [Tagged(LedgerAnchor, Unjudged(NotPresent))], [], {LedgerRequired});
      OneLayer(Judge(LedgerChain, false), [Tagged(LedgerAnchor, Unjudged(NotPresent))], [], {LedgerRequired});
      JoinSound(p, NotLooked());
    } else {
      OneLayer(Layer(LedgerChain, Skip, true), [], [], {});
      JoinSound(Part([Layer(LedgerChain, Skip, true)], [], [], {}), NotLooked());
    }
  }

  lemma ProducerSound(sig: SignatureResult, store: bool)
    requires !sig.assessed <==> sig.status == Status.Fail && sig.reason == InstrumentFailure
    requires sig.status == Skip ==> sig.reason == NotPresent
    requires sig.status == Status.Fail ==>
      sig.reason in {Unreadable, SidecarMalformed, DigestMismatch, SignatureInvalid, InstrumentFailure}
    ensures Sound(ProducerPart(sig, store)) && SignatureShown(ProducerPart(sig, store), sig, store)
  {
    var p := ProducerPart(sig, store);
    assert p.layers[0] == Layer(ProducerLayer, sig.status, sig.assessed) && p.layers[0] in p.layers;
    if |p.layers| > 1 { assert p.layers[1] in p.layers; }
    assert p.elements[0] in p.elements;
    assert store && !(sig.status == Pass && sig.trusted) ==> Failing(p);
  }

  /** Every run keeps the equations. */
  lemma RunSound(host: Host, inputs: Inputs, pack: seq<Member>)
    requires Profile(Object(pack))
    ensures var sig := CheckSignature(host, inputs.path, inputs.store, pack);
      Sound(RunPart(host, inputs, pack)) && SignatureShown(RunPart(host, inputs, pack), sig, inputs.store.Some?)
  {
    hide Sound, FormPart, SealPart, LedgerPart, ProducerPart, CheckSignature, Join, Profile, Failing;
    var sig := CheckSignature(host, inputs.path, inputs.store, pack);
    SignatureForms(host, inputs.path, inputs.store, pack);
    ProducerSound(sig, inputs.store.Some?);
    FormSound(pack);
    SealSound(host, pack);
    LedgerSound(host, inputs, pack);
    JoinSound(FormPart(pack), SealPart(host, pack));
    JoinSound(PackPart(host, pack), LedgerPart(host, inputs, pack));
    var before := Join(PackPart(host, pack), LedgerPart(host, inputs, pack));
    JoinSound(before, ProducerPart(sig, inputs.store.Some?));
    JoinParts(before, ProducerPart(sig, inputs.store.Some?));
  }

  /** The verdict equation, on every receipt: ok exactly when the pack is admitted, no subject is contradicted, no
      check was left open by an instrument failure or an unreadable file, and no policy item is unmet. */
  lemma VerdictEquation(host: Host, inputs: Inputs)
    ensures var r := ReceiptOf(host, inputs);
      && (r.ok <==>
          r.admission.Admitted? && (forall s :: !SubjectContradicted(r, s)) && !HasFailClosed(r)
          && r.admission.unmet == [])
      && (r.admission.Refused? ==> !r.ok)
  {
    hide RunPart, CheckSignature, AnchoredIn, Profile, Conclude, ReadDoc, SubjectContradicted, HasFailClosed, Balanced,
      SignatureShown;
    var file := host.files(inputs.path);
    ReadDocProfile(file);
    if ReadDoc(file).Doc? && ReadDoc(file).value.Object? {
      var pack := ReadDoc(file).value.members;
      RunSound(host, inputs, pack);
      OkEquation(RunPart(host, inputs, pack), CheckSignature(host, inputs.path, inputs.store, pack), inputs.store.Some?,
                 AnchoredIn(host, inputs, pack));
    } else {
      UnparsableRefused();
    }
  }

  lemma UnparsableRefused()
    ensures Unparsable().admission.Refused? && !Unparsable().ok && Unparsable().assessed
    ensures forall s :: !SubjectContradicted(Unparsable(), s)
  {}

  /** An admitted pack whose run was inconclusive: an instrument failed, and nothing speaks against the pack. */
  lemma InconclusiveEquation(host: Host, inputs: Inputs)
    ensures var r := ReceiptOf(host, inputs);
      r.admission.Admitted? && !r.assessed ==> HasInstrumentFailure(r) && forall s :: !SubjectContradicted(r, s)
  {
    hide RunPart, CheckSignature, AnchoredIn, Profile, Conclude, ReadDoc, SubjectContradicted, HasInstrumentFailure,
      Balanced, SignatureShown;
    var file := host.files(inputs.path);
    ReadDocProfile(file);
    if ReadDoc(file).Doc? && ReadDoc(file).value.Object? {
      var pack := ReadDoc(file).value.members;
      RunSound(host, inputs, pack);
      AssessedEquation(RunPart(host, inputs, pack), CheckSignature(host, inputs.path, inputs.store, pack),
                       inputs.store.Some?,
                       AnchoredIn(host, inputs, pack));
    } else {
      UnparsableRefused();
    }
  }

  /** The trust store never changes what is contradicted: two runs that differ in nothing else contradict the same
      subjects, and both are refused or neither. */
  lemma TrustNeverContradicts(host: Host, inputs: Inputs, other: Option<map<Text, Text>>, s: Subject)
    ensures var a, b := ReceiptOf(host, inputs), ReceiptOf(host, inputs.(store := other));
      && (SubjectContradicted(a, s) <==> SubjectContradicted(b, s))
      && (a.admission.Refused? <==> b.admission.Refused?)
  {
    hide RunPart, CheckSignature, AnchoredIn, Profile, Conclude, ReadDoc, SubjectContradicted;
    var file := host.files(inputs.path);
    ReadDocProfile(file);
    if ReadDoc(file).Doc? && ReadDoc(file).value.Object? {
      var pack := ReadDoc(file).value.members;
      SameAgainst(host, inputs, other, pack, s);
    } else {
      UnparsableRefused();
    }
  }

  lemma SameAgainst(host: Host, inputs: Inputs, other: Option<map<Text, Text>>, pack: seq<Member>, s: Subject)
    requires Profile(Object(pack))
    ensures var i2 := inputs.(store := other);
      var a := Conclude(RunPart(host, inputs, pack), CheckSignature(host, inputs.path, inputs.store, pack),
                        inputs.store.Some?,
                        AnchoredIn(host, inputs, pack));
      var b := Conclude(RunPart(host, i2, pack), CheckSignature(host, i2.path, i2.store, pack), i2.store.Some?,
                        AnchoredIn(host, i2, pack));
      && (SubjectContradicted(a, s) <==> SubjectContradicted(b, s))
      && (a.admission.Refused? <==> b.admission.Refused?)
  {
    hide PackPart, LedgerPart, CheckSignature, AnchoredIn, Profile, SubjectContradicted, StatesOf, PackReceipt.InOrder,
      Failing, Judged, Unassessed;
    var i2 := inputs.(store := other);
    var sa, sb := CheckSignature(host, inputs.path, inputs.store, pack), CheckSignature(host, i2.path, other, pack);
    StoreDecidesTrustOnly(host, inputs.path, pack, inputs.store, other);
    SameLedgerPart(host, inputs, other, pack);
    var pa, pb := RunPart(host, inputs, pack), RunPart(host, i2, pack);
    var before := Join(PackPart(host, pack), LedgerPart(host, inputs, pack));
    assert pa.elements == before.elements + [Tagged(ProducerSignature, ProducerElement(sa, inputs.store.Some?))];
    assert pb.elements == before.elements + [Tagged(ProducerSignature, ProducerElement(sb, other.Some?))];
    SameProducer(sa, sb, inputs.store.Some?, other.Some?);
    if pa.refusal == [] {
      ContradictedExactly(pa, sa, inputs.store.Some?, AnchoredIn(host, inputs, pack), s);
      ContradictedExactly(pb, sb, other.Some?, AnchoredIn(host, i2, pack), s);
      SameAgainstIn(before.elements, ProducerElement(sa, inputs.store.Some?), ProducerElement(sb, other.Some?), s);
    } else {
      RefusedShows(pa, sa, inputs.store.Some?, AnchoredIn(host, inputs, pack), s);
      RefusedShows(pb, sb, other.Some?, AnchoredIn(host, i2, pack), s);
    }
  }

  lemma RefusedShows(p: Part, sig: SignatureResult, store: bool, anchored: bool, s: Subject)
    requires p.refusal != []
    ensures !SubjectContradicted(Conclude(p, sig, store, anchored), s)
  {}

  lemma SameAgainstIn(ts: seq<Tagged>, x: Element, y: Element, s: Subject)
    requires x.Against? <==> y.Against?
    ensures (exists t :: t in ts + [Tagged(ProducerSignature, x)] && t.subject == s && t.e.Against?)
      <==> (exists t :: t in ts + [Tagged(ProducerSignature, y)] && t.subject == s && t.e.Against?)
  {
    AgainstAfter(ts, x, s);
    AgainstAfter(ts, y, s);
  }

  lemma AgainstAfter(ts: seq<Tagged>, x: Element, s: Subject)
    ensures (exists t :: t in ts + [Tagged(ProducerSignature, x)] && t.subject == s && t.e.Against?)
      <==> (exists t :: t in ts && t.subject == s && t.e.Against?) || (s == ProducerSignature && x.Against?)
  {
    var all := ts + [Tagged(ProducerSignature, x)];
    assert Tagged(ProducerSignature, x) in all;
    forall t ensures t in all <==> t in ts || t == Tagged(ProducerSignature, x) {}
  }

  /** The ledger stage does not look at the trust store. */
  lemma SameLedgerPart(host: Host, inputs: Inputs, other: Option<map<Text, Text>>, pack: seq<Member>)
    ensures LedgerPart(host, inputs.(store := other), pack) == LedgerPart(host, inputs, pack)
    ensures AnchoredIn(host, inputs.(store := other), pack) == AnchoredIn(host, inputs, pack)
  {
    hide NameBad, ReadLedger, Join, ReadEntries, AllBound, LastAnchor, FileOk, ChainOk, SchemaPart, AnchorPart,
      SourcePart, TipPart, Profile;
  }

  lemma SameProducer(a: SignatureResult, b: SignatureResult, store: bool, store': bool)
    requires a.status == b.status && a.reason == b.reason
    ensures ProducerElement(a, store).Against? <==> ProducerElement(b, store').Against?
  {}
}
