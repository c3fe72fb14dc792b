/** The receipt of a pack: layers, state elements, refusals and unmet policy, and the equations between them. */
module PackReceipt {

  datatype Status = Pass | Fail | Skip

  datatype LayerName =
    | PackJson | PackKind | PackSchema | HonestScope | PackSha3 | PackSelfVerification
    | LedgerSchema | LedgerChain | PackLedgerState | SourceLayer | TipLayer | ProducerLayer | TrustedSignerLayer

  /** `assessed` is false when this host could not run the check. */
  datatype Layer = Layer(name: LayerName, status: Status, assessed: bool)

  datatype Subject = SealedContent | LedgerAnchor | SignedTip | SourceDocuments | ProducerSignature

  datatype State = Verified | Contradicted | NotEvaluated

  datatype Reason =
    | DigestMismatch | SelfVerificationFailed
    | LedgerMalformed | EntryUnknownMember | ChainBroken | RecordUnbound | NotAnchored | StateMismatch
    | TipInvalid | TailMismatch | KeyNotGiven | LedgerNotVerified
    | SourceMismatch | RecordMalformed | HashOnly
    | SidecarMalformed | SignatureInvalid | SelfAsserted | KeyUnresolved
    | NotPresent | Unreadable | InstrumentFailure

  /** One check of one subject: it holds, it speaks against the pack, or it was not judged. */
  datatype Element = Holds | Against(why: Reason) | Unjudged(why: Reason)

  datatype Tagged = Tagged(subject: Subject, e: Element)

  datatype RefusalClass = FormatUnsupported | UnknownMember | Malformed

  datatype Unmet = TrustedSigner | LedgerRequired | TipRequired | SourcesRequired | AuthenticityBasis

  datatype Authenticity = TrustedSigned | SignedOnly | Anchored | FailedAuth

  datatype Folded = Folded(state: State, reasons: seq<Reason>)

  datatype Admission =
    | Admitted(states: seq<(Subject, Folded)>, unmet: seq<Unmet>)
    | Refused(class_: RefusalClass)

  datatype Receipt = Receipt(ok: bool, assessed: bool, auth: Authenticity, anchored: bool, layers: seq<Layer>,
                             admission: Admission)

  // ---- the fold ------------------------------------------------------------------------------------

  function Rank(e: Element): (r: nat)
  {
    if e.Against? then 3 else if e == Unjudged(InstrumentFailure) then 2 else if e.Unjudged? then 1 else 0
  }

  function StateOf(e: Element): (r: State)
  {
    match e
    case Holds => Verified
    case Against(_) => Contradicted
    case Unjudged(_) => NotEvaluated
  }

  /** max(elements, key=rank): the first of the highest. */
  function Highest(es: seq<Element>): (r: Element)
    requires es != []
  {
    if |es| == 1 then es[0]
    else var rest := Highest(es[1..]); if Rank(es[0]) >= Rank(rest) then es[0] else rest
  }

  function ReasonsOf(es: seq<Element>): (r: seq<Reason>)
  {
    if es == [] then [] else (if es[0].Holds? then [] else [es[0].why]) + ReasonsOf(es[1..])
  }

  /** verify_pack.py `_fold`. */
  function Fold(es: seq<Element>): (r: Folded)
  {
    if es == [] then Folded(NotEvaluated, [NotPresent]) else Folded(StateOf(Highest(es)), ReasonsOf(es))
  }

  lemma {:induction false} HighestBounds(es: seq<Element>)
    requires es != []
    ensures Highest(es) in es && forall e :: e in es ==> Rank(e) <= Rank(Highest(es))
  {
    if |es| > 1 {
      HighestBounds(es[1..]);
      assert es == [es[0]] + es[1..];
    }
  }

  /** What a folded state says: contradicted if any element is, verified only if every element is (and there is
      one), and otherwise not evaluated. */
  lemma FoldMeaning(es: seq<Element>)
    ensures Fold(es).state == Contradicted <==> exists e :: e in es && e.Against?
    ensures Fold(es).state == Verified <==> es != [] && forall e :: e in es ==> e.Holds?
  {
    if es != [] {
      HighestBounds(es);
      var top := Highest(es);
      if top.Holds? {
        forall e | e in es ensures e.Holds? { assert Rank(e) <= Rank(top); }
      }
      if exists e :: e in es && e.Against? {
        var e :| e in es && e.Against?;
        assert Rank(e) <= Rank(top);
      }
    }
  }

  lemma {:induction false} ReasonsExactly(es: seq<Element>)
    ensures forall r :: r in ReasonsOf(es) <==> Against(r) in es || Unjudged(r) in es
  {
    if es != [] {
      ReasonsExactly(es[1..]);
      assert es == [es[0]] + es[1..];
    }
  }

  // ---- parts of a run ------------------------------------------------------------------------------

  /** What a stage of the verification adds. */
  datatype Part = Part(layers: seq<Layer>, elements: seq<Tagged>, refusal: seq<RefusalClass>, unmet: set<Unmet>)

  const EMPTY := Part([], [], [], {})

  function Join(a: Part, b: Part): (r: Part)
  {
    Part(a.layers + b.layers, a.elements + b.elements, a.refusal + b.refusal, a.unmet + b.unmet)
  }

  function Judge(name: LayerName, ok: bool): (r: Layer) { Layer(name, if ok then Pass else Fail, true) }

  predicate Failing(p: Part) { exists l :: l in p.layers && l.status == Fail }

  predicate Judged(p: Part) { exists l :: l in p.layers && l.status == Fail && l.assessed }

  predicate Unassessed(p: Part) { exists l :: l in p.layers && !l.assessed }

  predicate Adverse(p: Part) { exists t :: t in p.elements && t.e.Against? }

  predicate FailClosed(p: Part)
  {
    exists t :: t in p.elements && (t.e == Unjudged(InstrumentFailure) || t.e == Unjudged(Unreadable))
  }

  predicate Instrument(p: Part) { exists t :: t in p.elements && t.e == Unjudged(InstrumentFailure) }

  /** A stage whose layers and elements tell the same story: a layer fails exactly when something is refused,
      contradicted, unreadable or unmet; what is contradicted has a judged failing layer; and only a check this
      host could not run is unassessed, and fails. */
  ghost predicate Balanced(p: Part)
  {
    && (Failing(p) <==> p.refusal != [] || Adverse(p) || FailClosed(p) || p.unmet != {})
    && (Adverse(p) ==> Judged(p))
    && (Unassessed(p) <==> Instrument(p))
    && (forall l :: l in p.layers && !l.assessed ==> l.status == Fail)
  }

  lemma JoinParts(a: Part, b: Part)
    ensures Failing(Join(a, b)) <==> Failing(a) || Failing(b)
    ensures Judged(Join(a, b)) <==> Judged(a) || Judged(b)
    ensures Unassessed(Join(a, b)) <==> Unassessed(a) || Unassessed(b)
    ensures Adverse(Join(a, b)) <==> Adverse(a) || Adverse(b)
    ensures FailClosed(Join(a, b)) <==> FailClosed(a) || FailClosed(b)
    ensures Instrument(Join(a, b)) <==> Instrument(a) || Instrument(b)
  {
    var c := Join(a, b);
    assert forall l :: l in c.layers <==> l in a.layers || l in b.layers;
    assert forall t :: t in c.elements <==> t in a.elements || t in b.elements;
  }

  lemma JoinBalanced(a: Part, b: Part)
    requires Balanced(a) && Balanced(b)
    ensures Balanced(Join(a, b))
  {
    hide Failing, Judged, Unassessed, Adverse, FailClosed, Instrument;
    JoinParts(a, b);
  }

  // ---- the conclusion ------------------------------------------------------------------------------

  /** What the signature check answers. */
  datatype SignatureResult = SignatureResult(status: Status, reason: Reason, assessed: bool, trusted: bool)

  /** The authenticity chosen from the signature, the trust store and the anchor. */
  function Authenticate(sig: SignatureResult, store: bool, anchored: bool): (r: Authenticity)
  {
    if sig.status == Fail then FailedAuth
    else if store && sig.status == Skip then FailedAuth
    else if sig.status == Pass && store && !sig.trusted then FailedAuth
    else if sig.status == Pass && sig.trusted then TrustedSigned
    else if sig.status == Pass then SignedOnly
    else if anchored then Anchored
    else FailedAuth
  }

  function ElementsOf(p: Part, s: Subject): (r: seq<Element>)
  {
    Filter(p.elements, s)
  }

  function Filter(ts: seq<Tagged>, s: Subject): (r: seq<Element>)
  {
    if ts == [] then [] else (if ts[0].subject == s then [ts[0].e] else []) + Filter(ts[1..], s)
  }

  lemma {:induction false} FilterExactly(ts: seq<Tagged>, s: Subject)
    ensures forall e :: e in Filter(ts, s) <==> Tagged(s, e) in ts
  {
    if ts != [] {
      FilterExactly(ts[1..], s);
      assert ts == [ts[0]] + ts[1..];
    }
  }

  function StatesOf(p: Part): (r: seq<(Subject, Folded)>)
  {
    [(SealedContent, Fold(ElementsOf(p, SealedContent))), (LedgerAnchor, Fold(ElementsOf(p, LedgerAnchor))),
     (SignedTip, Fold(ElementsOf(p, SignedTip))), (SourceDocuments, Fold(ElementsOf(p, SourceDocuments))),
     (ProducerSignature, Fold(ElementsOf(p, ProducerSignature)))]
  }

  /** The unmet items in the order of the policy. */
  function InOrder(u: set<Unmet>): (r: seq<Unmet>)
  {
    (if TrustedSigner in u then [TrustedSigner] else []) + (if LedgerRequired in u then [LedgerRequired] else [])
    + (if TipRequired in u then [TipRequired] else []) + (if SourcesRequired in u then [SourcesRequired] else [])
    + (if AuthenticityBasis in u then [AuthenticityBasis] else [])
  }

  lemma InOrderExactly(u: set<Unmet>)
    ensures forall x :: x in InOrder(u) <==> x in u
    ensures InOrder(u) == [] <==> u == {}
  {
    forall x ensures x in InOrder(u) <==> x in u {
      match x {
        case TrustedSigner =>
        case LedgerRequired =>
        case TipRequired =>
        case SourcesRequired =>
        case AuthenticityBasis =>
      }
    }
    if InOrder(u) == [] { assert forall x :: x !in u; }
  }

  function Conclude(p: Part, sig: SignatureResult, store: bool, anchored: bool): (r: Receipt)
  {
    var auth := Authenticate(sig, store, anchored);
    var unmet := if sig.status == Pass || anchored then p.unmet else p.unmet + {AuthenticityBasis};
    var ok := auth != FailedAuth && !Failing(p);
    Receipt(ok, Judged(p) || !Unassessed(p), if ok then auth else FailedAuth, anchored, p.layers,
            if p.refusal != [] then Refused(p.refusal[0]) else Admitted(StatesOf(p), InOrder(unmet)))
  }

  /** A subject of an admitted receipt is contradicted. */
  ghost predicate SubjectContradicted(r: Receipt, s: Subject)
  {
    r.admission.Admitted? && exists f :: (s, f) in r.admission.states && f.state == Contradicted
  }

  lemma StatesTell(p: Part, s: Subject, f: Folded)
    ensures (s, f) in StatesOf(p) <==> f == Fold(ElementsOf(p, s))
  {
    hide Fold, ElementsOf;
    match s {
      case SealedContent =>
      case LedgerAnchor =>
      case SignedTip =>
      case SourceDocuments =>
      case ProducerSignature =>
    }
  }

  lemma ContradictedExactly(p: Part, sig: SignatureResult, store: bool, anchored: bool, s: Subject)
    requires p.refusal == []
    ensures var r := Conclude(p, sig, store, anchored);
      SubjectContradicted(r, s) <==> exists t :: t in p.elements && t.subject == s && t.e.Against?
  {
    hide Fold, StatesOf, Failing, Judged, Unassessed;
    var r := Conclude(p, sig, store, anchored);
    FilterExactly(p.elements, s);
    FoldMeaning(Filter(p.elements, s));
    StatesTell(p, s, Fold(ElementsOf(p, s)));
    forall f | (s, f) in r.admission.states ensures f == Fold(ElementsOf(p, s)) { StatesTell(p, s, f); }
    if exists t :: t in p.elements && t.subject == s && t.e.Against? {
      var t :| t in p.elements && t.subject == s && t.e.Against?;
      assert t == Tagged(s, t.e) && t.e in Filter(p.elements, s);
    }
    if SubjectContradicted(r, s) {
      var e :| e in Filter(p.elements, s) && e.Against?;
      assert Tagged(s, e) in p.elements;
    }
  }

  /** Some element of some subject was left open because the host failed. */
  ghost predicate HasFailClosed(r: Receipt)
  {
    r.admission.Admitted?
    && exists s, f ::
      (s, f) in r.admission.states && (InstrumentFailure in f.reasons || Unreadable in f.reasons)
  }

  ghost predicate HasInstrumentFailure(r: Receipt)
  {
    r.admission.Admitted? && exists s, f :: (s, f) in r.admission.states && InstrumentFailure in f.reasons
  }

  /** The host reasons are only ever reasons of an unjudged element. */
  ghost predicate HostReasonsUnjudged(p: Part)
  {
    forall t :: t in p.elements && t.e.Against? ==> t.e.why != InstrumentFailure && t.e.why != Unreadable
  }

  lemma ReasonShown(p: Part, r: Reason)
    requires forall t :: t in p.elements && t.e.Against? ==> t.e.why != r
    requires r != NotPresent
    ensures (exists s, f :: (s, f) in StatesOf(p) && r in f.reasons) <==>
      exists t :: t in p.elements && t.e == Unjudged(r)
  {
    hide StatesOf;
    if exists t :: t in p.elements && t.e == Unjudged(r) {
      var t :| t in p.elements && t.e == Unjudged(r);
      assert t == Tagged(t.subject, Unjudged(r));
      FilterExactly(p.elements, t.subject);
      ReasonsExactly(ElementsOf(p, t.subject));
      StatesTell(p, t.subject, Fold(ElementsOf(p, t.subject)));
      assert Unjudged(r) in ElementsOf(p, t.subject);
      assert r in Fold(ElementsOf(p, t.subject)).reasons;
    }
    if exists s, f :: (s, f) in StatesOf(p) && r in f.reasons {
      var s, f :| (s, f) in StatesOf(p) && r in f.reasons;
      StatesTell(p, s, f);
      FilterExactly(p.elements, s);
      ReasonsExactly(ElementsOf(p, s));
      assert Against(r) in ElementsOf(p, s) ==> Tagged(s, Against(r)) in p.elements;
      assert Tagged(s, Unjudged(r)) in p.elements;
    }
  }

  /** The last stage: whenever the signature or the trust store leaves no authenticity, a layer already fails,
      unless there is simply no basis. */
  ghost predicate SignatureShown(p: Part, sig: SignatureResult, store: bool)
  {
    (sig.status == Fail || (store && sig.status == Skip) || (store && sig.status == Pass && !sig.trusted)) ==>
      Failing(p)
  }

  /** The equation of the receipt: an admitted pack is ok exactly when no subject is contradicted, no check was left
      open by the host, and no policy item is unmet; a refused pack is never ok. */
  lemma OkEquation(p: Part, sig: SignatureResult, store: bool, anchored: bool)
    requires Balanced(p) && HostReasonsUnjudged(p) && SignatureShown(p, sig, store)
    ensures var r := Conclude(p, sig, store, anchored);
      && (r.ok <==>
          r.admission.Admitted? && (forall s :: !SubjectContradicted(r, s)) && !HasFailClosed(r)
          && r.admission.unmet == [])
      && (r.admission.Refused? ==> !r.ok)
  {
    hide StatesOf, InOrder, Judged, Unassessed, Instrument;
    var r := Conclude(p, sig, store, anchored);
    if p.refusal == [] {
      AdverseShown(p, sig, store, anchored);
      ClosedShown(p, sig, store, anchored);
      InOrderExactly(if sig.status == Pass || anchored then p.unmet else p.unmet + {AuthenticityBasis});
    }
  }

  lemma AdverseShown(p: Part, sig: SignatureResult, store: bool, anchored: bool)
    requires p.refusal == []
    ensures var r := Conclude(p, sig, store, anchored);
      Adverse(p) <==> exists s :: SubjectContradicted(r, s)
  {
    hide Conclude, SubjectContradicted;
    var r := Conclude(p, sig, store, anchored);
    forall s ensures SubjectContradicted(r, s) <==> exists t :: t in p.elements && t.subject == s && t.e.Against? {
      ContradictedExactly(p, sig, store, anchored, s);
    }
    if Adverse(p) {
      var t :| t in p.elements && t.e.Against?;
      assert SubjectContradicted(r, t.subject);
    }
  }

  lemma ClosedShown(p: Part, sig: SignatureResult, store: bool, anchored: bool)
    requires p.refusal == [] && HostReasonsUnjudged(p)
    ensures var r := Conclude(p, sig, store, anchored);
      && (HasFailClosed(r) <==> FailClosed(p))
      && (HasInstrumentFailure(r) <==> Instrument(p))
  {
    hide StatesOf, Failing, Judged, Unassessed;
    ReasonShown(p, InstrumentFailure);
    ReasonShown(p, Unreadable);
  }

  /** An inconclusive receipt of an admitted pack holds an instrument failure and nothing against the pack. */
  lemma AssessedEquation(p: Part, sig: SignatureResult, store: bool, anchored: bool)
    requires Balanced(p) && HostReasonsUnjudged(p)
    ensures var r := Conclude(p, sig, store, anchored);
      r.admission.Admitted? && !r.assessed ==> HasInstrumentFailure(r) && forall s :: !SubjectContradicted(r, s)
  {
    hide StatesOf, InOrder, Failing, Judged, Unassessed, Instrument, Adverse, FailClosed;
    if p.refusal == [] {
      AdverseShown(p, sig, store, anchored);
      ClosedShown(p, sig, store, anchored);
    }
  }
}
