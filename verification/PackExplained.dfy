/** What a receipt says, item by item: every reason, every unmet item of the policy, the class of a refusal and the
    label of authenticity, each with the circumstance it stands for. The circumstances are said of the pack, the files
    and the caller's arguments, not of the stages of the verification. */
module PackExplained {
  import opened Texts
  import opened JsonValues
  import opened JsonPrinter
  import opened Chain
  import opened Tip
  import opened TipCheck
  import opened PackReceipt
  import opened PackHost
  import opened PackSpec
  import opened PackMeaning
  import opened WeakKeys
  import opened Instants
  import GoCanonical
  import VerifyPack

  // ---- the circumstances ---------------------------------------------------------------------------

  /** What the verifier finds where the ledger should be. */
  datatype View =
    | Misnamed
    | Nowhere
    | HostFails
    | NotEntries
    | Unlinked(entries: seq<Json>)
    | Whole(path: Text, es: seq<Json>)

  predicate PlainName(v: Text)
  {
    v != [] && v != Lit(".") && v != Lit("..") && !(exists k :: 0 <= k < |v| && (v[k] == 47 || v[k] == 92 || v[k] == 0))
  }

  /** The caller's path, or the plain name next to the pack. */
  function LedgerPlace(host: Host, inputs: Inputs, pack: seq<Member>): (r: Option<Text>)
  {
    var name := Get(pack, Lit("ledger_file"));
    if inputs.ledgerPath.Some? then inputs.ledgerPath
    else if name.Some? && name.value.Str? then Some(host.dir + name.value.s)
    else None
  }

  ghost function ViewOf(host: Host, inputs: Inputs, pack: seq<Member>): (r: View)
    ensures r.Whole? ==> Profiles(r.es) && r.es != []
  {
    var name, place := Get(pack, Lit("ledger_file")), LedgerPlace(host, inputs, pack);
    if name.Some? && !name.value.Null? && (!name.value.Str? || !PlainName(name.value.s)) then Misnamed
    else if place.None? || place.value == [] then Nowhere
    else
      match host.files(place.value)
      case NoEntry => Nowhere
      case NotDirectory => Nowhere
      case LstatError => HostFails
      case ReadError => HostFails
      case NotRegular => NotEntries
      case Contents(b) =>
        ReadProfiles(b);
        if ReadEntries(b).None? then NotEntries
        else if !ChainOk(host.sha256, ReadEntries(b).value) then Unlinked(ReadEntries(b).value)
        else Whole(place.value, ReadEntries(b).value)
  }

  /** A ledger was asked for: by its path, by a log key, or by requiring the sources. */
  predicate Asked(inputs: Inputs)
  {
    inputs.requireSources || (inputs.logKey.Some? && inputs.logKey.value != [])
    || (inputs.ledgerPath.Some? && inputs.ledgerPath.value != [])
  }

  /** The signature sidecar has a known shape and binds this content: what is left is the signature itself. */
  ghost predicate Binding(host: Host, pack: seq<Member>, side: seq<Member>)
    requires Profile(Object(pack))
  {
    var digest := DigestWithout(host.sha3, pack, Lit("pack_sha3"));
    && (forall m :: m in side ==> SidecarKey(m.key))
    && Get(pack, Lit("pack_sha3")) == Some(Str(digest)) && Get(side, Lit("signed_pack_sha3")) == Some(Str(digest))
  }

  /** The key and the signature have their forms, and the key is not a weak one. */
  ghost predicate KeyFits(side: seq<Member>)
    requires SidecarFields(side)
  {
    var pk, sig := StrAt(side, Lit("public_key_hex")).value, StrAt(side, Lit("signature_hex")).value;
    IsHexN(pk, 64) && IsHexN(sig, 128) && !PyWeak(pk)
  }

  // ---- the signature -------------------------------------------------------------------------------

  /** The trust store names this key for this signer. */
  ghost predicate Trusts(store: Option<map<Text, Text>>, side: seq<Member>)
  {
    var id, pk := StrAt(side, Lit("signer_id")), StrAt(side, Lit("public_key_hex"));
    store.Some? && id.Some? && pk.Some? && id.value in store.value && store.value[id.value] == pk.value
  }

  lemma SideNames()
    ensures SIGNED_SHA3() == Lit("signed_pack_sha3") && SIGNER_ID() == Lit("signer_id")
    ensures SIGNED_UTC() == Lit("signed_utc") && PUBLIC_KEY() == Lit("public_key_hex")
    ensures SIGNATURE() == Lit("signature_hex") && PACK_SHA3() == Lit("pack_sha3") && ALG() == Lit("alg")
    ensures FINGERPRINT() == Lit("fingerprint") && LEDGER_FILE() == Lit("ledger_file")
  {}

  /** A signature is trusted exactly if it is valid and the store names its key for its signer. */
  lemma TrustedExactly(host: Host, path: Text, store: Option<map<Text, Text>>, pack: seq<Member>)
    requires Profile(Object(pack))
    ensures var sig := CheckSignature(host, path, store, pack);
      sig.status == Pass && sig.trusted <==> exists side :: SignedBy(host, path, pack, side) && Trusts(store, side)
  {
    hide ValidSidecar, CheckSidecar, ReadDoc, SidecarFile, Profile, Trusts;
    var file := SidecarFile(host, path);
    ReadDocProfile(file);
    PresentDoc(file);
    if ReadDoc(file).Doc? && ReadDoc(file).value.Object? {
      var side := ReadDoc(file).value.members;
      SidecarPasses(host, store, pack, side);
      if ValidSidecar(host, pack, side) {
        SidecarTrusts(host, store, pack, side);
        assert SignedBy(host, path, pack, side);
      }
    }
  }

  lemma SidecarTrusts(host: Host, store: Option<map<Text, Text>>, pack: seq<Member>, side: seq<Member>)
    requires Profile(Object(pack)) && Profile(Object(side)) && CheckSidecar(host, store, pack, side).status == Pass
    ensures CheckSidecar(host, store, pack, side).trusted <==> Trusts(store, side)
  {
    hide SidecarKey, DigestWithout, IsHexN, PyWeak, SignedMessage, KeyFingerprint, Profile, Get, Lit,
      SIGNED_SHA3, PACK_SHA3, SIGNER_ID, PUBLIC_KEY, SIGNATURE, FINGERPRINT, SIGNED_UTC, PyInstant, ALG;
    SideNames();
  }

  /** The label of an ok receipt: trusted if some sidecar binds the content to a key the store names for the signer,
      signed if one binds it and there is no store, anchored if there is no sidecar at all. */
  lemma AuthenticityMeans(host: Host, inputs: Inputs, pack: seq<Member>)
    requires ReadDoc(host.files(inputs.path)) == Doc(Object(pack))
    ensures Profile(Object(pack))
    ensures var r := ReceiptOf(host, inputs);
      && (!r.ok ==> r.auth == FailedAuth)
      && (r.ok ==> r.auth != FailedAuth)
      && (r.ok ==> (r.auth == TrustedSigned <==>
                    exists side :: SignedBy(host, inputs.path, pack, side) && Trusts(inputs.store, side)))
      && (r.ok ==> (r.auth == SignedOnly <==>
                    inputs.store.None? && exists side :: SignedBy(host, inputs.path, pack, side)))
      && (r.ok ==> (r.auth == Authenticity.Anchored <==> !Present(SidecarFile(host, inputs.path))))
  {
    hide RunPart, CheckSignature, AnchoredIn, Profile, ReadDoc, Failing, Judged, Unassessed, StatesOf,
      PackReceipt.InOrder, SignedBy, Trusts, SidecarFile;
    ReadDocProfile(host.files(inputs.path));
    TrustedExactly(host, inputs.path, inputs.store, pack);
    SignaturePasses(host, inputs.path, inputs.store, pack);
    SkippedMeans(host, inputs, pack);
    StoreDecidesTrustOnly(host, inputs.path, pack, inputs.store, inputs.store);
  }

  /** Where there is no sidecar to judge: absent, unreadable for the host, or not a document. */
  lemma SidecarFound(host: Host, path: Text, store: Option<map<Text, Text>>, pack: seq<Member>)
    requires Profile(Object(pack))
    ensures var sig, f := CheckSignature(host, path, store, pack), host.files(path + Lit(".sig.json"));
      && (f.NoEntry? || f.NotDirectory? ==> sig == SignatureResult(Skip, NotPresent, true, false))
      && (f.LstatError? || f.ReadError? ==> sig == FailFor(Unreadable))
      && (f.NotRegular? ==> sig == FailFor(SidecarMalformed))
      && (f.Contents? && !(ReadDoc(f).Doc? && ReadDoc(f).value.Object?) ==> sig == FailFor(SidecarMalformed))
      && (f.Contents? && ReadDoc(f).Doc? && ReadDoc(f).value.Object? ==>
          Profile(ReadDoc(f).value) && sig == CheckSidecar(host, store, pack, ReadDoc(f).value.members))
  {
    hide CheckSidecar, Profile, EntryOf, Lit;
    ReadDocProfile(SidecarFile(host, path));
  }

  /** Why a sidecar does not pass: each reason with its circumstance. */
  lemma SidecarReasons(host: Host, store: Option<map<Text, Text>>, pack: seq<Member>, side: seq<Member>)
    requires Profile(Object(pack)) && Profile(Object(side))
    ensures var sig := CheckSidecar(host, store, pack, side);
      var known := forall m :: m in side ==> SidecarKey(m.key);
      && sig.status != Skip
      && (sig.status == Status.Fail && sig.reason == SidecarMalformed <==>
          !known || (Binding(host, pack, side) && !SidecarFields(side)))
      && (sig.status == Status.Fail && sig.reason == DigestMismatch <==> known && !Binding(host, pack, side))
      && (sig.status == Status.Fail && sig.reason == InstrumentFailure <==>
          Binding(host, pack, side) && SidecarFields(side) && KeyFits(side) && !host.crypto)
      && (sig.status == Status.Fail && sig.reason == SignatureInvalid <==>
          Binding(host, pack, side) && SidecarFields(side) && (KeyFits(side) ==> host.crypto)
          && !ValidSidecar(host, pack, side))
  {
    hide SidecarKey, DigestWithout, SidecarFields, StrAt, IsHexN, PyWeak, SignedMessage, KeyFingerprint, Profile, Lit,
      SIGNED_SHA3, PACK_SHA3, SIGNER_ID, PUBLIC_KEY, SIGNATURE, FINGERPRINT, Get;
    SideNames();
    assert (exists i :: 0 <= i < |side| && !SidecarKey(side[i].key)) <==>
      !(forall m :: m in side ==> SidecarKey(m.key));
  }

  // ---- the reasons ---------------------------------------------------------------------------------

  /** Why the ledger and the anchor in it are not verified. */
  ghost predicate LedgerReason(host: Host, inputs: Inputs, pack: seq<Member>, e: Element)
  {
    match ViewOf(host, inputs, pack)
    case Misnamed => false
    case Nowhere => e == Unjudged(NotPresent) && Asked(inputs)
    case HostFails => e == Unjudged(Unreadable)
    case NotEntries => e == Against(LedgerMalformed)
    case Unlinked(es) => e == Against(ChainBroken) || (e == Against(EntryUnknownMember) && AnyUnknown(es))
    case Whole(_, es) =>
      || (e == Against(EntryUnknownMember) && AnyUnknown(es))
      || (e == Against(RecordUnbound) && !AllBound(host.sha3, es))
      || (e == Against(NotAnchored) && AllBound(host.sha3, es)
          && !exists k :: 0 <= k < |es| && AnchorsPack(pack, es[k]))
      || (e == Against(StateMismatch) && !StateAgrees(pack, es, LastAnchor(pack, es)))
  }

  predicate Keyed(inputs: Inputs) { inputs.logKey.Some? && inputs.logKey.value != [] }

  /** Why the tip is not verified. */
  ghost predicate TipReason(host: Host, inputs: Inputs, pack: seq<Member>, e: Element)
  {
    match ViewOf(host, inputs, pack)
    case Whole(lp, es) =>
      var f := host.files(lp + Lit(".tip.json"));
      if f.NoEntry? || f.NotDirectory? then Keyed(inputs) && e == Unjudged(NotPresent)
      else if !Keyed(inputs) then e == Unjudged(KeyNotGiven)
      else if f.LstatError? || f.ReadError? then e == Unjudged(Unreadable)
      else if !ReadDoc(f).Doc? then e == Against(TipInvalid)
      else
        ReadDocProfile(f);
        var v := PyVerifyTip(host.ed, host.crypto, ReadDoc(f).value, inputs.logKey.value, |es|, SelfHash(es[0]),
                             SelfHash(es[|es| - 1]));
        if v == Unchecked then e == Unjudged(InstrumentFailure)
        else if v in {TailTruncated, UnsealedTail, OtherLedger, TailRewritten} then e == Against(TailMismatch)
        else v != Accepted && e == Against(TipInvalid)
    case _ => e == Unjudged(LedgerNotVerified)
  }

  /** Why a document recorded by this hash is not verified. */
  ghost predicate DocumentReason(host: Host, lp: Text, h: Text, e: Element)
  {
    match host.files(lp + Lit(".sources/") + h + Lit(".json"))
    case NoEntry => e == Unjudged(HashOnly)
    case NotRegular => e == Against(SourceMismatch)
    case Contents(b) => (|b| > MAX_SOURCE_BYTES || Digest(host.sha256, b) != h) && e == Against(SourceMismatch)
    case _ => e == Unjudged(Unreadable)
  }

  /** Why the source documents are not verified. */
  ghost predicate SourceReason(host: Host, inputs: Inputs, pack: seq<Member>, e: Element)
  {
    match ViewOf(host, inputs, pack)
    case Whole(lp, es) =>
      || (e == Against(RecordMalformed) && exists k :: 0 <= k < |es| && RefOf(es[k]).BadSource?)
      || exists k :: 0 <= k < |es| && RefOf(es[k]).Source? && DocumentReason(host, lp, RefOf(es[k]).hash, e)
    case _ => e == Unjudged(LedgerNotVerified)
  }

  /** Why the producer's signature is not verified: not passing, or valid but not trusted. */
  ghost predicate ProducerReason(host: Host, inputs: Inputs, pack: seq<Member>, e: Element)
    requires Profile(Object(pack))
  {
    var sig := CheckSignature(host, inputs.path, inputs.store, pack);
    if exists side :: SignedBy(host, inputs.path, pack, side) then
      || (inputs.store.None? && e == Unjudged(SelfAsserted))
      || (inputs.store.Some? && e == Unjudged(KeyUnresolved)
          && !exists side :: SignedBy(host, inputs.path, pack, side) && Trusts(inputs.store, side))
    else if sig.reason in {SidecarMalformed, DigestMismatch, SignatureInvalid} then e == Against(sig.reason)
    else e == Unjudged(sig.reason)
  }

  /** Why the content is not what was sealed. */
  ghost predicate SealReason(host: Host, pack: seq<Member>, e: Element)
    requires Profile(Object(pack))
  {
    || (e == Against(DigestMismatch)
        && Get(pack, Lit("pack_sha3")) != Some(Str(DigestWithout(host.sha3, pack, Lit("pack_sha3")))))
    || (e == Against(SelfVerificationFailed) && !SnapshotOk(pack))
  }

  ghost predicate Explains(host: Host, inputs: Inputs, pack: seq<Member>, s: Subject, e: Element)
    requires Profile(Object(pack))
  {
    match s
    case SealedContent => SealReason(host, pack, e)
    case LedgerAnchor => LedgerReason(host, inputs, pack, e)
    case SignedTip => TipReason(host, inputs, pack, e)
    case SourceDocuments => SourceReason(host, inputs, pack, e)
    case ProducerSignature => ProducerReason(host, inputs, pack, e)
  }

  // ---- stage by stage ------------------------------------------------------------------------------

  /** The view says what the ledger stage does. */
  lemma ViewIs(host: Host, inputs: Inputs, pack: seq<Member>)
    ensures ViewOf(host, inputs, pack) ==
      if NameBad(pack) then Misnamed
      else if !LedgerThere(host, inputs, pack) then Nowhere
      else
        var lp := LedgerPath(host, inputs, pack).value;
        match ReadLedger(host.files(lp))
        case HostCannotRead => HostFails
        case NotALedger => NotEntries
        case Entries(es) => if Profiles(es) && ChainOk(host.sha256, es) then Whole(lp, es) else Unlinked(es)
    ensures Asked(inputs) <==> LedgerAsked(inputs)
  {
    hide ReadEntries, Profile, Depth, Linked, Get, Lit;
    SideNames();
    NamesAgree(pack);
    if LedgerThere(host, inputs, pack) { ReadLedgerProfiles(host.files(LedgerPath(host, inputs, pack).value)); }
  }

  lemma NamesAgree(pack: seq<Member>)
    ensures forall v: Text :: PlainName(v) <==> FileNameOk(v)
  {}

  predicate Among(p: Part, s: Subject, e: Element) { Tagged(s, e) in p.elements }

  lemma AmongJoin(a: Part, b: Part, s: Subject, e: Element)
    ensures Among(Join(a, b), s, e) <==> Among(a, s, e) || Among(b, s, e)
  {}

  lemma NotLookedHas(s: Subject, e: Element)
    ensures Among(NotLooked(), s, e) <==> e == Unjudged(LedgerNotVerified) && (s == SignedTip || s == SourceDocuments)
  {}

  lemma SchemaHas(es: seq<Json>, s: Subject, e: Element)
    ensures Among(SchemaPart(es), s, e) <==> s == LedgerAnchor && e == Against(EntryUnknownMember) && AnyUnknown(es)
  {
    hide AnyUnknown;
  }

  lemma AnchorHas(host: Host, pack: seq<Member>, es: seq<Json>, s: Subject, e: Element)
    requires Profiles(es) && !e.Holds?
    ensures Among(AnchorPart(host, pack, es), s, e) <==>
      s == LedgerAnchor && (
      || (e == Against(RecordUnbound) && !AllBound(host.sha3, es))
      || (e == Against(NotAnchored) && AllBound(host.sha3, es)
          && !exists k :: 0 <= k < |es| && AnchorsPack(pack, es[k]))
      || (e == Against(StateMismatch) && !StateAgrees(pack, es, LastAnchor(pack, es))))
  {
    hide AllBound, LastAnchor, StateAgrees, AnchorsPack, Profile;
    LastAnchorExactly(pack, es);
  }

  lemma DocumentHas(host: Host, lp: Text, h: Text, e: Element)
    requires !e.Holds?
    ensures DocElement(host, lp, h) == e <==> DocumentReason(host, lp, h, e)
  {
    hide Digest, Lit;
  }

  lemma SourceHas(host: Host, lp: Text, es: seq<Json>, require: bool, s: Subject, e: Element)
    requires !e.Holds?
    ensures Among(SourcePart(host, lp, es, require), s, e) <==>
      s == SourceDocuments && (
      || (e == Against(RecordMalformed) && exists k :: 0 <= k < |es| && RefOf(es[k]).BadSource?)
      || exists k :: 0 <= k < |es| && RefOf(es[k]).Source? && DocumentReason(host, lp, RefOf(es[k]).hash, e))
  {
    hide DocElements, MalformedElements, GoCanonical.SortKeys, FirstSeen, BadCount, DocElement, RefOf, DocumentReason,
      SourcesBad, SourcesMissing, SourceStatus;
    var hs := GoCanonical.SortKeys(FirstSeen(es));
    SeenExactly(es);
    MalformedExactly(BadCount(es));
    DocElementsExactly(host, lp, hs);
    forall h ensures DocElement(host, lp, h) == e <==> DocumentReason(host, lp, h, e) { DocumentHas(host, lp, h, e); }
    if h :| h in hs && Tagged(s, e) == Tagged(SourceDocuments, DocElement(host, lp, h)) {
      var k :| 0 <= k < |es| && RefOf(es[k]) == Source(h);
      assert RefOf(es[k]).Source? && DocumentReason(host, lp, RefOf(es[k]).hash, e);
    }
    if k :| 0 <= k < |es| && RefOf(es[k]).Source? && DocumentReason(host, lp, RefOf(es[k]).hash, e) {
      assert RefOf(es[k]) == Source(RefOf(es[k]).hash) && RefOf(es[k]).hash in hs;
    }
  }

  /** A ledger that verifies: the tip element is the one the file and the verdict on it call for. */
  lemma TipHas(host: Host, inputs: Inputs, pack: seq<Member>, lp: Text, es: seq<Json>, s: Subject, e: Element)
    requires ViewOf(host, inputs, pack) == Whole(lp, es) && !e.Holds?
    ensures Among(TipPart(host, inputs.logKey, lp, es), s, e) <==> s == SignedTip && TipReason(host, inputs, pack, e)
  {
    hide ViewOf, PyVerifyTip, SelfHash, ReadEntries, EntryOf, Lit, Profile, Depth;
    var f := host.files(lp + Lit(".tip.json"));
    ReadDocProfile(f);
    if Keyed(inputs) && ReadDoc(f).Doc? {
      KeyedIsJudged(host, ReadDoc(f).value, inputs.logKey.value, |es|, SelfHash(es[0]), SelfHash(es[|es| - 1]));
    }
  }

  lemma KeyedIsJudged(host: Host, tip: Json, key: Text, count: nat, first: Text, last: Text)
    requires Profile(tip) && key != []
    ensures PyVerifyTip(host.ed, host.crypto, tip, key, count, first, last) != Untrusted
  {}

  lemma WholeHas(host: Host, inputs: Inputs, pack: seq<Member>, lp: Text, es: seq<Json>, s: Subject, e: Element)
    requires ViewOf(host, inputs, pack) == Whole(lp, es) && !e.Holds? && ChainOk(host.sha256, es)
    ensures Among(EntriesPart(host, inputs, pack, lp, es), s, e) <==>
      || (s == LedgerAnchor && LedgerReason(host, inputs, pack, e))
      || (s == SignedTip && TipReason(host, inputs, pack, e))
      || (s == SourceDocuments && SourceReason(host, inputs, pack, e))
  {
    hide ViewOf, ChainOk, SchemaPart, AnchorPart, SourcePart, TipPart, Join, Among, TipReason, AnyUnknown, AllBound,
      AnchorsPack, StateAgrees, LastAnchor, DocumentReason, RefOf, Profile;
    SchemaHas(es, s, e);
    AnchorHas(host, pack, es, s, e);
    SourceHas(host, lp, es, inputs.requireSources, s, e);
    TipHas(host, inputs, pack, lp, es, s, e);
    var a, b, c := SchemaPart(es), AnchorPart(host, pack, es), SourcePart(host, lp, es, inputs.requireSources);
    AmongJoin(a, b, s, e);
    AmongJoin(Join(a, b), c, s, e);
    AmongJoin(Join(Join(a, b), c), TipPart(host, inputs.logKey, lp, es), s, e);
  }

  lemma OneHas(l: Layer, x: Element, unmet: set<Unmet>, s: Subject, e: Element)
    ensures Among(Part([l], [Tagged(LedgerAnchor, x)], [], unmet), s, e) <==> s == LedgerAnchor && e == x
  {}

  lemma LedgerHas(host: Host, inputs: Inputs, pack: seq<Member>, s: Subject, e: Element)
    requires !e.Holds?
    ensures Among(LedgerPart(host, inputs, pack), s, e) <==>
      || (s == LedgerAnchor && LedgerReason(host, inputs, pack, e))
      || (s == SignedTip && TipReason(host, inputs, pack, e))
      || (s == SourceDocuments && SourceReason(host, inputs, pack, e))
  {
    hide ViewOf, NameBad, LedgerThere, LedgerPath, ReadLedger, EntriesPart, Join, LedgerAsked, NotLooked, Asked, Among,
      ChainOk, Profile, AnyUnknown, AllBound, AnchorsPack, StateAgrees, LastAnchor, DocumentReason, RefOf, SchemaPart;
    ViewIs(host, inputs, pack);
    NotLookedHas(s, e);
    if LedgerThere(host, inputs, pack) { VerifyPack.PathOfThere(host, inputs, pack); }
    match ViewOf(host, inputs, pack) {
      case Misnamed =>
        EmptyHas(Part([Judge(LedgerChain, false)], [], [Malformed], {}), s, e);
      case Nowhere =>
        OneHas(Judge(LedgerChain, false), Unjudged(NotPresent), {LedgerRequired}, s, e);
        EmptyHas(Part([Layer(LedgerChain, Skip, true)], [], [], {}), s, e);
      case HostFails =>
        OneHas(Judge(LedgerChain, false), Unjudged(Unreadable), {}, s, e);
      case NotEntries =>
        OneHas(Judge(LedgerChain, false), Against(LedgerMalformed), {}, s, e);
      case Unlinked(es) =>
        ReadLedgerProfiles(host.files(LedgerPath(host, inputs, pack).value));
        UnlinkedHas(host, inputs, pack, LedgerPath(host, inputs, pack).value, es, s, e);
      case Whole(lp, es) =>
        WholeHas(host, inputs, pack, lp, es, s, e);
    }
    forall a: Part ensures Among(Join(a, NotLooked()), s, e) <==> Among(a, s, e) || Among(NotLooked(), s, e) {
      AmongJoin(a, NotLooked(), s, e);
    }
  }

  lemma EmptyHas(p: Part, s: Subject, e: Element)
    requires p.elements == []
    ensures !Among(p, s, e)
  {}

  lemma UnlinkedHas(host: Host, inputs: Inputs, pack: seq<Member>, lp: Text, es: seq<Json>, s: Subject, e: Element)
    requires Profiles(es) && !ChainOk(host.sha256, es)
    ensures Among(EntriesPart(host, inputs, pack, lp, es), s, e) <==>
      || (s == LedgerAnchor && (e == Against(ChainBroken) || (e == Against(EntryUnknownMember) && AnyUnknown(es))))
      || (e == Unjudged(LedgerNotVerified) && (s == SignedTip || s == SourceDocuments))
  {
    hide ChainOk, SchemaPart, NotLooked, Join, AnyUnknown, Profile, Among;
    SchemaHas(es, s, e);
    NotLookedHas(s, e);
    OneHas(Judge(LedgerChain, false), Against(ChainBroken), {}, s, e);
    AmongJoin(SchemaPart(es), ChainFailed(Against(ChainBroken)), s, e);
    AmongJoin(Join(SchemaPart(es), ChainFailed(Against(ChainBroken))), NotLooked(), s, e);
  }

  lemma ProducerHas(host: Host, inputs: Inputs, pack: seq<Member>, s: Subject, e: Element)
    requires Profile(Object(pack)) && !e.Holds?
    ensures Among(ProducerPart(CheckSignature(host, inputs.path, inputs.store, pack), inputs.store.Some?), s, e)
      <==> s == ProducerSignature && ProducerReason(host, inputs, pack, e)
  {
    hide CheckSignature, SignedBy, Trusts, Profile;
    SignaturePasses(host, inputs.path, inputs.store, pack);
    TrustedExactly(host, inputs.path, inputs.store, pack);
    SignatureForms(host, inputs.path, inputs.store, pack);
  }

  lemma SealHas(host: Host, pack: seq<Member>, s: Subject, e: Element)
    requires Profile(Object(pack)) && !e.Holds?
    ensures Among(PackPart(host, pack), s, e) <==> s == SealedContent && SealReason(host, pack, e)
  {
    hide DigestWithout, SnapshotOk, KindOk, SchemaOk, ScopeOk, Profile, Get, Lit, PACK_SHA3;
    SideNames();
    var p := PackPart(host, pack);
    assert p.elements == [Against1(SealedContent, DigestOk(host, pack), DigestMismatch),
                          Against1(SealedContent, SnapshotOk(pack), SelfVerificationFailed)];
  }

  /** Every element that does not hold, with its circumstance. */
  lemma ElementsExplained(host: Host, inputs: Inputs, pack: seq<Member>, s: Subject, e: Element)
    requires Profile(Object(pack)) && !e.Holds?
    ensures Among(RunPart(host, inputs, pack), s, e) <==> Explains(host, inputs, pack, s, e)
  {
    hide PackPart, LedgerPart, ProducerPart, CheckSignature, Profile, Join, Among, SealReason, LedgerReason, TipReason,
      SourceReason, ProducerReason;
    var sig := CheckSignature(host, inputs.path, inputs.store, pack);
    SealHas(host, pack, s, e);
    LedgerHas(host, inputs, pack, s, e);
    ProducerHas(host, inputs, pack, s, e);
    AmongJoin(PackPart(host, pack), LedgerPart(host, inputs, pack), s, e);
    AmongJoin(Join(PackPart(host, pack), LedgerPart(host, inputs, pack)), ProducerPart(sig, inputs.store.Some?), s, e);
  }

  // ---- silence -------------------------------------------------------------------------------------

  /** Nothing was checked of this subject: no ledger and none asked for, no tip and no key, no recorded source. */
  ghost predicate Silent(host: Host, inputs: Inputs, pack: seq<Member>, s: Subject)
  {
    match ViewOf(host, inputs, pack)
    case Misnamed => s == LedgerAnchor
    case Nowhere => s == LedgerAnchor && !Asked(inputs)
    case Whole(lp, es) =>
      || (s == SignedTip && !Keyed(inputs) && !Present(host.files(lp + Lit(".tip.json"))))
      || (s == SourceDocuments && forall k :: 0 <= k < |es| ==> RefOf(es[k]).NoSource?)
    case _ => false
  }

  predicate Spoken(p: Part, s: Subject) { exists t :: t in p.elements && t.subject == s }

  lemma SpokenJoin(a: Part, b: Part, s: Subject)
    ensures Spoken(Join(a, b), s) <==> Spoken(a, s) || Spoken(b, s)
  {
    var c := Join(a, b);
    assert forall t :: t in c.elements <==> t in a.elements || t in b.elements;
  }

  lemma SpokenOne(l: Layer, t: Tagged, unmet: set<Unmet>, s: Subject)
    ensures Spoken(Part([l], [t], [], unmet), s) <==> s == t.subject
  {
    var p := Part([l], [t], [], unmet);
    assert t in p.elements;
  }

  lemma NotLookedSpoken(s: Subject)
    ensures Spoken(NotLooked(), s) <==> s == SignedTip || s == SourceDocuments
  {
    assert NotLooked().elements[0] in NotLooked().elements && NotLooked().elements[1] in NotLooked().elements;
  }

  lemma EntriesSpoken(host: Host, pack: seq<Member>, es: seq<Json>, s: Subject)
    requires Profiles(es)
    ensures Spoken(AnchorPart(host, pack, es), s) <==> s == LedgerAnchor
    ensures Spoken(SchemaPart(es), s) ==> s == LedgerAnchor
  {
    hide AllBound, LastAnchor, StateAgrees, AnyUnknown, Profile;
    assert AnchorPart(host, pack, es).elements[0] in AnchorPart(host, pack, es).elements;
  }

  lemma SourceSpoken(host: Host, lp: Text, es: seq<Json>, require: bool, s: Subject)
    ensures Spoken(SourcePart(host, lp, es, require), s) <==>
      s == SourceDocuments && exists k :: 0 <= k < |es| && !RefOf(es[k]).NoSource?
  {
    hide DocElements, MalformedElements, GoCanonical.SortKeys, FirstSeen, BadCount, DocElement, RefOf, SourceStatus,
      SourcesMissing;
    var hs := GoCanonical.SortKeys(FirstSeen(es));
    SeenExactly(es);
    MalformedExactly(BadCount(es));
    DocElementsExactly(host, lp, hs);
    var p := SourcePart(host, lp, es, require);
    if k :| 0 <= k < |es| && !RefOf(es[k]).NoSource? {
      if RefOf(es[k]).Source? {
        var h := RefOf(es[k]).hash;
        assert RefOf(es[k]) == Source(h) && h in hs;
        assert Tagged(SourceDocuments, DocElement(host, lp, h)) in p.elements;
      } else {
        assert Tagged(SourceDocuments, Against(RecordMalformed)) in p.elements;
      }
    }
    if t :| t in p.elements {
      if t in DocElements(host, lp, hs) {
        var h :| h in hs && t == Tagged(SourceDocuments, DocElement(host, lp, h));
        var k :| 0 <= k < |es| && RefOf(es[k]) == Source(h);
      }
    }
  }

  lemma TipSpoken(host: Host, inputs: Inputs, lp: Text, es: seq<Json>, s: Subject)
    requires es != []
    ensures Spoken(TipPart(host, inputs.logKey, lp, es), s) <==>
      s == SignedTip && (Keyed(inputs) || Present(host.files(lp + Lit(".tip.json"))))
  {
    hide TipVerdict, Lit, Present, Profile;
    var p := TipPart(host, inputs.logKey, lp, es);
    if p.elements != [] { assert p.elements[0] in p.elements; }
  }

  lemma LedgerSpoken(host: Host, inputs: Inputs, pack: seq<Member>, s: Subject)
    ensures Spoken(LedgerPart(host, inputs, pack), s) <==>
      s in {LedgerAnchor, SignedTip, SourceDocuments} && !Silent(host, inputs, pack, s)
  {
    hide ViewOf, NameBad, LedgerThere, LedgerPath, ReadLedger, Join, LedgerAsked, NotLooked, Asked, Spoken, ChainOk,
      Profile, RefOf, SchemaPart, AnchorPart, SourcePart, TipPart, Present;
    ViewIs(host, inputs, pack);
    NotLookedSpoken(s);
    if LedgerThere(host, inputs, pack) { VerifyPack.PathOfThere(host, inputs, pack); }
    forall a: Part ensures Spoken(Join(a, NotLooked()), s) <==> Spoken(a, s) || Spoken(NotLooked(), s) {
      SpokenJoin(a, NotLooked(), s);
    }
    forall l: Layer, x: Element, u: set<Unmet>
      ensures Spoken(Part([l], [Tagged(LedgerAnchor, x)], [], u), s) <==> s == LedgerAnchor
    {
      SpokenOne(l, Tagged(LedgerAnchor, x), u, s);
    }
    EmptySpoken(Part([Judge(LedgerChain, false)], [], [Malformed], {}), s);
    EmptySpoken(Part([Layer(LedgerChain, Skip, true)], [], [], {}), s);
    match ViewOf(host, inputs, pack) {
      case Unlinked(es) =>
        ReadLedgerProfiles(host.files(LedgerPath(host, inputs, pack).value));
        EntriesSpoken(host, pack, es, s);
        SpokenJoin(SchemaPart(es), ChainFailed(Against(ChainBroken)), s);
      case Whole(lp, es) =>
        WholeSpoken(host, inputs, pack, lp, es, s);
      case _ =>
    }
  }

  lemma EmptySpoken(p: Part, s: Subject)
    requires p.elements == []
    ensures !Spoken(p, s)
  {}

  lemma WholeSpoken(host: Host, inputs: Inputs, pack: seq<Member>, lp: Text, es: seq<Json>, s: Subject)
    requires ViewOf(host, inputs, pack) == Whole(lp, es) && ChainOk(host.sha256, es)
    ensures Spoken(EntriesPart(host, inputs, pack, lp, es), s) <==>
      s in {LedgerAnchor, SignedTip, SourceDocuments} && !Silent(host, inputs, pack, s)
  {
    hide ViewOf, ChainOk, SchemaPart, AnchorPart, SourcePart, TipPart, Join, Spoken, RefOf, Profile, Present;
    EntriesSpoken(host, pack, es, s);
    SourceSpoken(host, lp, es, inputs.requireSources, s);
    TipSpoken(host, inputs, lp, es, s);
    var a, b, c := SchemaPart(es), AnchorPart(host, pack, es), SourcePart(host, lp, es, inputs.requireSources);
    SpokenJoin(a, b, s);
    SpokenJoin(Join(a, b), c, s);
    SpokenJoin(Join(Join(a, b), c), TipPart(host, inputs.logKey, lp, es), s);
  }

  lemma RunSpoken(host: Host, inputs: Inputs, pack: seq<Member>, s: Subject)
    requires Profile(Object(pack))
    ensures Spoken(RunPart(host, inputs, pack), s) <==> !Silent(host, inputs, pack, s)
  {
    hide FormPart, LedgerPart, CheckSignature, Profile, Join, Spoken, Silent, DigestOk, SnapshotOk;
    var sig := CheckSignature(host, inputs.path, inputs.store, pack);
    LedgerSpoken(host, inputs, pack, s);
    SealSpoken(host, pack, s);
    ProducerSpoken(sig, inputs.store.Some?, s);
    SpokenJoin(PackPart(host, pack), LedgerPart(host, inputs, pack), s);
    SpokenJoin(Join(PackPart(host, pack), LedgerPart(host, inputs, pack)), ProducerPart(sig, inputs.store.Some?), s);
    OnlyLedgerIsSilent(host, inputs, pack, s);
  }

  lemma OnlyLedgerIsSilent(host: Host, inputs: Inputs, pack: seq<Member>, s: Subject)
    ensures Silent(host, inputs, pack, s) ==> s in {LedgerAnchor, SignedTip, SourceDocuments}
  {
    hide ViewOf, RefOf, Present, Asked;
  }

  lemma SealSpoken(host: Host, pack: seq<Member>, s: Subject)
    requires Profile(Object(pack))
    ensures Spoken(PackPart(host, pack), s) <==> s == SealedContent
  {
    hide DigestOk, SnapshotOk, KindOk, SchemaOk, ScopeOk, Profile;
    var p := PackPart(host, pack);
    assert p.elements == SealPart(host, pack).elements && p.elements[0] in p.elements;
  }

  lemma ProducerSpoken(sig: SignatureResult, store: bool, s: Subject)
    ensures Spoken(ProducerPart(sig, store), s) <==> s == ProducerSignature
  {
    assert ProducerPart(sig, store).elements[0] in ProducerPart(sig, store).elements;
  }

  // ---- the states ----------------------------------------------------------------------------------

  /** Every state of an admitted receipt: its reasons are exactly the circumstances that hold, it is contradicted
      exactly if one of them speaks against the pack, and verified exactly if there is none. */
  lemma StatesExplained(host: Host, inputs: Inputs, pack: seq<Member>, s: Subject, f: Folded)
    requires ReadDoc(host.files(inputs.path)) == Doc(Object(pack)) && Profile(Object(pack))
    requires var r := ReceiptOf(host, inputs); r.admission.Admitted? && (s, f) in r.admission.states
    ensures forall w :: w in f.reasons <==>
      || Explains(host, inputs, pack, s, Against(w)) || Explains(host, inputs, pack, s, Unjudged(w))
      || (Silent(host, inputs, pack, s) && w == NotPresent)
    ensures f.state == Contradicted <==> exists w :: Explains(host, inputs, pack, s, Against(w))
    ensures f.state == Verified <==>
      !Silent(host, inputs, pack, s) && forall e: Element :: !e.Holds? ==> !Explains(host, inputs, pack, s, e)
  {
    hide RunPart, CheckSignature, AnchoredIn, Profile, ReadDoc, Failing, Judged, Unassessed, StatesOf, PackReceipt.Fold,
      PackReceipt.InOrder, Explains, Silent, Spoken, ElementsOf;
    var p := RunPart(host, inputs, pack);
    StatesTell(p, s, f);
    RunSpoken(host, inputs, pack, s);
    forall e: Element | !e.Holds? ensures Among(p, s, e) <==> Explains(host, inputs, pack, s, e) {
      ElementsExplained(host, inputs, pack, s, e);
    }
    FoldedTells(p, s);
    if Silent(host, inputs, pack, s) { NothingSilent(host, inputs, pack, s); }
  }

  /** What is silent has no circumstance. */
  lemma NothingSilent(host: Host, inputs: Inputs, pack: seq<Member>, s: Subject)
    requires Profile(Object(pack)) && Silent(host, inputs, pack, s)
    ensures forall e: Element :: !e.Holds? ==> !Explains(host, inputs, pack, s, e)
  {
    hide RunPart, Explains, Silent, Profile;
    RunSpoken(host, inputs, pack, s);
    forall e: Element | !e.Holds? ensures !Explains(host, inputs, pack, s, e) {
      ElementsExplained(host, inputs, pack, s, e);
    }
  }

  lemma FoldedTells(p: Part, s: Subject)
    ensures var f := PackReceipt.Fold(ElementsOf(p, s));
      && (forall w :: w in f.reasons <==>
          Among(p, s, Against(w)) || Among(p, s, Unjudged(w)) || (!Spoken(p, s) && w == NotPresent))
      && (f.state == Contradicted <==> exists w :: Among(p, s, Against(w)))
      && (f.state == Verified <==> Spoken(p, s) && forall e: Element :: !e.Holds? ==> !Among(p, s, e))
  {
    hide Filter, Highest, ReasonsOf;
    var es := ElementsOf(p, s);
    FilterExactly(p.elements, s);
    FoldMeaning(es);
    ReasonsExactly(es);
    if t :| t in p.elements && t.subject == s { assert t == Tagged(s, t.e) && t.e in es; }
    if es != [] { assert es[0] in es && Tagged(s, es[0]) in p.elements; }
    if e :| e in es && e.Against? { assert e == Against(e.why) && Among(p, s, Against(e.why)); }
  }

  // ---- anchor, policy and refusal ------------------------------------------------------------------

  /** The ledger verifies, every record in it is bound, and one of them anchors the pack. */
  ghost predicate HasAnchor(host: Host, inputs: Inputs, pack: seq<Member>)
  {
    match ViewOf(host, inputs, pack)
    case Whole(_, es) => AllBound(host.sha3, es) && exists k :: 0 <= k < |es| && AnchorsPack(pack, es[k])
    case _ => false
  }

  lemma AnchorMeans(host: Host, inputs: Inputs, pack: seq<Member>)
    ensures AnchoredIn(host, inputs, pack) <==> HasAnchor(host, inputs, pack)
  {
    hide ViewOf, NameBad, LedgerThere, LedgerPath, ReadEntries, AllBound, LastAnchor, AnchorsPack, Linked, Profile,
      Depth;
    ViewIs(host, inputs, pack);
    if LedgerThere(host, inputs, pack) {
      VerifyPack.PathOfThere(host, inputs, pack);
      var f := host.files(LedgerPath(host, inputs, pack).value);
      ReadLedgerProfiles(f);
      if f.Contents? && ReadEntries(f.bytes).Some? { LastAnchorExactly(pack, ReadEntries(f.bytes).value); }
    }
  }

  /** When an item of the policy is not met. */
  ghost predicate NotMet(host: Host, inputs: Inputs, pack: seq<Member>, u: Unmet)
    requires Profile(Object(pack))
  {
    match u
    case TrustedSigner =>
      inputs.store.Some? && !exists side :: SignedBy(host, inputs.path, pack, side) && Trusts(inputs.store, side)
    case LedgerRequired => ViewOf(host, inputs, pack).Nowhere? && Asked(inputs)
    case TipRequired => TipReason(host, inputs, pack, Unjudged(NotPresent))
    case SourcesRequired => inputs.requireSources && SourceReason(host, inputs, pack, Unjudged(HashOnly))
    case AuthenticityBasis =>
      !(exists side :: SignedBy(host, inputs.path, pack, side)) && !HasAnchor(host, inputs, pack)
  }

  lemma EntriesUnmet(host: Host, inputs: Inputs, pack: seq<Member>, lp: Text, es: seq<Json>)
    requires ViewOf(host, inputs, pack) == Whole(lp, es) && ChainOk(host.sha256, es)
    ensures var u := EntriesPart(host, inputs, pack, lp, es).unmet;
      && (TipRequired in u <==> TipReason(host, inputs, pack, Unjudged(NotPresent)))
      && (SourcesRequired in u <==> inputs.requireSources && SourceReason(host, inputs, pack, Unjudged(HashOnly)))
      && TrustedSigner !in u && LedgerRequired !in u && AuthenticityBasis !in u
  {
    hide ViewOf, ChainOk, TipReason, AnyUnknown, AllBound, LastAnchor, StateAgrees, RefOf, Profile, SourceElements,
      SourceStatus, TipVerdict, DocumentReason, Lit;
    SourceHas(host, lp, es, inputs.requireSources, SourceDocuments, Unjudged(HashOnly));
    TipUnmet(host, inputs, pack, lp, es);
  }

  lemma TipUnmet(host: Host, inputs: Inputs, pack: seq<Member>, lp: Text, es: seq<Json>)
    requires ViewOf(host, inputs, pack) == Whole(lp, es)
    ensures var u := TipPart(host, inputs.logKey, lp, es).unmet;
      u == if TipReason(host, inputs, pack, Unjudged(NotPresent)) then {TipRequired} else {}
  {
    hide ViewOf, TipVerdict, PyVerifyTip, SelfHash, Lit, Profile, ReadDoc;
  }

  lemma LedgerUnmet(host: Host, inputs: Inputs, pack: seq<Member>)
    ensures var p := LedgerPart(host, inputs, pack);
      && (LedgerRequired in p.unmet <==> ViewOf(host, inputs, pack).Nowhere? && Asked(inputs))
      && (TipRequired in p.unmet <==> TipReason(host, inputs, pack, Unjudged(NotPresent)))
      && (SourcesRequired in p.unmet <==>
          inputs.requireSources && SourceReason(host, inputs, pack, Unjudged(HashOnly)))
      && TrustedSigner !in p.unmet && AuthenticityBasis !in p.unmet
      && p.refusal == if ViewOf(host, inputs, pack).Misnamed? then [Malformed] else []
  {
    hide ViewOf, NameBad, LedgerThere, LedgerPath, ReadLedger, LedgerAsked, Asked, ChainOk, Profile, AnyUnknown,
      AllBound, LastAnchor, StateAgrees, RefOf, SourceElements, SourceStatus, TipVerdict, TipPart, DocumentReason, Lit,
      ReadDoc, PyVerifyTip, SelfHash;
    ViewIs(host, inputs, pack);
    if LedgerThere(host, inputs, pack) { VerifyPack.PathOfThere(host, inputs, pack); }
    match ViewOf(host, inputs, pack) {
      case Unlinked(es) => ReadLedgerProfiles(host.files(LedgerPath(host, inputs, pack).value));
      case Whole(lp, es) =>
        EntriesUnmet(host, inputs, pack, lp, es);
        TipUnmet(host, inputs, pack, lp, es);
        NoRefusal(host, inputs, pack, lp, es);
      case _ =>
    }
  }

  lemma NoRefusal(host: Host, inputs: Inputs, pack: seq<Member>, lp: Text, es: seq<Json>)
    requires Profiles(es) && ChainOk(host.sha256, es)
    ensures EntriesPart(host, inputs, pack, lp, es).refusal == []
  {
    hide ChainOk, Profile, AnyUnknown, AllBound, LastAnchor, StateAgrees, SourceElements, SourceStatus, TipVerdict,
      Lit;
  }

  /** The pack is refused exactly for its kind, a field outside the closed list, its scope, or the name of its ledger,
      and the class is that of the first of these. */
  ghost function RefusalOf(host: Host, inputs: Inputs, pack: seq<Member>): (r: Option<RefusalClass>)
  {
    if !KindOk(pack) then Some(FormatUnsupported)
    else if !SchemaOk(pack) then Some(UnknownMember)
    else if !ScopeOk(pack) || ViewOf(host, inputs, pack).Misnamed? then Some(Malformed)
    else None
  }

  /** Admission, anchor and policy of a receipt. */
  lemma AdmissionExplained(host: Host, inputs: Inputs, pack: seq<Member>)
    requires ReadDoc(host.files(inputs.path)) == Doc(Object(pack)) && Profile(Object(pack))
    ensures var r := ReceiptOf(host, inputs);
      && (r.anchored <==> HasAnchor(host, inputs, pack))
      && (match RefusalOf(host, inputs, pack)
          case Some(c) => r.admission == Refused(c)
          case None => r.admission.Admitted? && forall u :: u in r.admission.unmet <==> NotMet(host, inputs, pack, u))
  {
    hide CheckSignature, AnchoredIn, Profile, ReadDoc, Failing, Judged, Unassessed, StatesOf, PackReceipt.InOrder,
      KindOk, SchemaOk, ScopeOk, DigestOk, SnapshotOk, LedgerPart, SignedBy, Trusts, HasAnchor, TipReason, SourceReason,
      ViewOf, Asked, ProducerElement;
    var sig := CheckSignature(host, inputs.path, inputs.store, pack);
    AnchorMeans(host, inputs, pack);
    LedgerUnmet(host, inputs, pack);
    SignaturePasses(host, inputs.path, inputs.store, pack);
    TrustedExactly(host, inputs.path, inputs.store, pack);
    var p := RunPart(host, inputs, pack);
    var unmet :=
      if sig.status == Pass || AnchoredIn(host, inputs, pack) then p.unmet else p.unmet + {AuthenticityBasis};
    InOrderExactly(unmet);
    forall u ensures u in unmet <==> NotMet(host, inputs, pack, u) {
      match u {
        case TrustedSigner =>
        case LedgerRequired =>
        case TipRequired =>
        case SourcesRequired =>
        case AuthenticityBasis =>
      }
    }
  }

  // ---- the layers ----------------------------------------------------------------------------------

  /** The layers of a run: which are there, and what each says. */
  ghost predicate Shown(host: Host, inputs: Inputs, pack: seq<Member>, l: Layer)
    requires Profile(Object(pack))
  {
    match l.name
    case PackJson => l == Layer(PackJson, Pass, true)
    case PackKind => l == Verdict1(LayerName.PackKind, KindOk(pack))
    case PackSchema => l == Verdict1(PackSchema, SchemaOk(pack))
    case HonestScope => l == Verdict1(HonestScope, ScopeOk(pack))
    case PackSha3 => l == Verdict1(PackSha3, !SealReason(host, pack, Against(DigestMismatch)))
    case PackSelfVerification => l == Verdict1(PackSelfVerification, SnapshotOk(pack))
    case ProducerLayer =>
      var sig := CheckSignature(host, inputs.path, inputs.store, pack);
      l == Layer(ProducerLayer, sig.status, sig.reason != InstrumentFailure)
    case TrustedSignerLayer =>
      && l == Layer(TrustedSignerLayer, Status.Fail, true)
      && inputs.store.Some? && CheckSignature(host, inputs.path, inputs.store, pack).status != Status.Fail
      && !exists side :: SignedBy(host, inputs.path, pack, side) && Trusts(inputs.store, side)
    case _ => ShownOfLedger(host, inputs, pack, l)
  }

  function Verdict1(name: LayerName, ok: bool): (l: Layer) { Layer(name, if ok then Pass else Status.Fail, true) }

  ghost predicate ShownOfLedger(host: Host, inputs: Inputs, pack: seq<Member>, l: Layer)
  {
    match ViewOf(host, inputs, pack)
    case Nowhere => l == Layer(LedgerChain, if Asked(inputs) then Status.Fail else Skip, true)
    case Unlinked(es) =>
      || l == Layer(LedgerChain, Status.Fail, true)
      || (l == Layer(LedgerSchema, Status.Fail, true) && AnyUnknown(es))
    case Whole(lp, es) =>
      || (l == Layer(LedgerSchema, Status.Fail, true) && AnyUnknown(es))
      || l == Verdict1(LedgerChain, HasAnchor(host, inputs, pack))
      || l == Verdict1(PackLedgerState, StateAgrees(pack, es, LastAnchor(pack, es)))
      || l == Layer(SourceLayer, SourcesShown(host, inputs, pack), true)
      || l == TipShown(host, inputs, pack)
    case _ => l == Layer(LedgerChain, Status.Fail, true)
  }

  /** Failing if a document speaks against its record or can not be read, or is missing though required; skipped if
      one is missing or none is recorded. */
  ghost function SourcesShown(host: Host, inputs: Inputs, pack: seq<Member>): (r: Status)
  {
    var bad := exists e: Element ::
      SourceReason(host, inputs, pack, e) && (e.Against? || e == Unjudged(Unreadable));
    var missing := SourceReason(host, inputs, pack, Unjudged(HashOnly));
    if bad || (missing && inputs.requireSources) then Status.Fail
    else if missing || Silent(host, inputs, pack, SourceDocuments) then Skip
    else Pass
  }

  /** Skipped without a log key; otherwise passing exactly if nothing keeps the tip from being verified. */
  ghost function TipShown(host: Host, inputs: Inputs, pack: seq<Member>): (l: Layer)
  {
    if !Keyed(inputs) then Layer(TipLayer, Skip, true)
    else if exists e :: TipReason(host, inputs, pack, e)
    then Layer(TipLayer, Status.Fail, !TipReason(host, inputs, pack, Unjudged(InstrumentFailure)))
    else Layer(TipLayer, Pass, true)
  }

  predicate Laid(p: Part, l: Layer) { l in p.layers }

  lemma LaidJoin(a: Part, b: Part, l: Layer)
    ensures Laid(Join(a, b), l) <==> Laid(a, l) || Laid(b, l)
  {}

  lemma SourceLaid(host: Host, inputs: Inputs, pack: seq<Member>, lp: Text, es: seq<Json>, l: Layer)
    requires ViewOf(host, inputs, pack) == Whole(lp, es)
    ensures Laid(SourcePart(host, lp, es, inputs.requireSources), l)
      <==> l == Layer(SourceLayer, SourcesShown(host, inputs, pack), true)
  {
    hide ViewOf, SourceElements, RefOf, DocumentReason, Among, Spoken;
    var p := SourcePart(host, lp, es, inputs.requireSources);
    var ts := SourceElements(host, lp, es);
    forall e: Element | !e.Holds?
      ensures Among(p, SourceDocuments, e) <==> SourceReason(host, inputs, pack, e)
    {
      SourceHas(host, lp, es, inputs.requireSources, SourceDocuments, e);
    }
    SourceSpoken(host, lp, es, inputs.requireSources, SourceDocuments);
    AllSources(host, lp, es);
    StatusFrom(p, ts, inputs.requireSources);
    HoldsHasNoReason(host, inputs, pack);
  }

  lemma HoldsHasNoReason(host: Host, inputs: Inputs, pack: seq<Member>)
    ensures !SourceReason(host, inputs, pack, Holds) && !TipReason(host, inputs, pack, Holds)
  {
    hide ViewOf, RefOf, PyVerifyTip, ReadDoc, Digest, SelfHash;
  }

  lemma AllSources(host: Host, lp: Text, es: seq<Json>)
    ensures forall t :: t in SourceElements(host, lp, es) ==> t.subject == SourceDocuments
  {
    hide BadCount, FirstSeen, GoCanonical.SortKeys, DocElement, DocElements, MalformedElements;
    MalformedExactly(BadCount(es));
    DocElementsExactly(host, lp, GoCanonical.SortKeys(FirstSeen(es)));
  }

  lemma StatusFrom(p: Part, ts: seq<Tagged>, require: bool)
    requires p.elements == ts && forall t :: t in ts ==> t.subject == SourceDocuments
    ensures Spoken(p, SourceDocuments) <==> ts != []
    ensures SourcesBad(ts) <==>
      exists e: Element :: !e.Holds? && Among(p, SourceDocuments, e) && (e.Against? || e == Unjudged(Unreadable))
    ensures SourcesMissing(ts) <==> Among(p, SourceDocuments, Unjudged(HashOnly))
  {
    if ts != [] { assert ts[0] in p.elements; }
    if t :| t in ts && BadElement(t) { assert t == Tagged(SourceDocuments, t.e); }
    if e: Element :| !e.Holds? && Among(p, SourceDocuments, e) && (e.Against? || e == Unjudged(Unreadable)) {
      assert BadElement(Tagged(SourceDocuments, e));
    }
  }

  lemma TipLaid(host: Host, inputs: Inputs, pack: seq<Member>, lp: Text, es: seq<Json>, l: Layer)
    requires ViewOf(host, inputs, pack) == Whole(lp, es)
    ensures Laid(TipPart(host, inputs.logKey, lp, es), l) <==> l == TipShown(host, inputs, pack)
  {
    hide ViewOf, Among, TipReason, TipVerdict, Lit, Profile, Present, TipPart;
    var p := TipPart(host, inputs.logKey, lp, es);
    forall e: Element | !e.Holds? ensures Among(p, SignedTip, e) <==> TipReason(host, inputs, pack, e) {
      TipHas(host, inputs, pack, lp, es, SignedTip, e);
    }
    HoldsHasNoReason(host, inputs, pack);
    TipAmong(host, inputs, lp, es);
    TipLayers(host, inputs, lp, es);
    if Keyed(inputs) {
      var e := TipFound(host, inputs, lp, es);
      assert TipReason(host, inputs, pack, Unjudged(InstrumentFailure)) <==> e == Unjudged(InstrumentFailure);
      if e.Holds? {
        forall x ensures !TipReason(host, inputs, pack, x) {}
      } else {
        assert TipReason(host, inputs, pack, e);
      }
    }
  }

  /** What the stage of the tip finds, where there is a key. */
  ghost function TipFound(host: Host, inputs: Inputs, lp: Text, es: seq<Json>): (e: Element)
    requires Keyed(inputs) && es != []
  {
    if !Present(host.files(TipPath(lp))) then Unjudged(NotPresent)
    else TipVerdict(host, inputs.logKey.value, lp, es)
  }

  lemma TipLayers(host: Host, inputs: Inputs, lp: Text, es: seq<Json>)
    requires es != []
    ensures TipPart(host, inputs.logKey, lp, es).layers ==
      if !Keyed(inputs) then [Layer(TipLayer, Skip, true)]
      else
        var e := TipFound(host, inputs, lp, es);
        [Layer(TipLayer, if e.Holds? then Pass else Status.Fail, e != Unjudged(InstrumentFailure))]
  {
    hide TipVerdict, Present, Profile, TipPath;
  }

  lemma TipAmong(host: Host, inputs: Inputs, lp: Text, es: seq<Json>)
    requires es != []
    ensures Keyed(inputs) ==>
      forall e :: Among(TipPart(host, inputs.logKey, lp, es), SignedTip, e) <==> e == TipFound(host, inputs, lp, es)
  {
    hide TipVerdict, Present, Profile, TipPath;
  }

  lemma EntriesLaid(host: Host, inputs: Inputs, pack: seq<Member>, lp: Text, es: seq<Json>, l: Layer)
    requires ViewOf(host, inputs, pack) == Whole(lp, es) && ChainOk(host.sha256, es)
    ensures Laid(EntriesPart(host, inputs, pack, lp, es), l) <==> ShownOfLedger(host, inputs, pack, l)
  {
    hide ViewOf, ChainOk, SchemaPart, AnchorPart, SourcePart, TipPart, Join, Laid, AnyUnknown, AllBound, AnchorsPack,
      StateAgrees, LastAnchor, SourcesShown, TipShown, Profile;
    SchemaLaid(es, l);
    AnchorLaid(host, pack, es, l);
    SourceLaid(host, inputs, pack, lp, es, l);
    TipLaid(host, inputs, pack, lp, es, l);
    var a, b, c := SchemaPart(es), AnchorPart(host, pack, es), SourcePart(host, lp, es, inputs.requireSources);
    LaidJoin(a, b, l);
    LaidJoin(Join(a, b), c, l);
    LaidJoin(Join(Join(a, b), c), TipPart(host, inputs.logKey, lp, es), l);
  }

  lemma SchemaLaid(es: seq<Json>, l: Layer)
    ensures Laid(SchemaPart(es), l) <==> l == Layer(LedgerSchema, Status.Fail, true) && AnyUnknown(es)
  {
    hide AnyUnknown;
  }

  lemma AnchorLaid(host: Host, pack: seq<Member>, es: seq<Json>, l: Layer)
    requires Profiles(es)
    ensures Laid(AnchorPart(host, pack, es), l) <==>
      || l == Verdict1(LedgerChain, AllBound(host.sha3, es) && exists k :: 0 <= k < |es| && AnchorsPack(pack, es[k]))
      || l == Verdict1(PackLedgerState, StateAgrees(pack, es, LastAnchor(pack, es)))
  {
    hide AllBound, LastAnchor, StateAgrees, AnchorsPack, Profile;
    LastAnchorExactly(pack, es);
  }

  lemma LedgerLaid(host: Host, inputs: Inputs, pack: seq<Member>, l: Layer)
    ensures Laid(LedgerPart(host, inputs, pack), l) <==> ShownOfLedger(host, inputs, pack, l)
  {
    hide ViewOf, NameBad, LedgerThere, LedgerPath, ReadLedger, Join, LedgerAsked, NotLooked, Asked, Laid, ChainOk,
      Profile, AnyUnknown, HasAnchor, StateAgrees, LastAnchor, SourcesShown, TipShown, SchemaPart, AnchorPart,
      SourcePart, TipPart;
    ViewIs(host, inputs, pack);
    NotLookedLaid(l);
    if LedgerThere(host, inputs, pack) { VerifyPack.PathOfThere(host, inputs, pack); }
    forall a: Part ensures Laid(Join(a, NotLooked()), l) <==> Laid(a, l) || Laid(NotLooked(), l) {
      LaidJoin(a, NotLooked(), l);
    }
    forall x: Layer, ts: seq<Tagged>, rs: seq<RefusalClass>, u: set<Unmet>
      ensures Laid(Part([x], ts, rs, u), l) <==> l == x
    {
      OneLaid(x, ts, rs, u, l);
    }
    match ViewOf(host, inputs, pack) {
      case Unlinked(es) =>
        ReadLedgerProfiles(host.files(LedgerPath(host, inputs, pack).value));
        SchemaLaid(es, l);
        LaidJoin(SchemaPart(es), ChainFailed(Against(ChainBroken)), l);
      case Whole(lp, es) =>
        EntriesLaid(host, inputs, pack, lp, es, l);
      case _ =>
    }
  }

  lemma NotLookedLaid(l: Layer)
    ensures !Laid(NotLooked(), l)
  {}

  lemma OneLaid(x: Layer, ts: seq<Tagged>, rs: seq<RefusalClass>, u: set<Unmet>, l: Layer)
    ensures Laid(Part([x], ts, rs, u), l) <==> l == x
  {}

  lemma FormLaid(host: Host, pack: seq<Member>, l: Layer)
    requires Profile(Object(pack))
    ensures Laid(PackPart(host, pack), l) <==>
      || l == Layer(PackJson, Pass, true) || l == Verdict1(LayerName.PackKind, KindOk(pack))
      || l == Verdict1(PackSchema, SchemaOk(pack)) || l == Verdict1(HonestScope, ScopeOk(pack))
      || l == Verdict1(PackSha3, !SealReason(host, pack, Against(DigestMismatch)))
      || l == Verdict1(PackSelfVerification, SnapshotOk(pack))
  {
    hide DigestWithout, SnapshotOk, KindOk, SchemaOk, ScopeOk, Profile, Get, Lit, PACK_SHA3;
    SideNames();
  }

  lemma ProducerLaid(host: Host, inputs: Inputs, pack: seq<Member>, l: Layer)
    requires Profile(Object(pack))
    ensures var sig := CheckSignature(host, inputs.path, inputs.store, pack);
      Laid(ProducerPart(sig, inputs.store.Some?), l) <==>
        || l == Layer(ProducerLayer, sig.status, sig.reason != InstrumentFailure)
        || (l == Layer(TrustedSignerLayer, Status.Fail, true) && inputs.store.Some? && sig.status != Status.Fail
            && !exists side :: SignedBy(host, inputs.path, pack, side) && Trusts(inputs.store, side))
  {
    hide CheckSignature, SignedBy, Trusts, Profile, ProducerElement;
    TrustedExactly(host, inputs.path, inputs.store, pack);
    SignatureForms(host, inputs.path, inputs.store, pack);
    PassHasNoReason(host, inputs.path, inputs.store, pack);
  }

  lemma PassHasNoReason(host: Host, path: Text, store: Option<map<Text, Text>>, pack: seq<Member>)
    requires Profile(Object(pack))
    ensures var sig := CheckSignature(host, path, store, pack);
      sig.status == Pass ==> sig.reason == NotPresent && sig.assessed
  {
    hide SidecarKey, DigestWithout, SidecarFields, StrAt, IsHexN, PyWeak, SignedMessage, KeyFingerprint, Profile,
      SIGNED_SHA3, PACK_SHA3, SIGNER_ID, PUBLIC_KEY, SIGNATURE, FINGERPRINT, Get, ReadDoc, SidecarFile;
    ReadDocProfile(SidecarFile(host, path));
  }

  /** The layers of a receipt are exactly these, and whether it was assessed follows from them. */
  lemma LayersExplained(host: Host, inputs: Inputs, pack: seq<Member>)
    requires ReadDoc(host.files(inputs.path)) == Doc(Object(pack)) && Profile(Object(pack))
    ensures var r := ReceiptOf(host, inputs);
      && (forall l :: l in r.layers <==> Shown(host, inputs, pack, l))
      && (r.assessed <==>
          || (exists l :: Shown(host, inputs, pack, l) && l.status == Status.Fail && l.assessed)
          || (forall l :: Shown(host, inputs, pack, l) ==> l.assessed))
  {
    hide CheckSignature, AnchoredIn, Profile, ReadDoc, Failing, StatesOf, PackReceipt.InOrder, PackPart, LedgerPart,
      ProducerPart, Shown, Join;
    var p := RunPart(host, inputs, pack);
    forall l ensures l in p.layers <==> Shown(host, inputs, pack, l) { LayerExplained(host, inputs, pack, l); }
  }

  lemma LayerExplained(host: Host, inputs: Inputs, pack: seq<Member>, l: Layer)
    requires Profile(Object(pack))
    ensures l in RunPart(host, inputs, pack).layers <==> Shown(host, inputs, pack, l)
  {
    hide CheckSignature, Profile, PackPart, LedgerPart, ProducerPart, Join, KindOk, SchemaOk, ScopeOk, SnapshotOk,
      SealReason, SignedBy, Trusts, ShownOfLedger;
    var sig := CheckSignature(host, inputs.path, inputs.store, pack);
    FormLaid(host, pack, l);
    LedgerLaid(host, inputs, pack, l);
    ProducerLaid(host, inputs, pack, l);
    LaidJoin(PackPart(host, pack), LedgerPart(host, inputs, pack), l);
    LaidJoin(Join(PackPart(host, pack), LedgerPart(host, inputs, pack)), ProducerPart(sig, inputs.store.Some?), l);
    if ShownOfLedger(host, inputs, pack, l) { LedgerNames(host, inputs, pack, l); }
  }

  lemma LedgerNames(host: Host, inputs: Inputs, pack: seq<Member>, l: Layer)
    requires ShownOfLedger(host, inputs, pack, l)
    ensures l.name in {LedgerSchema, LedgerChain, PackLedgerState, SourceLayer, TipLayer}
  {
    hide ViewOf, AnyUnknown, HasAnchor, StateAgrees, LastAnchor, SourcesShown, Asked, TipReason, Profile;
  }
}
