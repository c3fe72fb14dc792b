/** Where the verifier looks, and what it takes from what is there: the paths it forms, the documents it reads, the
    sources it compares, and the receipt of a pack that is no document. */
module PackPlaces {
  import opened Texts
  import opened JsonValues
  import opened Chain
  import opened ReaderAgreement
  import opened Tip
  import opened PackHost
  import opened PackReceipt
  import opened PackSpec
  import Utf8

  /** A name without a path: not empty, not a dot or two, and without a separator of either kind or a NUL. */
  predicate PlainName(v: Text)
  {
    v !in {[], Lit("."), Lit("..")} && forall c :: c in v ==> c !in {'/' as int, '\\' as int, 0}
  }

  lemma PlainNameMeans(v: Text)
    ensures FileNameOk(v) <==> PlainName(v)
  {
    if PlainName(v) {
      forall k | 0 <= k < |v| ensures v[k] != 47 && v[k] != 92 && v[k] != 0 { assert v[k] in v; }
    }
  }

  /** The ledger is the one the caller names, or the one the pack names by a plain name, in the pack's directory; a pack
      that names something else is malformed, and one that names nothing has no ledger. */
  lemma LedgerPlaceMeans(host: Host, inputs: Inputs, pack: seq<Member>)
    ensures NameBad(pack) <==>
      match Get(pack, Lit("ledger_file"))
      case None => false
      case Some(Null) => false
      case Some(Str(s)) => !PlainName(s)
      case _ => true
    ensures LedgerPath(host, inputs, pack) ==
      match inputs.ledgerPath
      case Some(p) => Some(p)
      case None =>
        match Get(pack, Lit("ledger_file"))
        case Some(Str(s)) => if PlainName(s) then Some(host.dir + s) else None
        case _ => None
  {
    hide FileNameOk, PlainName, Lit, Get;
    assert LEDGER_FILE() == Lit("ledger_file");
    var lf := Get(pack, Lit("ledger_file"));
    if lf.Some? && lf.value.Str? { PlainNameMeans(lf.value.s); }
  }

  /** A ledger is asked for by naming it, a key of its tip, or the sources. */
  lemma AskedMeans(inputs: Inputs)
    ensures LedgerAsked(inputs) <==>
      inputs.ledgerPath !in {None, Some([])} || inputs.logKey !in {None, Some([])} || inputs.requireSources
  {}

  lemma PlacesMean(lp: Text, h: Text)
    ensures TipPath(lp) == lp + Lit(".tip.json")
    ensures SourcePath(lp, h) == lp + Lit(".sources/") + h + Lit(".json")
  {}

  /** There: anything but an absent entry or a directory that is not one. */
  lemma PresentMeans(f: File)
    ensures Present(f) <==> f !in {NoEntry, NotDirectory}
  {}

  /** A document is a regular file of at most 64 MiB of UTF-8 that the strict reader takes. What can be read and is not
      one is no document; what the host can not read is left open. */
  lemma DocumentMeans(f: File, v: Json)
    ensures ReadDoc(f) == Doc(v) <==>
      exists b, t ::
        f == Contents(b) && |b| <= 64 * 1024 * 1024 && Utf8.Decode(b) == Some(t) && Accepted(t) == Some(v)
    ensures ReadDoc(f).BadDoc? <==> (f.NotRegular? || f.Contents?) && !ReadDoc(f).Doc?
    ensures ReadDoc(f).HostError? <==> f in {NoEntry, NotDirectory, LstatError, ReadError}
  {
    hide Accepted, Utf8.Decode;
  }

  /** A ledger is a regular file whose lines can all be read. */
  lemma LedgerMeans(f: File, es: seq<Json>)
    ensures ReadLedger(f) == Entries(es) <==> exists b :: f == Contents(b) && ReadEntries(b) == Some(es)
    ensures ReadLedger(f).NotALedger? <==> (f.NotRegular? || f.Contents?) && !ReadLedger(f).Entries?
    ensures ReadLedger(f).HostCannotRead? <==> f in {NoEntry, NotDirectory, LstatError, ReadError}
  {
    hide ReadEntries;
  }

  /** A recorded source holds exactly if a file of at most 256 MiB beside the ledger has its digest; without a file
      there is only the digest; what the host can not read is left open; anything else speaks against it. */
  lemma SourceMeans(host: Host, lp: Text, h: Text)
    ensures var e, f := DocElement(host, lp, h), host.files(lp + Lit(".sources/") + h + Lit(".json"));
      && (e.Holds? <==> exists b :: f == Contents(b) && |b| <= 256 * 1024 * 1024 && Digest(host.sha256, b) == h)
      && (e == Unjudged(HashOnly) <==> f == NoEntry)
      && (e == Unjudged(Unreadable) <==> f in {NotDirectory, LstatError, ReadError})
      && (e == Against(SourceMismatch) <==> (f.NotRegular? || f.Contents?) && !e.Holds?)
  {
    hide Digest;
  }

  /** A path without a document, or with one that is no object: refused as malformed, judged, with one layer. */
  lemma NoPackMeans(host: Host, inputs: Inputs)
    requires ReadDoc(host.files(inputs.path)).Doc? ==> !ReadDoc(host.files(inputs.path)).value.Object?
    ensures var r := ReceiptOf(host, inputs);
      && !r.ok && r.assessed && r.auth == FailedAuth && !r.anchored && r.admission == Refused(Malformed)
      && |r.layers| == 1 && r.layers[0].name == PackJson && r.layers[0].status == Status.Fail && r.layers[0].assessed
  {
    hide ReadDoc;
  }

  /** The place of an item of the policy in its list. */
  function PolicyPlace(u: Unmet): (n: nat)
  {
    match u
    case TrustedSigner => 0
    case LedgerRequired => 1
    case TipRequired => 2
    case SourcesRequired => 3
    case AuthenticityBasis => 4
  }

  predicate InPolicyOrder(us: seq<Unmet>)
  {
    forall i, j :: 0 <= i < j < |us| ==> PolicyPlace(us[i]) < PolicyPlace(us[j])
  }

  /** An admitted receipt has one state for each of the five subjects, in the order of the vocabulary, and its unmet
      items in the order of the policy, each once. */
  lemma OrderMeans(host: Host, inputs: Inputs)
    requires ReceiptOf(host, inputs).admission.Admitted?
    ensures var a := ReceiptOf(host, inputs).admission;
      && |a.states| == 5 && a.states[0].0 == SealedContent && a.states[1].0 == LedgerAnchor
      && a.states[2].0 == SignedTip && a.states[3].0 == SourceDocuments && a.states[4].0 == ProducerSignature
      && InPolicyOrder(a.unmet)
  {
    hide ReadDoc, RunPart, CheckSignature, AnchoredIn, Fold, ElementsOf, PackReceipt.InOrder;
    forall u: set<Unmet> ensures InPolicyOrder(PackReceipt.InOrder(u)) { PolicyOrder(u); }
  }

  lemma PolicyOrder(u: set<Unmet>)
    ensures InPolicyOrder(PackReceipt.InOrder(u))
  {}
}
