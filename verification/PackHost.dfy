/** What a verifier finds on its host: files by path, digests, the signature library; and the signature sidecar
    check of cra_evidence/signing.py `verify_pack_signature`, which depends on nothing else. */
module PackHost {
  import opened Texts
  import opened JsonValues
  import opened JsonGrammar
  import opened JsonPrinter
  import opened Lines
  import opened Chain
  import opened Instants
  import opened WeakKeys
  import opened Tip
  import opened TipCheck
  import opened PackReceipt
  import Ledger
  import Utf8

  /** What is at a path. `NoEntry` and `NotDirectory` are what lstat says of a path with nothing at it; a path
      that can not be examined, opened or read to the end gives a host error. */
  datatype File = NoEntry | NotDirectory | LstatError | NotRegular | ReadError | Contents(bytes: Text)

  /** The host: its files, SHA-256 and SHA3-256 of bytes in hexadecimal, Ed25519, whether the signature library is
      there, and the real directory of the pack with its separator. */
  datatype Host = Host(files: Text -> File, sha256: Hash, sha3: Hash, ed: Ed25519, crypto: bool, dir: Text)

  /** What the caller gives. */
  datatype Inputs = Inputs(path: Text, ledgerPath: Option<Text>, store: Option<map<Text, Text>>, logKey: Option<Text>,
                           requireSources: bool)

  const MAX_DOC_BYTES := MAX_LINE_BYTES
  const MAX_SOURCE_BYTES := 268_435_456

  /** verify_pack.py `_present`. */
  predicate Present(f: File) { !f.NoEntry? && !f.NotDirectory? }

  datatype Doc = Doc(value: Json) | BadDoc | HostError

  /** read_regular, then UTF-8, then the strict JSON: what is there and can not be taken speaks against the pack,
      what the host can not read does not. */
  function ReadDoc(f: File): (r: Doc)
  {
    match f
    case Contents(b) =>
      if |b| > MAX_DOC_BYTES then BadDoc
      else (match EntryOf(b) case Some(v) => Doc(v) case None => BadDoc)
    case NotRegular => BadDoc
    case _ => HostError
  }

  lemma ReadDocProfile(f: File)
    ensures ReadDoc(f).Doc? ==> Profile(ReadDoc(f).value) && Depth(ReadDoc(f).value) <= MAX_JSON_DEPTH
  {
    if f.Contents? { EntryIsProfile(f.bytes); }
  }

  function PACK_SHA3(): (r: Text) { Lit("pack_sha3") }

  /** The digest an object commits to under a member of its own. */
  function DigestWithout(h: Hash, ms: seq<Member>, own: Text): (r: Text)
    requires Profile(Object(ms))
  {
    WithoutProfile(ms, own);
    Digest(h, Canonical(Object(Without(ms, own))))
  }

  lemma WithoutProfile(ms: seq<Member>, own: Text)
    requires Profile(Object(ms))
    ensures Profile(Object(Without(ms, own)))
  {
    var w := Without(ms, own);
    forall k | 0 <= k < |w| ensures Scalars(w[k].key) && Profile(w[k].val) { assert w[k] in ms; }
  }

  // ---- the signature sidecar -----------------------------------------------------------------------

  function SIGNED_SHA3(): (r: Text) { Lit("signed_pack_sha3") }
  function SIGNER_ID(): (r: Text) { Lit("signer_id") }
  function SIGNED_UTC(): (r: Text) { Lit("signed_utc") }
  function PUBLIC_KEY(): (r: Text) { Lit("public_key_hex") }
  function ALG(): (r: Text) { Lit("alg") }
  function FINGERPRINT(): (r: Text) { Lit("fingerprint") }
  function SIG_KIND(): (r: Text) { Lit("cra_pack_sig/1") }

  predicate SidecarKey(k: Text)
  {
    k == SIGNED_SHA3() || k == SIGNER_ID() || k == SIGNED_UTC() || k == PUBLIC_KEY() || k == SIGNATURE() || k == ALG()
      || k == FINGERPRINT()
  }

  predicate FilledText(ms: seq<Member>, k: Text)
  {
    StrAt(ms, k).Some? && StrAt(ms, k).value != []
  }

  /** signing.py `sidecar_fields_ok`. */
  predicate SidecarFields(ms: seq<Member>)
  {
    && FilledText(ms, SIGNED_SHA3()) && FilledText(ms, SIGNER_ID()) && FilledText(ms, SIGNED_UTC())
    && FilledText(ms, PUBLIC_KEY()) && FilledText(ms, SIGNATURE())
    && PyInstant(StrAt(ms, SIGNED_UTC()).value)
    && (Get(ms, ALG()).Some? ==> StrAt(ms, ALG()).Some?)
  }

  /** signing.py `signed_payload`: who signed what, when, with which key. */
  function SignedMessage(ms: seq<Member>): (r: Text)
    requires Profile(Object(ms)) && SidecarFields(ms)
  {
    var alg := if Get(ms, ALG()).Some? then StrAt(ms, ALG()).value else Lit("Ed25519");
    MessageProfile(ms);
    Canonical(MessageBody(alg, StrAt(ms, PUBLIC_KEY()).value, StrAt(ms, SIGNED_SHA3()).value,
                          StrAt(ms, SIGNED_UTC()).value,
                          StrAt(ms, SIGNER_ID()).value))
  }

  function MessageBody(alg: Text, pk: Text, sha: Text, utc: Text, id: Text): (r: Json)
  {
    Object([Member(ALG(), Str(alg)), Member(KIND(), Str(SIG_KIND())), Member(PUBLIC_KEY(), Str(pk)),
            Member(SIGNED_SHA3(), Str(sha)),
            Member(SIGNED_UTC(), Str(utc)), Member(SIGNER_ID(), Str(id))])
  }

  lemma MessageKeys()
    ensures Less(ALG(), KIND()) && Less(KIND(), PUBLIC_KEY()) && Less(PUBLIC_KEY(), SIGNED_SHA3())
    ensures Scalars(ALG()) && Scalars(KIND()) && Scalars(PUBLIC_KEY()) && Scalars(SIGNED_SHA3())
      && Scalars(SIGNED_UTC())
    ensures Scalars(SIGNER_ID()) && Scalars(SIG_KIND()) && Scalars(Lit("Ed25519"))
  {
    assert ALG()[0] == 'a' as int && KIND()[0] == 'k' as int && PUBLIC_KEY()[0] == 'p' as int
      && SIGNED_SHA3()[0] == 's' as int;
  }

  /** signed_pack_sha3, signed_utc and signer_id part at their seventh and fifth characters. */
  lemma SignedKeys()
    ensures Less(SIGNED_SHA3(), SIGNED_UTC()) && Less(SIGNED_UTC(), SIGNER_ID())
  {
    hide Less;
    var a, b, c := SIGNED_SHA3(), SIGNED_UTC(), SIGNER_ID();
    assert a[..7] == b[..7] && a[7] == 'p' as int && b[7] == 'u' as int;
    Utf8.LessAtDifference(a, b, 7);
    assert b[..5] == c[..5] && b[5] == 'd' as int && c[5] == 'r' as int;
    assert b[4] == c[4] == 'e' as int;
    assert 'd' as int < 'r' as int;
    Utf8.LessAtDifference(b, c, 5);
  }

  lemma MessageProfile(ms: seq<Member>)
    requires Profile(Object(ms)) && SidecarFields(ms)
    ensures var alg := if Get(ms, ALG()).Some? then StrAt(ms, ALG()).value else Lit("Ed25519");
      Profile(MessageBody(alg, StrAt(ms, PUBLIC_KEY()).value, StrAt(ms, SIGNED_SHA3()).value,
                          StrAt(ms, SIGNED_UTC()).value,
                          StrAt(ms, SIGNER_ID()).value))
  {
    hide ALG, KIND, PUBLIC_KEY, SIGNED_SHA3, SIGNED_UTC, SIGNER_ID, SIG_KIND, SIGNATURE, Less, Scalars, PyInstant, Lit;
    MessageKeys();
    SignedKeys();
    TextProfile(ms, ALG());
    TextProfile(ms, PUBLIC_KEY());
    TextProfile(ms, SIGNED_SHA3());
    TextProfile(ms, SIGNED_UTC());
    TextProfile(ms, SIGNER_ID());
    var alg := if Get(ms, ALG()).Some? then StrAt(ms, ALG()).value else Lit("Ed25519");
    Tip.InOrder(MessageBody(alg, StrAt(ms, PUBLIC_KEY()).value, StrAt(ms, SIGNED_SHA3()).value,
                            StrAt(ms, SIGNED_UTC()).value,
                            StrAt(ms, SIGNER_ID()).value).members);
  }

  lemma TextProfile(ms: seq<Member>, k: Text)
    requires Profile(Object(ms))
    ensures StrAt(ms, k).Some? ==> Scalars(StrAt(ms, k).value)
  {
    Ledger.MemberProfile(Object(ms), k);
  }

  /** The first sixteen digits of the key's SHA-256. */
  function KeyFingerprint(h: Hash, pk: Text): (r: Text)
    requires IsHexN(pk, 64)
  {
    Digest(h, Unhex(pk))[..16]
  }

  function FailFor(r: Reason): (res: SignatureResult) { SignatureResult(Status.Fail, r, true, false) }

  function SidecarFile(host: Host, path: Text): (r: File) { host.files(path + Lit(".sig.json")) }

  /** signing.py `verify_pack_signature`, on the pack the verifier has already read: its decisions in order. */
  function CheckSignature(host: Host, path: Text, store: Option<map<Text, Text>>,
                          pack: seq<Member>): (r: SignatureResult)
    requires Profile(Object(pack))
  {
    var file := SidecarFile(host, path);
    if !Present(file) then SignatureResult(Skip, NotPresent, true, false)
    else if file.LstatError? then FailFor(Unreadable)
    else
      var doc := ReadDoc(file);
      ReadDocProfile(file);
      if doc.HostError? then FailFor(Unreadable)
      else if doc.BadDoc? || !doc.value.Object? then FailFor(SidecarMalformed)
      else CheckSidecar(host, store, pack, doc.value.members)
  }

  function CheckSidecar(host: Host, store: Option<map<Text, Text>>, pack: seq<Member>,
                        side: seq<Member>): (r: SignatureResult)
    requires Profile(Object(pack)) && Profile(Object(side))
  {
    var digest := DigestWithout(host.sha3, pack, PACK_SHA3());
    if exists i :: 0 <= i < |side| && !SidecarKey(side[i].key) then FailFor(SidecarMalformed)
    else if Get(pack, PACK_SHA3()) != Some(Str(digest)) then FailFor(DigestMismatch)
    else if Get(side, SIGNED_SHA3()) != Some(Str(digest)) then FailFor(DigestMismatch)
    else if !SidecarFields(side) then FailFor(SidecarMalformed)
    else
      var pk, sig, id := StrAt(side, PUBLIC_KEY()).value, StrAt(side, SIGNATURE()).value,
        StrAt(side, SIGNER_ID()).value;
      if !(IsHexN(pk, 64) && IsHexN(sig, 128)) then FailFor(SignatureInvalid)
      else if PyWeak(pk) then FailFor(SignatureInvalid)
      else if !host.crypto then SignatureResult(Status.Fail, InstrumentFailure, false, false)
      else if !host.ed(pk, SignedMessage(side), sig) then FailFor(SignatureInvalid)
      else if Get(side, FINGERPRINT()).Some? && Get(side, FINGERPRINT()) != Some(Str(KeyFingerprint(host.sha256, pk)))
        then FailFor(SignatureInvalid)
      else
        var trusted := store.Some? && id in store.value && store.value[id] != [] && store.value[id] == pk;
        SignatureResult(Pass, NotPresent, true, trusted)
  }

  /** What a signature that passes establishes, in any order of the checks. */
  ghost predicate ValidSidecar(host: Host, pack: seq<Member>, side: seq<Member>)
    requires Profile(Object(pack)) && Profile(Object(side))
  {
    var digest := DigestWithout(host.sha3, pack, PACK_SHA3());
    && (forall m :: m in side ==> SidecarKey(m.key))
    && Get(pack, PACK_SHA3()) == Some(Str(digest)) && Get(side, SIGNED_SHA3()) == Some(Str(digest))
    && SidecarFields(side)
    && var pk, sig := StrAt(side, PUBLIC_KEY()).value, StrAt(side, SIGNATURE()).value;
      && IsHexN(pk, 64) && IsHexN(sig, 128) && !PyWeak(pk)
      && host.crypto && host.ed(pk, SignedMessage(side), sig)
      && (Get(side, FINGERPRINT()).Some? ==> Get(side, FINGERPRINT()) == Some(Str(KeyFingerprint(host.sha256, pk))))
  }

  /** The pack carries a sidecar that binds its content to a key. */
  ghost predicate SignedBy(host: Host, path: Text, pack: seq<Member>, side: seq<Member>)
    requires Profile(Object(pack))
  {
    ReadDoc(SidecarFile(host, path)) == Doc(Object(side)) && Profile(Object(side)) && ValidSidecar(host, pack, side)
  }

  lemma SidecarPasses(host: Host, store: Option<map<Text, Text>>, pack: seq<Member>, side: seq<Member>)
    requires Profile(Object(pack)) && Profile(Object(side))
    ensures CheckSidecar(host, store, pack, side).status == Pass <==> ValidSidecar(host, pack, side)
  {
    hide Present, SidecarKey, DigestWithout, SidecarFields, StrAt, IsHexN, PyWeak, SignedMessage, KeyFingerprint,
      Profile, SIGNED_SHA3, PACK_SHA3, SIGNER_ID, PUBLIC_KEY, SIGNATURE, FINGERPRINT, Get;
    assert (exists i :: 0 <= i < |side| && !SidecarKey(side[i].key)) <==>
      !(forall m :: m in side ==> SidecarKey(m.key));
  }

  /** A signature passes exactly when there is a sidecar that binds the content: the trust store has no part in
      it, nor has the order of the checks. */
  lemma SignaturePasses(host: Host, path: Text, store: Option<map<Text, Text>>, pack: seq<Member>)
    requires Profile(Object(pack))
    ensures CheckSignature(host, path, store, pack).status == Pass <==> exists side :: SignedBy(host, path, pack, side)
  {
    hide ValidSidecar, CheckSidecar, ReadDoc, SidecarFile, Profile;
    var file := SidecarFile(host, path);
    ReadDocProfile(file);
    PresentDoc(file);
    if ReadDoc(file).Doc? && ReadDoc(file).value.Object? {
      var side := ReadDoc(file).value.members;
      SidecarPasses(host, store, pack, side);
      if ValidSidecar(host, pack, side) { assert SignedBy(host, path, pack, side); }
    }
  }

  lemma PresentDoc(f: File)
    ensures ReadDoc(f).Doc? ==> f.Contents?
  {}

  /** The trust store only decides whether a valid signature is a trusted one. */
  lemma StoreDecidesTrustOnly(host: Host, path: Text, pack: seq<Member>, s: Option<map<Text, Text>>,
                              s': Option<map<Text, Text>>)
    requires Profile(Object(pack))
    ensures var a, b := CheckSignature(host, path, s, pack), CheckSignature(host, path, s', pack);
      a.status == b.status && a.reason == b.reason && a.assessed == b.assessed
    ensures CheckSignature(host, path, s, pack).trusted ==>
      s.Some? && CheckSignature(host, path, s, pack).status == Pass
  {
    hide ReadDoc, SidecarFile, CheckSidecar, Profile;
    var file := SidecarFile(host, path);
    ReadDocProfile(file);
    if ReadDoc(file).Doc? && ReadDoc(file).value.Object? {
      StoreDecidesSidecar(host, pack, ReadDoc(file).value.members, s, s');
    }
  }

  lemma StoreDecidesSidecar(host: Host, pack: seq<Member>, side: seq<Member>, s: Option<map<Text, Text>>,
                            s': Option<map<Text, Text>>)
    requires Profile(Object(pack)) && Profile(Object(side))
    ensures var a, b := CheckSidecar(host, s, pack, side), CheckSidecar(host, s', pack, side);
      a.status == b.status && a.reason == b.reason && a.assessed == b.assessed
    ensures CheckSidecar(host, s, pack, side).trusted ==> s.Some? && CheckSidecar(host, s, pack, side).status == Pass
  {
    hide Present, SidecarKey, DigestWithout, SidecarFields, StrAt, IsHexN, PyWeak, SignedMessage, KeyFingerprint,
      Profile, SIGNED_SHA3, PACK_SHA3, SIGNER_ID, PUBLIC_KEY, SIGNATURE, FINGERPRINT, Get;
  }

  /** The form of every answer: only a host failure is unassessed, and a failure has a reason of its own. */
  lemma SignatureForms(host: Host, path: Text, store: Option<map<Text, Text>>, pack: seq<Member>)
    requires Profile(Object(pack))
    ensures var s := CheckSignature(host, path, store, pack);
      && (!s.assessed <==> s.status.Fail? && s.reason == InstrumentFailure)
      && (s.status == Skip ==> s.reason == NotPresent)
      && (s.status.Fail? ==>
          s.reason in {Unreadable, SidecarMalformed, DigestMismatch, SignatureInvalid, InstrumentFailure})
  {
    hide ReadDoc, SidecarFile, CheckSidecar, Profile;
    var file := SidecarFile(host, path);
    ReadDocProfile(file);
    if ReadDoc(file).Doc? && ReadDoc(file).value.Object? {
      SidecarForms(host, store, pack, ReadDoc(file).value.members);
    }
  }

  lemma SidecarForms(host: Host, store: Option<map<Text, Text>>, pack: seq<Member>, side: seq<Member>)
    requires Profile(Object(pack)) && Profile(Object(side))
    ensures var s := CheckSidecar(host, store, pack, side);
      && (!s.assessed <==> s.status.Fail? && s.reason == InstrumentFailure)
      && s.status != Skip
      && (s.status.Fail? ==>
          s.reason in {Unreadable, SidecarMalformed, DigestMismatch, SignatureInvalid, InstrumentFailure})
  {
    hide Present, SidecarKey, DigestWithout, SidecarFields, StrAt, IsHexN, PyWeak, SignedMessage, KeyFingerprint,
      Profile, SIGNED_SHA3, PACK_SHA3, SIGNER_ID, PUBLIC_KEY, SIGNATURE, FINGERPRINT, Get;
  }
}
