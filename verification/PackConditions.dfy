/** The conditions the verifier tests, with the names and the constants of the format written out. */
module PackConditions {
  import opened Texts
  import opened JsonValues
  import opened JsonPrinter
  import opened Chain
  import opened LedgerEntries
  import opened Instants
  import opened Tip
  import opened TipCheck
  import opened WeakKeys
  import opened PackHost
  import opened PackSpec
  import History

  /** The key is one of these names. */
  predicate OneOf(k: Text, names: seq<string>) { exists i :: 0 <= i < |names| && k == Lit(names[i]) }

  const PACK_FIELDS := ["kind", "generated_utc", "legal_basis", "honest_scope", "product_id", "product_version",
                        "retention", "retention_years", "ledger_file", "ledger_entries", "ledger_last_self_hash",
                        "record_counts", "verification", "pack_sha3"]

  lemma PackFieldAt(i: nat)
    requires i < 14
    ensures PackKeyAt(i) == Lit(PACK_FIELDS[i])
  {
    hide Lit;
    NamesOfPack();
  }

  lemma NamesOfPack()
    ensures KIND() == Lit("kind") && SCOPE() == Lit("honest_scope") && LEDGER_FILE() == Lit("ledger_file")
    ensures LEDGER_ENTRIES() == Lit("ledger_entries") && LAST_SELF() == Lit("ledger_last_self_hash")
    ensures VERIFICATION() == Lit("verification") && PACK_SHA3() == Lit("pack_sha3")
    ensures CHAIN_OK() == Lit("chain_ok") && DIGESTS_BOUND() == Lit("record_digests_bound")
    ensures PACK_KIND() == Lit("cra_evidence_pack/1") && SCOPE_MARK() == Lit("NOT a conformity assessment")
  {}

  lemma NamesOfRecords()
    ensures IDX() == Lit("idx") && TS() == Lit("ts") && DATA() == Lit("data") && PREV() == Lit("prev_hash")
    ensures SELF() == Lit("self_hash") && RECORD_SHA3() == Lit("record_sha3")
    ensures ANCHOR_KIND() == Lit("cra_pack_anchor") && ANCHORED_SHA3() == Lit("anchored_pack_sha3")
    ensures SBOM_KIND() == Lit("cra_sbom")
  {}

  /** The form of a pack: its kind, the closed list of its fields, and the declared limit somewhere in its scope. */
  lemma FormMeans(pack: seq<Member>)
    ensures KindOk(pack) <==> Get(pack, Lit("kind")) == Some(Str(Lit("cra_evidence_pack/1")))
    ensures SchemaOk(pack) <==> forall m :: m in pack ==> OneOf(m.key, PACK_FIELDS)
    ensures ScopeOk(pack) <==>
      exists a, b :: Get(pack, Lit("honest_scope")) == Some(Str(a + Lit("NOT a conformity assessment") + b))
  {
    hide Lit, HasMark, PackKeyAt;
    NamesOfPack();
    forall k ensures PackKey(k) <==> OneOf(k, PACK_FIELDS) {
      forall i | 0 <= i < 14 ensures PackKeyAt(i) == Lit(PACK_FIELDS[i]) { PackFieldAt(i); }
    }
    if ScopeOk(pack) {
      var t := Get(pack, SCOPE()).value.s;
      var a, b := MarkIn(t, SCOPE_MARK());
      assert Get(pack, Lit("honest_scope")) == Some(Str(a + Lit("NOT a conformity assessment") + b));
    }
    if a, b :| Get(pack, Lit("honest_scope")) == Some(Str(a + Lit("NOT a conformity assessment") + b)) {
      MarkAt(a, SCOPE_MARK(), b);
    }
  }

  lemma MarkIn(t: Text, mark: Text) returns (a: Text, b: Text)
    requires HasMark(t, mark)
    ensures t == a + mark + b
  {
    var i :| 0 <= i <= |t| - |mark| && StandsAt(t, i, mark);
    a, b := t[..i], t[i + |mark|..];
    assert t == t[..i] + t[i..i + |mark|] + t[i + |mark|..];
  }

  lemma MarkAt(a: Text, mark: Text, b: Text)
    ensures HasMark(a + mark + b, mark)
  {
    assert (a + mark + b)[|a|..|a| + |mark|] == mark;
    assert StandsAt(a + mark + b, |a|, mark);
  }

  /** The pack says that its producer's own verification held, chain and records. */
  lemma SnapshotMeans(pack: seq<Member>)
    ensures SnapshotOk(pack) <==>
      exists ms :: Get(pack, Lit("verification")) == Some(Object(ms))
        && Get(ms, Lit("chain_ok")) == Some(Bool(true)) && Get(ms, Lit("record_digests_bound")) == Some(Bool(true))
  {
    hide Lit, Get;
    NamesOfPack();
  }

  const ENTRY_FIELDS := ["idx", "ts", "data", "prev_hash", "self_hash"]
  const RECORD_KINDS := ["cra_sbom", "cra_vuln", "cra_srp_notice", "cra_longterm_seal", "cra_pack_anchor"]
  const SIDECAR_FIELDS := ["signed_pack_sha3", "signer_id", "signed_utc", "public_key_hex", "signature_hex", "alg",
                           "fingerprint"]

  lemma ListedFive(k: Text, a: string, b: string, c: string, d: string, e: string)
    ensures OneOf(k, [a, b, c, d, e]) <==> k == Lit(a) || k == Lit(b) || k == Lit(c) || k == Lit(d) || k == Lit(e)
  {
    hide Lit;
    var names := [a, b, c, d, e];
    assert names[0] == a && names[1] == b && names[2] == c && names[3] == d && names[4] == e;
  }

  /** The closed list of an entry's fields. */
  lemma UnknownMeans(es: seq<Json>)
    ensures AnyUnknown(es) <==>
      exists k, m :: 0 <= k < |es| && es[k].Object? && m in es[k].members && !OneOf(m.key, ENTRY_FIELDS)
  {
    hide Lit, OneOf;
    NamesOfRecords();
    forall key ensures EntryKey(key) <==> OneOf(key, ENTRY_FIELDS) {
      ListedFive(key, "idx", "ts", "data", "prev_hash", "self_hash");
    }
    if k, m :| 0 <= k < |es| && es[k].Object? && m in es[k].members && !OneOf(m.key, ENTRY_FIELDS) {
      assert HasUnknownKey(es[k]);
    }
  }

  /** The data of an entry, if it is an object. */
  lemma DataMeans(e: Json)
    ensures DataOf(e) ==
      if e.Object? && Get(e.members, Lit("data")).Some? && Get(e.members, Lit("data")).value.Object?
      then Get(e.members, Lit("data")).value.members
      else []
  {
    hide Lit;
    NamesOfRecords();
  }

  predicate OfRecordKind(d: seq<Member>)
  {
    StrAt(d, Lit("kind")).Some? && OneOf(StrAt(d, Lit("kind")).value, RECORD_KINDS)
  }

  /** The records are bound: each of a known kind carries the digest of the rest of it. */
  lemma BoundMeans(h3: Hash, es: seq<Json>)
    requires Profiles(es)
    ensures AllBound(h3, es) <==>
      forall k :: 0 <= k < |es| && OfRecordKind(DataOf(es[k])) ==>
          var rest := Object(Without(DataOf(es[k]), Lit("record_sha3")));
          Profile(rest) && Get(DataOf(es[k]), Lit("record_sha3")) == Some(Str(Digest(h3, Canonical(rest))))
  {
    hide Lit, OneOf, DataOf, Get, Print, Digest, Profile, Depth, Without;
    NamesOfRecords();
    NamesOfPack();
    forall k | 0 <= k < |es|
      ensures IsRecord(DataOf(es[k])) <==> OfRecordKind(DataOf(es[k]))
      ensures Profile(Object(DataOf(es[k]))) && Profile(Object(Without(DataOf(es[k]), RECORD_SHA3())))
    {
      DataProfile(es[k]);
      WithoutProfile(DataOf(es[k]), RECORD_SHA3());
      if StrAt(DataOf(es[k]), KIND()).Some? {
        ListedFive(StrAt(DataOf(es[k]), KIND()).value, "cra_sbom", "cra_vuln", "cra_srp_notice", "cra_longterm_seal",
                   "cra_pack_anchor");
      }
    }
  }

  /** An entry anchors a pack by naming its digest, which has to have the form of one. */
  lemma AnchorsMeans(pack: seq<Member>, e: Json)
    ensures AnchorsPack(pack, e) <==>
      exists sha :: IsHexN(sha, 64) && Get(pack, Lit("pack_sha3")) == Some(Str(sha))
        && Get(DataOf(e), Lit("kind")) == Some(Str(Lit("cra_pack_anchor")))
        && Get(DataOf(e), Lit("anchored_pack_sha3")) == Some(Str(sha))
  {
    hide Lit, Get, DataOf, IsHexN;
    NamesOfPack();
    NamesOfRecords();
  }

  /** The state a pack declares: a number of entries the ledger has, the last self_hash there, and the anchor, if
      there is one, only after it. */
  lemma StateMeans(pack: seq<Member>, es: seq<Json>, anchor: Option<nat>)
    ensures StateAgrees(pack, es, anchor) <==>
      exists n: nat :: 0 < n <= |es| && Get(pack, Lit("ledger_entries")) == Some(Int(n))
        && (if es[n - 1].Object? then Get(es[n - 1].members, Lit("self_hash")) else None)
           == Get(pack, Lit("ledger_last_self_hash"))
        && (anchor.Some? ==> n <= anchor.value)
  {
    hide Lit, Get;
    NamesOfPack();
    NamesOfRecords();
    EmptyGets(SELF());
    if StateAgrees(pack, es, anchor) {
      var n: nat := Get(pack, LEDGER_ENTRIES()).value.n;
      assert Get(pack, Lit("ledger_entries")) == Some(Int(n));
    }
  }

  lemma EmptyGets(k: Text)
    ensures Get([], k) == None
  {}

  /** The source a record names: an SBOM record with a SHA-256, or one that should have one and has not. */
  lemma RefMeans(e: Json, h: Text)
    ensures RefOf(e) == Source(h) <==>
      exists ms :: Get(DataOf(e), Lit("kind")) == Some(Str(Lit("cra_sbom")))
        && Get(DataOf(e), Lit("source")) == Some(Object(ms)) && Get(ms, Lit("sha256")) == Some(Str(h)) && IsHexN(h, 64)
    ensures RefOf(e).BadSource? <==>
      exists ms :: Get(DataOf(e), Lit("kind")) == Some(Str(Lit("cra_sbom")))
        && Get(DataOf(e), Lit("source")) == Some(Object(ms))
        && (var sha, f := Get(ms, Lit("sha256")), StrAt(ms, Lit("format"));
            if sha.None? || sha.value == Null || sha.value == Str([])
            then f.Some? && OneOf(f.value, ["cyclonedx-json", "spdx-json", "spdx-jsonld"])
            else !sha.value.Str? || !IsHexN(sha.value.s, 64))
  {
    hide Lit, Get, DataOf, IsHexN;
    NamesOfPack();
    NamesOfRecords();
    forall t ensures ExternalFormat(t) <==> OneOf(t, ["cyclonedx-json", "spdx-json", "spdx-jsonld"]) {
      ListedThree(t, "cyclonedx-json", "spdx-json", "spdx-jsonld");
    }
    assert !IsHexN([], 64) by { EmptyNotHex(); }
  }

  lemma EmptyNotHex()
    ensures !IsHexN([], 64)
  {}

  lemma ListedThree(k: Text, a: string, b: string, c: string)
    ensures OneOf(k, [a, b, c]) <==> k == Lit(a) || k == Lit(b) || k == Lit(c)
  {
    hide Lit;
    var names := [a, b, c];
    assert names[0] == a && names[1] == b && names[2] == c;
  }

  // ---- the sidecar ---------------------------------------------------------------------------------

  lemma NamesOfSidecar()
    ensures SIGNED_SHA3() == Lit("signed_pack_sha3") && SIGNER_ID() == Lit("signer_id")
    ensures SIGNED_UTC() == Lit("signed_utc") && PUBLIC_KEY() == Lit("public_key_hex")
    ensures SIGNATURE() == Lit("signature_hex") && PackHost.ALG() == Lit("alg") && FINGERPRINT() == Lit("fingerprint")
    ensures SIG_KIND() == Lit("cra_pack_sig/1") && KIND() == Lit("kind")
  {}

  lemma SidecarKeyMeans(k: Text)
    ensures SidecarKey(k) <==> OneOf(k, SIDECAR_FIELDS)
  {
    hide Lit;
    NamesOfSidecar();
    var names := SIDECAR_FIELDS;
    assert names[0] == "signed_pack_sha3" && names[1] == "signer_id" && names[2] == "signed_utc";
    assert names[3] == "public_key_hex" && names[4] == "signature_hex" && names[5] == "alg";
    assert names[6] == "fingerprint";
  }

  predicate Filled(ms: seq<Member>, key: string)
  {
    Get(ms, Lit(key)).Some? && Get(ms, Lit(key)).value.Str? && Get(ms, Lit(key)).value.s != []
  }

  /** Five texts, none of them empty, an instant among them, and an algorithm only as a text. */
  lemma SidecarFieldsMean(ms: seq<Member>)
    ensures SidecarFields(ms) <==>
      && Filled(ms, "signed_pack_sha3") && Filled(ms, "signer_id") && Filled(ms, "signed_utc")
      && Filled(ms, "public_key_hex") && Filled(ms, "signature_hex")
      && PyInstant(Get(ms, Lit("signed_utc")).value.s)
      && (Get(ms, Lit("alg")).Some? ==> Get(ms, Lit("alg")).value.Str?)
  {
    hide Lit, Get, PyInstant;
    NamesOfSidecar();
  }

  lemma BodySays(alg: Text, pk: Text, sha: Text, utc: Text, id: Text)
    requires Profile(MessageBody(alg, pk, sha, utc, id))
    ensures var body := MessageBody(alg, pk, sha, utc, id).members;
      && |body| == 6 && Get(body, Lit("kind")) == Some(Str(Lit("cra_pack_sig/1")))
      && Get(body, Lit("signed_pack_sha3")) == Some(Str(sha)) && Get(body, Lit("signer_id")) == Some(Str(id))
      && Get(body, Lit("signed_utc")) == Some(Str(utc)) && Get(body, Lit("public_key_hex")) == Some(Str(pk))
      && Get(body, Lit("alg")) == Some(Str(alg))
  {
    hide Lit, Get, Less, Scalars, PackHost.ALG, KIND, PUBLIC_KEY, SIGNED_SHA3, SIGNED_UTC, SIGNER_ID, SIG_KIND;
    NamesOfSidecar();
    var body := MessageBody(alg, pk, sha, utc, id).members;
    assert body[0] in body && body[1] in body && body[2] in body && body[3] in body && body[4] in body
      && body[5] in body;
    History.GetIn(body, KIND());
    History.GetIn(body, PackHost.ALG());
    History.GetIn(body, PUBLIC_KEY());
    History.GetIn(body, SIGNED_SHA3());
    History.GetIn(body, SIGNED_UTC());
    History.GetIn(body, SIGNER_ID());
  }

  /** What a sidecar signs: canonical text of its kind, the digest, the signer, the instant, the key and the algorithm
      (Ed25519 where it names none), and nothing else. */
  lemma MessageMeans(ms: seq<Member>)
    requires Profile(Object(ms)) && SidecarFields(ms)
    ensures exists body: seq<Member> ::
      && |body| == 6 && Profile(Object(body)) && SignedMessage(ms) == Canonical(Object(body))
      && Get(body, Lit("kind")) == Some(Str(Lit("cra_pack_sig/1")))
      && Get(body, Lit("signed_pack_sha3")) == Get(ms, Lit("signed_pack_sha3"))
      && Get(body, Lit("signer_id")) == Get(ms, Lit("signer_id"))
      && Get(body, Lit("signed_utc")) == Get(ms, Lit("signed_utc"))
      && Get(body, Lit("public_key_hex")) == Get(ms, Lit("public_key_hex"))
      && Get(body, Lit("alg")) == Some(if Get(ms, Lit("alg")).Some? then Get(ms, Lit("alg")).value
                                       else Str(Lit("Ed25519")))
  {
    hide Lit, Get, PyInstant, Profile, Print, MessageBody, PackHost.ALG, KIND, PUBLIC_KEY, SIGNED_SHA3, SIGNED_UTC,
      SIGNER_ID, SIG_KIND, SIGNATURE, FINGERPRINT;
    NamesOfSidecar();
    MessageProfile(ms);
    var alg := if Get(ms, PackHost.ALG()).Some? then StrAt(ms, PackHost.ALG()).value else Lit("Ed25519");
    var pk, sha, utc, id :=
      StrAt(ms, PUBLIC_KEY()).value, StrAt(ms, SIGNED_SHA3()).value, StrAt(ms, SIGNED_UTC()).value,
      StrAt(ms, SIGNER_ID()).value;
    BodySays(alg, pk, sha, utc, id);
    BodyIsObject(alg, pk, sha, utc, id);
    assert Get(MessageBody(alg, pk, sha, utc, id).members, Lit("alg")) == Some(Str(alg));
  }

  lemma BodyIsObject(alg: Text, pk: Text, sha: Text, utc: Text, id: Text)
    ensures MessageBody(alg, pk, sha, utc, id).Object?
  {}

  /** The fingerprint: the first sixteen digits of the SHA-256 of the key's bytes. */
  lemma FingerprintMeans(h: Hash, pk: Text)
    requires IsHexN(pk, 64)
    ensures |KeyFingerprint(h, pk)| == 16 && KeyFingerprint(h, pk) <= Digest(h, Unhex(pk))
  {}
}
