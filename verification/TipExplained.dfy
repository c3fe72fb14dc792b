/** The verdict of both tip checkers on every tip, by the names of its fields: which one, exactly when. */
module TipExplained {
  import opened Texts
  import opened JsonValues
  import opened JsonPrinter
  import opened History
  import opened Instants
  import opened WeakKeys
  import opened Tip
  import opened TipCheck
  import LedgerEntries

  /** The text under a name, where it is one. */
  function TextOf(ms: seq<Member>, key: string): (t: Option<Text>)
  {
    match Get(ms, Lit(key)) case Some(Str(s)) => Some(s) case _ => None
  }

  /** The number of entries, where it is an integer that is not negative. */
  function EntriesOf(ms: seq<Member>): (n: Option<int>)
  {
    match Get(ms, Lit("entries")) case Some(Int(n)) => (if n >= 0 then Some(n) else None) case _ => None
  }

  lemma FieldNames()
    ensures ENTRIES() == Lit("entries") && KIND() == Lit("kind") && LEDGER_ID() == Lit("ledger_id")
      && TIP_SHA() == Lit("tip_sha256") && LedgerEntries.TS() == Lit("ts")
      && LOG_KEY() == Lit("log_pubkey_hex") && SIGNATURE() == Lit("signature_hex")
      && TIP_KIND() == Lit("cryptovalid_tip/1")
  {}

  lemma NamesAre(ms: seq<Member>)
    ensures StrAt(ms, KIND()) == TextOf(ms, "kind") && StrAt(ms, LEDGER_ID()) == TextOf(ms, "ledger_id")
    ensures StrAt(ms, TIP_SHA()) == TextOf(ms, "tip_sha256") && StrAt(ms, LedgerEntries.TS()) == TextOf(ms, "ts")
    ensures StrAt(ms, SIGNATURE()) == TextOf(ms, "signature_hex") && CountAt(ms) == EntriesOf(ms)
  {
    hide Lit, Get;
    FieldNames();
  }

  /** The tip names a log key that is neither null nor empty, and not this one. */
  predicate NamesOtherKey(ms: seq<Member>, pk: Text)
  {
    match Get(ms, Lit("log_pubkey_hex"))
    case None => false
    case Some(v) => v !in {Null, Str([]), Str(pk)}
  }

  lemma KeyMeans(ms: seq<Member>, pk: Text)
    ensures KeyAgrees(ms, pk) <==> !NamesOtherKey(ms, pk)
  {
    hide Lit, Get;
    FieldNames();
  }

  /** The signed text of a tip. */
  function TipText(n: int, lid: Text, sha: Text, ts: Text): (r: Text)
  {
    Lit("{\"entries\":") + IntText(n) + Lit(",\"kind\":\"") + Lit("cryptovalid_tip/1")
    + Lit("\",\"ledger_id\":\"") + lid + Lit("\",\"tip_sha256\":\"") + sha + Lit("\",\"ts\":\"") + ts + Lit("\"}")
  }

  lemma PayloadMeans(n: int, lid: Text, sha: Text, ts: Text)
    ensures RustPayload(n, lid, sha, ts) == TipText(n, lid, sha, ts)
  {
    hide IntText, Lit, TIP_KIND;
    FieldNames();
    FlatSum(Lit("{\"entries\":"), IntText(n), Lit(",\"kind\":\""), TIP_KIND(), Lit("\",\"ledger_id\":\""), lid,
            Lit("\",\"tip_sha256\":\""), sha, Lit("\",\"ts\":\""), ts, Lit("\"}"));
  }

  lemma FlatSum(a: Text, b: Text, c: Text, d: Text, e: Text, f: Text, g: Text, h: Text, i: Text, j: Text, k: Text)
    ensures a + (b + (c + (d + (e + (f + (g + (h + (i + (j + k))))))))) == a + b + c + d + e + f + g + h + i + j + k
  {
    assert a + (b + (c + (d + (e + (f + (g + (h + (i + (j + k)))))))))
      == a + b + c + d + e + (f + (g + (h + (i + (j + k)))));
    assert f + (g + (h + (i + (j + k)))) == f + g + h + i + j + k;
  }

  /** Of the right kind, with its five fields of the right types. */
  predicate IsTip(ms: seq<Member>) { TextOf(ms, "kind") == Some(Lit("cryptovalid_tip/1")) }

  predicate Typed(ms: seq<Member>)
  {
    && EntriesOf(ms).Some? && TextOf(ms, "ledger_id").Some? && TextOf(ms, "tip_sha256").Some?
    && TextOf(ms, "ts").Some? && TextOf(ms, "signature_hex").Some?
  }

  /** Two digests and an instant. */
  predicate Formed(ms: seq<Member>)
  {
    && Typed(ms) && IsHexN(TextOf(ms, "ledger_id").value, 64) && IsHexN(TextOf(ms, "tip_sha256").value, 64)
    && PyInstant(TextOf(ms, "ts").value)
  }

  /** Keys and signatures of the right form, and a key that signatures can be checked with. */
  predicate Hexes(ms: seq<Member>, pk: Text)
  {
    Typed(ms) && IsHexN(TextOf(ms, "signature_hex").value, 128) && IsHexN(pk, 64)
  }

  predicate Weak(pk: Text) { IsHexN(pk, 64) && PyWeak(pk) }

  /** The library accepts the signature of the text. */
  predicate Verifies(ed: Ed25519, ms: seq<Member>, pk: Text)
    requires Typed(ms)
  {
    ed(pk, TipText(EntriesOf(ms).value, TextOf(ms, "ledger_id").value, TextOf(ms, "tip_sha256").value,
                   TextOf(ms, "ts").value), TextOf(ms, "signature_hex").value)
  }

  lemma SignedMeans(ed: Ed25519, ms: seq<Member>, pk: Text)
    requires Profile(Object(ms)) && Formed(ms)
    ensures CountAt(ms) == EntriesOf(ms) && EntriesOf(ms).value >= 0
    ensures StrAt(ms, LEDGER_ID()) == TextOf(ms, "ledger_id")
    ensures StrAt(ms, TIP_SHA()) == TextOf(ms, "tip_sha256") && StrAt(ms, LedgerEntries.TS()) == TextOf(ms, "ts")
    ensures TipCheck.Signed(ed, ms, pk, EntriesOf(ms).value, TextOf(ms, "ledger_id").value,
                            TextOf(ms, "tip_sha256").value, TextOf(ms, "ts").value, TextOf(ms, "signature_hex").value)
      <==> Verifies(ed, ms, pk)
  {
    hide Profile, TextOf, StrAt, LEDGER_ID, TIP_SHA, LedgerEntries.TS, ENTRIES, TipText, RustPayload,
      PyPayload, PyInstant, IsHexN, Lit;
    NamesAre(ms);
    var n, lid, sha, ts :=
      EntriesOf(ms).value, TextOf(ms, "ledger_id").value, TextOf(ms, "tip_sha256").value, TextOf(ms, "ts").value;
    FieldsProfile(ms, n, lid, sha, ts);
    PayloadsAgree(n, lid, sha, ts);
    PayloadMeans(n, lid, sha, ts);
  }

  /** signing.py, after the signature: the ledger against what was signed. */
  function LedgerVerdict(ms: seq<Member>, count: nat, first: Text, last: Text): (v: Verdict)
    requires Typed(ms)
  {
    var n := EntriesOf(ms).value;
    if count < n then TailTruncated
    else if count > n then UnsealedTail
    else if TextOf(ms, "ledger_id").value != first then OtherLedger
    else if TextOf(ms, "tip_sha256").value != last then TailRewritten
    else Accepted
  }

  /** What Python answers, for any document, key and ledger. */
  lemma PyVerdictMeans(ed: Ed25519, crypto: bool, tip: Json, pk: Text, count: nat, first: Text, last: Text)
    requires Profile(tip)
    ensures PyVerifyTip(ed, crypto, tip, pk, count, first, last) ==
      if pk == [] then Untrusted
      else match tip
        case Object(ms) =>
          if !IsTip(ms) then NotATip
          else if !(Formed(ms) && Hexes(ms, pk)) then BadFields
          else if NamesOtherKey(ms, pk) then OtherKey
          else if Weak(pk) then WeakKey
          else if !crypto then Unchecked
          else if !Verifies(ed, ms, pk) then BadSignature
          else LedgerVerdict(ms, count, first, last)
        case _ => NotATip
  {
    hide TextOf, EntriesOf, Profile, StrAt, CountAt, LEDGER_ID, TIP_SHA, LedgerEntries.TS, ENTRIES, KIND, SIGNATURE,
      TIP_KIND, Verifies, TipCheck.Signed, PyInstant, PyWeak, IsHexN, NamesOtherKey, KeyAgrees, Lit;
    FieldNames();
    if tip.Object? {
      var ms := tip.members;
      NamesAre(ms);
      KeyMeans(ms, pk);
      if Formed(ms) { SignedMeans(ed, ms, pk); }
    }
  }

  /** What Rust answers: the key is looked at with the signature, and the ledger's identity before its length. */
  lemma RustVerdictMeans(ed: Ed25519, ms: seq<Member>, pk: Text, count: nat, first: Text, last: Text)
    requires Profile(Object(ms))
    ensures RustCheckTip(ed, ms, pk, count, first, last) ==
      if !IsTip(ms) then NotATip
      else if !Formed(ms) then BadFields
      else if NamesOtherKey(ms, pk) then OtherKey
      else if !Hexes(ms, pk) || Weak(pk) || !Verifies(ed, ms, pk) then BadSignature
      else if TextOf(ms, "ledger_id").value != first then OtherLedger
      else LedgerVerdict(ms, count, first, last)
  {
    hide TextOf, EntriesOf, Profile, StrAt, CountAt, LEDGER_ID, TIP_SHA, LedgerEntries.TS, ENTRIES, KIND, SIGNATURE,
      TIP_KIND, Verifies, TipCheck.Signed, PyInstant, RustInstant, PyWeak, RustWeak, IsHexN, NamesOtherKey, KeyAgrees,
      RustEdOk, RustPayload, Lit;
    FieldNames();
    NamesAre(ms);
    KeyMeans(ms, pk);
    if Typed(ms) { InstantsAgree(TextOf(ms, "ts").value); }
    if Formed(ms) {
      SignedMeans(ed, ms, pk);
      EdOkMeans(ed, ms, pk, EntriesOf(ms).value, TextOf(ms, "ledger_id").value, TextOf(ms, "tip_sha256").value,
                TextOf(ms, "ts").value, TextOf(ms, "signature_hex").value);
    }
  }

  /** What a written tip says. */
  lemma TipSays(n: nat, lid: Text, sha: Text, ts: Text, pk: Text, sig: Text)
    ensures var ms := WrittenTip(n, lid, sha, ts, pk, sig);
      && IsTip(ms) && EntriesOf(ms) == Some(n) && TextOf(ms, "ledger_id") == Some(lid)
      && TextOf(ms, "tip_sha256") == Some(sha) && TextOf(ms, "ts") == Some(ts)
      && TextOf(ms, "signature_hex") == Some(sig) && TextOf(ms, "log_pubkey_hex") == Some(pk) && |ms| == 7
  {
    hide TextOf, EntriesOf, StrAt, CountAt, LEDGER_ID, TIP_SHA, LedgerEntries.TS, ENTRIES, KIND, SIGNATURE, TIP_KIND,
      LOG_KEY, Lit;
    FieldNames();
    TipMembers(n, lid, sha, ts, pk, sig);
    var ms := WrittenTip(n, lid, sha, ts, pk, sig);
    NamesAre(ms);
    LogKeySaid(n, lid, sha, ts, pk, sig);
  }

  lemma LogKeySaid(n: nat, lid: Text, sha: Text, ts: Text, pk: Text, sig: Text)
    ensures TextOf(WrittenTip(n, lid, sha, ts, pk, sig), "log_pubkey_hex") == Some(pk)
  {
    hide LEDGER_ID, TIP_SHA, LedgerEntries.TS, ENTRIES, KIND, SIGNATURE, TIP_KIND, LOG_KEY, Less, Lit, Get, Scalars;
    FieldNames();
    TipKeys();
    TipFileOrder();
    var ms := WrittenTip(n, lid, sha, ts, pk, sig);
    InOrder(ms);
    assert ms[3] in ms;
    GetIn(ms, LOG_KEY());
  }
}
