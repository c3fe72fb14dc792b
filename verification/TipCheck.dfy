/** The two tip checkers, their agreement, and what an accepted tip says about a ledger. */
module TipCheck {
  import opened Texts
  import opened JsonValues
  import opened JsonPrinter
  import opened JsonStructure
  import opened Chain
  import opened History
  import opened LedgerEntries
  import opened Instants
  import opened WeakKeys
  import opened Tip
  import Ledger
  import CrashSafety

  datatype Verdict =
    | Accepted
    | Untrusted | NotATip | BadFields | OtherKey | WeakKey | Unchecked | BadSignature
    | TailTruncated | UnsealedTail | OtherLedger | TailRewritten

  function StrAt(ms: seq<Member>, k: Text): (r: Option<Text>)
  {
    var v := Get(ms, k);
    if v.Some? && v.value.Str? then Some(v.value.s) else None
  }

  function CountAt(ms: seq<Member>): (r: Option<int>)
  {
    var v := Get(ms, ENTRIES());
    if v.Some? && v.value.Int? && v.value.n >= 0 then Some(v.value.n) else None
  }

  function KeyAsBytes(hex: Text): (r: Text)
    requires IsHexN(hex, 64)
  {
    Unhex(hex)
  }

  /** The log key named in the tip does not contradict the trusted one: absent, null, empty or equal. */
  predicate KeyAgrees(ms: seq<Member>, pk: Text)
  {
    var v := Get(ms, LOG_KEY());
    v.None? || v.value.Null? || v == Some(Str([])) || v == Some(Str(pk))
  }

  /** signing.py `verify_tip`. `crypto`: the signature library can be imported on this host. */
  function PyVerifyTip(ed: Ed25519, crypto: bool, tip: Json, pk: Text, count: nat, first: Text,
                       last: Text): (r: Verdict)
    requires Profile(tip)
  {
    if pk == [] then Untrusted
    else if !tip.Object? || StrAt(tip.members, KIND()) != Some(TIP_KIND()) then NotATip
    else
      var ms := tip.members;
      var n, lid, sha, ts, sig :=
        CountAt(ms), StrAt(ms, LEDGER_ID()), StrAt(ms, TIP_SHA()), StrAt(ms, TS()), StrAt(ms, SIGNATURE());
      if n.None? || lid.None? || sha.None? || ts.None? || sig.None? then BadFields
      else if !(IsHexN(lid.value, 64) && IsHexN(sha.value, 64) && PyInstant(ts.value) && IsHexN(sig.value, 128)
                && IsHexN(pk, 64))
        then BadFields
      else if !KeyAgrees(ms, pk) then OtherKey
      else if PyWeak(pk) then WeakKey
      else if !crypto then Unchecked
      else if !Signed(ed, ms, pk, n.value, lid.value, sha.value, ts.value, sig.value) then BadSignature
      else if n.value != count then if count < n.value then TailTruncated else UnsealedTail
      else if lid.value != first then OtherLedger
      else if sha.value != last then TailRewritten
      else Accepted
  }

  /** The library accepts the signature of these fields. */
  predicate Signed(ed: Ed25519, ms: seq<Member>, pk: Text, n: int, lid: Text, sha: Text, ts: Text, sig: Text)
    requires Profile(Object(ms)) && CountAt(ms) == Some(n) && StrAt(ms, LEDGER_ID()) == Some(lid)
    requires StrAt(ms, TIP_SHA()) == Some(sha) && StrAt(ms, TS()) == Some(ts)
  {
    FieldsProfile(ms, n, lid, sha, ts);
    ed(pk, PyPayload(n, lid, sha, ts), sig)
  }

  lemma FieldsProfile(ms: seq<Member>, n: int, lid: Text, sha: Text, ts: Text)
    requires Profile(Object(ms)) && CountAt(ms) == Some(n) && StrAt(ms, LEDGER_ID()) == Some(lid)
    requires StrAt(ms, TIP_SHA()) == Some(sha) && StrAt(ms, TS()) == Some(ts)
    ensures Profile(TipBody(n, lid, sha, ts)) && 0 <= n <= MAX_SAFE_INT
  {
    hide TipBody, ENTRIES, LEDGER_ID, TIP_SHA, TS;
    Ledger.MemberProfile(Object(ms), ENTRIES());
    Ledger.MemberProfile(Object(ms), LEDGER_ID());
    Ledger.MemberProfile(Object(ms), TIP_SHA());
    Ledger.MemberProfile(Object(ms), TS());
    TipBodyProfile(n, lid, sha, ts);
  }

  /** main.rs `ed_ok`. */
  predicate RustEdOk(ed: Ed25519, pk: Text, msg: Text, sig: Text)
  {
    if !IsHexN(pk, 64) || !IsHexN(sig, 128) then false
    else if RustWeak(KeyAsBytes(pk)) then false
    else ed(pk, msg, sig)
  }

  /** main.rs `check_tip`, on a tip that parsed as an object. */
  function RustCheckTip(ed: Ed25519, ms: seq<Member>, pk: Text, count: nat, first: Text, last: Text): (r: Verdict)
  {
    if StrAt(ms, KIND()) != Some(TIP_KIND()) then NotATip
    else
      var n, lid, sha, ts, sig :=
        CountAt(ms), StrAt(ms, LEDGER_ID()), StrAt(ms, TIP_SHA()), StrAt(ms, TS()), StrAt(ms, SIGNATURE());
      if n.None? || lid.None? || sha.None? || ts.None? || sig.None? then BadFields
      else if !IsHexN(lid.value, 64) || !IsHexN(sha.value, 64) || !RustInstant(ts.value) then BadFields
      else if !KeyAgrees(ms, pk) then OtherKey
      else if !RustEdOk(ed, pk, RustPayload(n.value, lid.value, sha.value, ts.value), sig.value) then BadSignature
      else if lid.value != first then OtherLedger
      else if count < n.value then TailTruncated
      else if count > n.value then UnsealedTail
      else if last != sha.value then TailRewritten
      else Accepted
  }

  /** What both accept, whatever the order of their checks. */
  ghost predicate GoodTip(ed: Ed25519, ms: seq<Member>, pk: Text, count: nat, first: Text, last: Text)
    requires Profile(Object(ms))
  {
    var ts, sig := StrAt(ms, TS()), StrAt(ms, SIGNATURE());
    && StrAt(ms, KIND()) == Some(TIP_KIND())
    && CountAt(ms) == Some(count) && StrAt(ms, LEDGER_ID()) == Some(first) && StrAt(ms, TIP_SHA()) == Some(last)
    && ts.Some? && sig.Some?
    && IsHexN(first, 64) && IsHexN(last, 64) && PyInstant(ts.value) && IsHexN(sig.value, 128)
    && IsHexN(pk, 64) && !PyWeak(pk) && KeyAgrees(ms, pk)
    && Signed(ed, ms, pk, count, first, last, ts.value, sig.value)
  }

  lemma PyAcceptsGood(ed: Ed25519, ms: seq<Member>, pk: Text, count: nat, first: Text, last: Text)
    requires Profile(Object(ms))
    ensures PyVerifyTip(ed, true, Object(ms), pk, count, first, last) == Accepted <==>
      GoodTip(ed, ms, pk, count, first, last)
  {
    hide PyWeak, PyInstant, Profile, TIP_KIND, KIND, LEDGER_ID, TIP_SHA, TS, SIGNATURE, KeyAgrees, Signed, StrAt,
      CountAt;
  }

  lemma RustAcceptsGood(ed: Ed25519, ms: seq<Member>, pk: Text, count: nat, first: Text, last: Text)
    requires Profile(Object(ms))
    ensures RustCheckTip(ed, ms, pk, count, first, last) == Accepted <==> GoodTip(ed, ms, pk, count, first, last)
  {
    hide RustWeak, PyWeak, RustInstant, PyInstant, Profile, TIP_KIND, KIND, LEDGER_ID, TIP_SHA, TS, SIGNATURE,
      KeyAgrees, Signed, StrAt, CountAt, RustPayload, RustEdOk, Unhex, IsHexN;
    var ts, sig := StrAt(ms, TS()), StrAt(ms, SIGNATURE());
    if ts.Some? && sig.Some? && CountAt(ms) == Some(count) && StrAt(ms, LEDGER_ID()) == Some(first)
      && StrAt(ms, TIP_SHA()) == Some(last) {
      InstantsAgree(ts.value);
      if IsHexN(first, 64) && IsHexN(last, 64) && PyInstant(ts.value) {
        EdOkMeans(ed, ms, pk, count, first, last, ts.value, sig.value);
      }
    }
  }

  lemma EdOkMeans(ed: Ed25519, ms: seq<Member>, pk: Text, n: nat, lid: Text, sha: Text, ts: Text, sig: Text)
    requires Profile(Object(ms)) && CountAt(ms) == Some(n) && StrAt(ms, LEDGER_ID()) == Some(lid)
    requires StrAt(ms, TIP_SHA()) == Some(sha) && StrAt(ms, TS()) == Some(ts)
    requires IsHexN(lid, 64) && IsHexN(sha, 64) && PyInstant(ts)
    ensures RustEdOk(ed, pk, RustPayload(n, lid, sha, ts), sig) <==>
      IsHexN(pk, 64) && IsHexN(sig, 128) && !PyWeak(pk) && Signed(ed, ms, pk, n, lid, sha, ts, sig)
  {
    hide RustWeak, PyWeak, PyInstant, Profile, ENTRIES, LEDGER_ID, TIP_SHA, TS, StrAt, CountAt, RustPayload, PyPayload,
      TipBody, Unhex;
    FieldsProfile(ms, n, lid, sha, ts);
    PayloadsAgree(n, lid, sha, ts);
    if IsHexN(pk, 64) { WeakTestsAgree(pk); }
  }

  /** The two checkers accept the same tips for the same ledgers, although they look in a different order. */
  lemma TipCheckersAgree(ed: Ed25519, ms: seq<Member>, pk: Text, count: nat, first: Text, last: Text)
    requires Profile(Object(ms))
    ensures PyVerifyTip(ed, true, Object(ms), pk, count, first, last) == Accepted
      <==> RustCheckTip(ed, ms, pk, count, first, last) == Accepted
  {
    hide PyVerifyTip, RustCheckTip, GoodTip, Profile;
    PyAcceptsGood(ed, ms, pk, count, first, last);
    RustAcceptsGood(ed, ms, pk, count, first, last);
  }

  // ---- what a tip pins -----------------------------------------------------------------------------

  /** signing.py `write_tip`: the fields of the tip of a ledger, with the signature made for them. */
  function WrittenTip(n: nat, lid: Text, sha: Text, ts: Text, pk: Text, sig: Text): (r: seq<Member>)
  {
    [Member(ENTRIES(), Int(n)), Member(KIND(), Str(TIP_KIND())), Member(LEDGER_ID(), Str(lid)),
     Member(LOG_KEY(), Str(pk)),
     Member(SIGNATURE(), Str(sig)), Member(TIP_SHA(), Str(sha)), Member(TS(), Str(ts))]
  }

  /** The message a tip of this ledger signs. */
  ghost function TipOf(a: seq<Json>, ts: Text): (r: Json)
    requires a != []
  {
    TipBody(|a|, SelfHash(a[0]), PrevHash(a, |a|), ts)
  }

  /** A tip is accepted over a ledger only if its key signed exactly that ledger's length, first and last hash. */
  lemma AcceptedIsSigned(ed: Ed25519, tip: Json, pk: Text, b: seq<Json>) returns (ts: Text, sig: Text)
    requires b != [] && Profile(tip)
    requires PyVerifyTip(ed, true, tip, pk, |b|, SelfHash(b[0]), PrevHash(b, |b|)) == Accepted
    ensures Profile(TipOf(b, ts)) && ed(pk, Canonical(TipOf(b, ts)), sig)
  {
    hide PyWeak, PyInstant, TIP_KIND, KIND, LEDGER_ID, TIP_SHA, TS, SIGNATURE, KeyAgrees, StrAt, CountAt, IsHexN,
      SelfHash;
    var ms := tip.members;
    ts, sig := StrAt(ms, TS()).value, StrAt(ms, SIGNATURE()).value;
    FieldsProfile(ms, |b|, SelfHash(b[0]), PrevHash(b, |b|), ts);
  }

  /** The message is a tip of the first n entries of this ledger. */
  ghost predicate TipAt(a: seq<Json>, n: nat, msg: Text)
  {
    0 < n <= |a| && exists ts: Text :: TipAtTime(a, n, ts, msg)
  }

  ghost predicate TipAtTime(a: seq<Json>, n: nat, ts: Text, msg: Text)
    requires 0 < n <= |a|
  {
    Profile(TipOf(a[..n], ts)) && msg == Canonical(TipOf(a[..n], ts))
  }

  /** All the key has ever signed are tips of this ledger as it grew: `append` signs one after every record. */
  ghost predicate SignedTips(a: seq<Json>, signed: set<Text>)
  {
    forall msg :: msg in signed ==> exists n: nat :: TipAt(a, n, msg)
  }

  /** A signature that is accepted over a message the key has not signed. */
  ghost predicate Forgery(ed: Ed25519, pk: Text, signed: set<Text>, msg: Text, sig: Text)
  {
    ed(pk, msg, sig) && msg !in signed
  }

  lemma BodyFields(n: int, lid: Text, sha: Text, ts: Text, n': int, lid': Text, sha': Text, ts': Text)
    requires TipBody(n, lid, sha, ts) == TipBody(n', lid', sha', ts')
    ensures n == n' && lid == lid' && sha == sha' && ts == ts'
  {
    var x, y := TipBody(n, lid, sha, ts).members, TipBody(n', lid', sha', ts').members;
    assert x[0] == y[0] && x[2] == y[2] && x[3] == y[3] && x[4] == y[4];
  }

  /** A tip pins a ledger. Whatever tip file is presented, and whatever the ledger b next to it: if b verifies and
      the tip is accepted over it, then b is the ledger a exactly as it was at one of the lengths its key has signed,
      entry by entry; or two of its entries collide under the digest; or a signature was forged. */
  lemma TipPinsLedger(h: Hash, ed: Ed25519, tip: Json, pk: Text, signed: set<Text>, a: seq<Json>, b: seq<Json>)
      returns (n: nat, i: nat, j: nat, msg: Text, sig: Text)
    requires Profiles(a) && Profiles(b) && ChainOk(h, a) && ChainOk(h, b) && Profile(tip) && SignedTips(a, signed)
    requires PyVerifyTip(ed, true, tip, pk, |b|, SelfHash(b[0]), PrevHash(b, |b|)) == Accepted
    ensures Forgery(ed, pk, signed, msg, sig) ||
      (0 < n <= |a| && n == |b| && msg in signed && TipAt(a, n, msg)
       && Profiles(a[..n]) && (b == a[..n] || Collision(h, a[..n], b, i, j)))
  {
    hide PyVerifyTip, Profile, ChainOk, SelfHash, PrevHash, TipBody, Print, Collision;
    n, i, j := 0, 0, 0;
    NotEmpty(h, b);
    var ts;
    ts, sig := AcceptedIsSigned(ed, tip, pk, b);
    msg := Canonical(TipOf(b, ts));
    if msg in signed {
      n :| TipAt(a, n, msg);
      var ts' :| TipAtTime(a, n, ts', msg);
      var p := a[..n];
      CanonicalInjective(TipOf(p, ts'), TipOf(b, ts));
      BodyFields(|p|, SelfHash(p[0]), PrevHash(p, |p|), ts', |b|, SelfHash(b[0]), PrevHash(b, |b|), ts);
      PrefixOk(h, a, n);
      i, j := TipCommitsToHistory(h, p, b);
    }
  }

  lemma PrefixOk(h: Hash, a: seq<Json>, n: nat)
    requires Profiles(a) && ChainOk(h, a) && 0 < n <= |a|
    ensures Profiles(a[..n]) && ChainOk(h, a[..n])
  {
    hide LinkedAt;
    LinkedPrefix(h, a[..n], a);
  }

  lemma NotEmpty(h: Hash, a: seq<Json>)
    requires Profiles(a) && ChainOk(h, a)
    ensures a != []
  {}

  /** What makes a written tip authentic: fields of the right form and a signature the library accepts. */
  ghost predicate Authentic(ed: Ed25519, a: seq<Json>, ts: Text, pk: Text, sig: Text)
    requires a != []
  {
    && PyInstant(ts) && IsHexN(pk, 64) && !PyWeak(pk) && IsHexN(sig, 128)
    && Profile(TipOf(a, ts)) && ed(pk, Canonical(TipOf(a, ts)), sig)
  }

  lemma TipMembers(n: nat, lid: Text, sha: Text, ts: Text, pk: Text, sig: Text)
    ensures var ms := WrittenTip(n, lid, sha, ts, pk, sig);
      && StrAt(ms, KIND()) == Some(TIP_KIND()) && CountAt(ms) == Some(n) && StrAt(ms, LEDGER_ID()) == Some(lid)
      && StrAt(ms, TIP_SHA()) == Some(sha) && StrAt(ms, TS()) == Some(ts) && StrAt(ms, SIGNATURE()) == Some(sig)
      && KeyAgrees(ms, pk)
  {
    hide TIP_KIND, ENTRIES, KIND, LEDGER_ID, LOG_KEY, SIGNATURE, TIP_SHA, TS, Less, Scalars;
    TipKeys();
    TipFileOrder();
    var ms := WrittenTip(n, lid, sha, ts, pk, sig);
    InOrder(ms);
    forall i | 0 <= i < |ms| ensures Get(ms, ms[i].key) == Some(ms[i].val) {
      GetIn(ms, ms[i].key);
      assert ms[i] in ms;
    }
    assert ms[0].key == ENTRIES() && ms[1].key == KIND() && ms[2].key == LEDGER_ID() && ms[3].key == LOG_KEY();
    assert ms[4].key == SIGNATURE() && ms[5].key == TIP_SHA() && ms[6].key == TS();
  }

  /** The exact verdict of an authentic tip of a over any verified ledger b: shorter, longer, other or rewritten
      ledgers are refused, each for its own reason, and a itself is accepted. */
  lemma AuthenticTipVerdict(h: Hash, ed: Ed25519, a: seq<Json>, b: seq<Json>, ts: Text, pk: Text, sig: Text)
    requires Profiles(a) && Profiles(b) && ChainOk(h, a) && ChainOk(h, b) && Authentic(ed, a, ts, pk, sig)
    ensures Profile(TipFile(a, ts, pk, sig))
    ensures PyVerifyTip(ed, true, TipFile(a, ts, pk, sig), pk, |b|, SelfHash(b[0]), PrevHash(b, |b|)) ==
        if |b| < |a| then TailTruncated else if |b| > |a| then UnsealedTail
        else if SelfHash(b[0]) != SelfHash(a[0]) then OtherLedger
        else if PrevHash(b, |b|) != PrevHash(a, |a|) then TailRewritten else Accepted
  {
    hide PyWeak, PyInstant, TIP_KIND, ENTRIES, KIND, LEDGER_ID, LOG_KEY, SIGNATURE, TIP_SHA, TS, KeyAgrees, StrAt,
      CountAt, SelfHash, PrevHash, ChainOk, Profile, WrittenTip, Print;
    NotEmpty(h, a);
    NotEmpty(h, b);
    TipMembers(|a|, SelfHash(a[0]), PrevHash(a, |a|), ts, pk, sig);
    HashesAreHex(h, a, 0);
    HashesAreHex(h, a, |a| - 1);
    LastHash(a);
    BodyParts(|a|, SelfHash(a[0]), PrevHash(a, |a|), ts);
    WrittenTipProfile(|a|, SelfHash(a[0]), PrevHash(a, |a|), ts, pk, sig);
  }

  ghost function TipFile(a: seq<Json>, ts: Text, pk: Text, sig: Text): (r: Json)
    requires a != []
  {
    Object(WrittenTip(|a|, SelfHash(a[0]), PrevHash(a, |a|), ts, pk, sig))
  }

  lemma BodyParts(n: int, lid: Text, sha: Text, ts: Text)
    requires Profile(TipBody(n, lid, sha, ts))
    ensures -MAX_SAFE_INT <= n <= MAX_SAFE_INT && Scalars(lid) && Scalars(sha) && Scalars(ts)
  {
    hide Scalars;
    var ms := TipBody(n, lid, sha, ts).members;
    assert Profile(ms[0].val) && Profile(ms[2].val) && Profile(ms[3].val) && Profile(ms[4].val);
  }

  lemma TipFileOrder()
    ensures Less(LEDGER_ID(), LOG_KEY()) && Less(LOG_KEY(), SIGNATURE()) && Less(SIGNATURE(), TIP_SHA())
    ensures Scalars(LOG_KEY()) && Scalars(SIGNATURE())
  {
    var a, b := LEDGER_ID(), LOG_KEY();
    assert a[0] == b[0] == 'l' as int && a[1..][0] == 'e' as int && b[1..][0] == 'o' as int;
    assert SIGNATURE()[0] == 's' as int && TIP_SHA()[0] == 't' as int;
  }

  lemma WrittenTipProfile(n: nat, lid: Text, sha: Text, ts: Text, pk: Text, sig: Text)
    requires n <= MAX_SAFE_INT && Scalars(lid) && Scalars(sha) && Scalars(ts) && IsHexN(pk, 64) && IsHexN(sig, 128)
    ensures Profile(Object(WrittenTip(n, lid, sha, ts, pk, sig)))
  {
    hide TIP_KIND, ENTRIES, KIND, LEDGER_ID, LOG_KEY, SIGNATURE, TIP_SHA, TS, Less, Scalars;
    TipKeys();
    TipFileOrder();
    HexIsScalar(pk, 64);
    HexIsScalar(sig, 128);
    InOrder(WrittenTip(n, lid, sha, ts, pk, sig));
  }

  lemma LastHash(a: seq<Json>)
    requires a != []
    ensures PrevHash(a, |a|) == SelfHash(a[|a| - 1])
  {}

  lemma HashesAreHex(h: Hash, a: seq<Json>, k: nat)
    requires Profiles(a) && ChainOk(h, a) && k < |a|
    ensures IsHexN(SelfHash(a[k]), 64)
  {
    hide Links;
    assert LinkedAt(h, a, k);
    SelfHashIsDigest(h, a[k], k, PrevHash(a, k));
  }

  /** An authentic tip of a accepts a, and a verified ledger it accepts is a, or a collision is exhibited. */
  lemma AuthenticTipPins(h: Hash, ed: Ed25519, a: seq<Json>, b: seq<Json>, ts: Text, pk: Text, sig: Text)
      returns (i: nat, j: nat)
    requires Profiles(a) && Profiles(b) && ChainOk(h, a) && ChainOk(h, b) && Authentic(ed, a, ts, pk, sig)
    ensures Profile(TipFile(a, ts, pk, sig))
    ensures var accepts := PyVerifyTip(ed, true, TipFile(a, ts, pk, sig), pk, |b|, SelfHash(b[0]), PrevHash(b, |b|))
      == Accepted;
      (a == b ==> accepts) && (accepts ==> a == b || Collision(h, a, b, i, j))
  {
    hide PyVerifyTip, Profile, ChainOk, SelfHash, PrevHash, Collision, WrittenTip, Authentic;
    AuthenticTipVerdict(h, ed, a, b, ts, pk, sig);
    i, j := 0, 0;
    if PrevHash(a, |a|) == PrevHash(b, |b|) { i, j := TipCommitsToHistory(h, a, b); }
  }

  /** The tip that `append` writes after a record (next index, first and last self_hash as the writer holds them)
      is the tip of the ledger it has just written. */
  lemma AppendWritesItsTip(h: Hash, b: Text, data: Json, ts: Text)
    requires Ledger.Appendable(h, b, data, ts)
    ensures ReadEntries(b).Some? && LedgerEntries.TailOf(b).Some? && Ledger.Record(h, b, data, ts).Some?
    ensures var t, e := LedgerEntries.TailOf(b).value, Ledger.Record(h, b, data, ts).value;
      var es := ReadEntries(b).value + [e];
      && ReadEntries(b + Ledger.PendingAt(h, b, data, ts)) == Some(es)
      && t.n + 1 == |es|
      && (if t.n > 0 then t.first else SelfHash(e)) == SelfHash(es[0])
      && SelfHash(e) == PrevHash(es, |es|)
  {
    hide ReadEntries, Ledger.Record, Ledger.PendingAt, SelfHash, CrashSafety.Sound, FileOk;
    CrashSafety.AppendKeepsVerdict(h, b, data, ts);
    var es := ReadEntries(b).value + [Ledger.Record(h, b, data, ts).value];
    LastHash(es);
  }
}
