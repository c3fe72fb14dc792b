/** The signed chain tip: what is signed, and the two checkers of it (cra_evidence/signing.py `verify_tip`,
    verifiers/rust/src/main.rs `check_tip`). Signature checking itself is a parameter. */
module Tip {
  import opened Texts
  import opened JsonValues
  import opened JsonGrammar
  import opened JsonPrinter
  import opened GoCanonical
  import opened LedgerEntries
  import opened Instants

  /** Ed25519 verification by the library: public key, message, signature, the first and last in hexadecimal. */
  type Ed25519 = (Text, Text, Text) -> bool

  function ENTRIES(): (r: Text) { Lit("entries") }
  function KIND(): (r: Text) { Lit("kind") }
  function LEDGER_ID(): (r: Text) { Lit("ledger_id") }
  function TIP_SHA(): (r: Text) { Lit("tip_sha256") }
  function LOG_KEY(): (r: Text) { Lit("log_pubkey_hex") }
  function SIGNATURE(): (r: Text) { Lit("signature_hex") }
  function TIP_KIND(): (r: Text) { Lit("cryptovalid_tip/1") }

  // ---- the signed message --------------------------------------------------------------------------

  function TipBody(n: int, lid: Text, sha: Text, ts: Text): (r: Json)
  {
    Object([Member(ENTRIES(), Int(n)), Member(KIND(), Str(TIP_KIND())), Member(LEDGER_ID(), Str(lid)),
            Member(TIP_SHA(), Str(sha)), Member(TS(), Str(ts))])
  }

  lemma TipKeys()
    ensures Less(ENTRIES(), KIND()) && Less(KIND(), LEDGER_ID()) && Less(LEDGER_ID(), TIP_SHA())
      && Less(TIP_SHA(), TS())
    ensures Scalars(ENTRIES()) && Scalars(KIND()) && Scalars(LEDGER_ID()) && Scalars(TIP_SHA()) && Scalars(TS())
      && Scalars(TIP_KIND())
  {
    assert ENTRIES()[0] == 'e' as int && KIND()[0] == 'k' as int && LEDGER_ID()[0] == 'l' as int;
    var a, b := TIP_SHA(), TS();
    assert a[0] == b[0] == 't' as int && a[1..][0] == 'i' as int && b[1..][0] == 's' as int;
  }

  /** Keys in order from each to the next are in order throughout. */
  lemma {:induction false} AdjacentSorted(ms: seq<Member>, i: nat, j: nat)
    requires forall k :: 0 <= k < |ms| - 1 ==> Less(ms[k].key, ms[k + 1].key)
    requires i < j < |ms|
    ensures Less(ms[i].key, ms[j].key)
    decreases j
  {
    hide Less;
    assert Less(ms[j - 1].key, ms[j - 1 + 1].key);
    if i < j - 1 {
      AdjacentSorted(ms, i, j - 1);
      LessTransitive(ms[i].key, ms[j - 1].key, ms[j].key);
    }
  }

  lemma InOrder(ms: seq<Member>)
    requires forall k :: 0 <= k < |ms| - 1 ==> Less(ms[k].key, ms[k + 1].key)
    ensures Sorted(ms)
  {
    hide Less;
    forall i, j | 0 <= i < j < |ms| ensures Less(ms[i].key, ms[j].key) { AdjacentSorted(ms, i, j); }
  }

  lemma TipBodyProfile(n: int, lid: Text, sha: Text, ts: Text)
    requires -MAX_SAFE_INT <= n <= MAX_SAFE_INT && Scalars(lid) && Scalars(sha) && Scalars(ts)
    ensures Profile(TipBody(n, lid, sha, ts))
  {
    hide ENTRIES, KIND, LEDGER_ID, TIP_SHA, TS, TIP_KIND, Less, Scalars;
    TipKeys();
    var ms := TipBody(n, lid, sha, ts).members;
    InOrder(ms);
  }

  /** signing.py `tip_payload`. */
  function PyPayload(n: int, lid: Text, sha: Text, ts: Text): (r: Text)
    requires Profile(TipBody(n, lid, sha, ts))
  {
    Canonical(TipBody(n, lid, sha, ts))
  }

  /** main.rs: the message is put together with format!, nothing is escaped. */
  function RustPayload(n: int, lid: Text, sha: Text, ts: Text): (r: Text)
  {
    Lit("{\"entries\":") + (IntText(n) + (Lit(",\"kind\":\"") + (TIP_KIND() + (Lit("\",\"ledger_id\":\"") + (lid
    + (Lit("\",\"tip_sha256\":\"") + (sha + (Lit("\",\"ts\":\"") + (ts + Lit("\"}"))))))))))
  }

  /** Text the escaper leaves alone. */
  predicate PlainText(t: Text)
  {
    forall k :: 0 <= k < |t| ==> 0x20 <= t[k] <= 0x7e && t[k] != QUOTE && t[k] != BACKSLASH
  }

  lemma {:induction false} PlainQuoted(t: Text)
    requires PlainText(t)
    ensures Scalars(t) && EscapedAll(t) == t && Quoted(t) == [QUOTE] + t + [QUOTE]
  {
    if t != [] {
      PlainQuoted(t[1..]);
      assert Escaped(t[0]) == [t[0]];
      assert t == [t[0]] + t[1..];
    }
  }

  lemma PlainFields(lid: Text, sha: Text, ts: Text)
    requires IsHexN(lid, 64) && IsHexN(sha, 64) && PyInstant(ts)
    ensures PlainText(lid) && PlainText(sha) && PlainText(ts)
  {
    assert DateTimeShape(ts);
    if ZoneAt(ts, 19) {
      InstantPlain(ts, 19);
    } else {
      var f :| 1 <= f <= 9 && FractionOf(ts, f);
      InstantPlain(ts, 20 + f);
    }
  }

  lemma InstantPlain(s: Text, j: nat)
    requires DateTimeShape(s) && ZoneAt(s, j) && (j == 19 || (j > 20 && s[19] == DOT && Digits(s, 20, j)))
    ensures PlainText(s)
  {
    forall k | 0 <= k < |s| ensures 0x20 <= s[k] <= 0x7e && s[k] != QUOTE && s[k] != BACKSLASH {}
  }

  lemma PlainKeys()
    ensures PlainText(ENTRIES()) && PlainText(KIND()) && PlainText(LEDGER_ID()) && PlainText(TIP_SHA())
      && PlainText(TS())
    ensures PlainText(TIP_KIND())
  {}

  /** The pieces of the format string are the quoted keys with their separators. */
  lemma FormatPieces()
    ensures Lit("{\"entries\":") == [LBRACE] + ([QUOTE] + ENTRIES() + [QUOTE] + [COLON])
    ensures Lit(",\"kind\":\"") == [COMMA] + ([QUOTE] + KIND() + [QUOTE] + [COLON]) + [QUOTE]
    ensures Lit("\",\"ledger_id\":\"") == [QUOTE] + ([COMMA] + ([QUOTE] + LEDGER_ID() + [QUOTE] + [COLON]) + [QUOTE])
  {}

  lemma FormatTail()
    ensures Lit("\",\"tip_sha256\":\"") == [QUOTE] + ([COMMA] + ([QUOTE] + TIP_SHA() + [QUOTE] + [COLON]) + [QUOTE])
    ensures Lit("\",\"ts\":\"") == [QUOTE] + ([COMMA] + ([QUOTE] + TS() + [QUOTE] + [COLON]) + [QUOTE])
    ensures Lit("\"}") == [QUOTE] + [RBRACE]
  {}

  /** A member that can be printed. */
  ghost predicate MemberOk(m: Member) { Scalars(m.key) && Profile(m.val) }

  /** The text of an object of five members, as a flat sum. */
  lemma FiveMembers(a: Member, b: Member, c: Member, d: Member, e: Member)
    requires Profile(Object([a, b, c, d, e]))
    ensures MemberOk(a) && MemberOk(b) && MemberOk(c) && MemberOk(d) && MemberOk(e)
    ensures Canonical(Object([a, b, c, d, e])) ==
      [LBRACE]
        + (PrintMember(a, Compact, 0) + ([COMMA] + (PrintMember(b, Compact, 0) + ([COMMA] + (PrintMember(c, Compact, 0)
      + ([COMMA] + (PrintMember(d, Compact, 0) + ([COMMA] + PrintMember(e, Compact, 0))))))))) + [RBRACE]
  {
    hide PrintMember, Print, Sorted, Scalars;
    var ms := [a, b, c, d, e];
    assert ms[0] == a && ms[1] == b && ms[2] == c && ms[3] == d && ms[4] == e;
    ObjectText(ms);
    LastFrom(ms);
    FromStep(ms, 3);
    FromStep(ms, 2);
    FromStep(ms, 1);
    FirstFrom(ms);
  }

  lemma LastFrom(ms: seq<Member>)
    requires |ms| == 5 && forall i :: 0 <= i < |ms| ==> Scalars(ms[i].key) && Profile(ms[i].val)
    ensures MembersFrom(ms, 4) == [COMMA] + PrintMember(ms[4], Compact, 0)
  {
    hide PrintMember, Scalars, Profile;
    assert MembersFrom(ms, 5) == [];
    assert PrintMember(ms[4], Compact, 0) + [] == PrintMember(ms[4], Compact, 0);
  }

  lemma FromStep(ms: seq<Member>, k: nat)
    requires 0 < k < |ms| && forall i :: 0 <= i < |ms| ==> Scalars(ms[i].key) && Profile(ms[i].val)
    ensures MembersFrom(ms, k) == [COMMA] + (PrintMember(ms[k], Compact, 0) + MembersFrom(ms, k + 1))
  {
    hide PrintMember, Scalars, Profile;
  }

  lemma FirstFrom(ms: seq<Member>)
    requires ms != [] && forall i :: 0 <= i < |ms| ==> Scalars(ms[i].key) && Profile(ms[i].val)
    ensures MembersFrom(ms, 0) == PrintMember(ms[0], Compact, 0) + MembersFrom(ms, 1)
  {
    hide PrintMember, Scalars, Profile;
    assert [] + (PrintMember(ms[0], Compact, 0) + MembersFrom(ms, 1))
      == PrintMember(ms[0], Compact, 0) + MembersFrom(ms, 1);
  }

  lemma PlainMember(k: Text, v: Text)
    requires PlainText(k) && PlainText(v)
    ensures Scalars(k) && Scalars(v)
    ensures PrintMember(Member(k, Str(v)), Compact, 0) == ([QUOTE] + k + [QUOTE] + [COLON]) + [QUOTE] + v + [QUOTE]
  {
    hide EscapedAll, PlainText;
    PlainQuoted(k);
    PlainQuoted(v);
  }

  lemma NumberMember(k: Text, n: int)
    requires PlainText(k) && -MAX_SAFE_INT <= n <= MAX_SAFE_INT
    ensures Scalars(k)
    ensures PrintMember(Member(k, Int(n)), Compact, 0) == ([QUOTE] + k + [QUOTE] + [COLON]) + IntText(n)
  {
    hide EscapedAll, PlainText, IntText;
    PlainQuoted(k);
  }

  /** One quoted member after a comma, before what follows it. */
  lemma Nest(co: Text, k: Text, q: Text, v: Text, rest: Text, close: Text, mid: Text, tail: Text)
    requires rest + close == mid + tail
    ensures (co + ((k + q + v + q) + rest)) + close == (co + k + q) + (v + ((q + mid) + tail))
  {
    assert (co + ((k + q + v + q) + rest)) + close == (co + k + q) + (v + (q + (rest + close)));
    assert q + (mid + tail) == (q + mid) + tail;
  }

  /** The last member. */
  lemma NestLast(co: Text, k: Text, q: Text, v: Text, close: Text)
    ensures (co + (k + q + v + q)) + close == (co + k + q) + (v + (q + close))
  {}

  lemma NestFirst(open: Text, e: Text, n: Text, rest: Text, close: Text, mid: Text, tail: Text)
    requires rest + close == mid + tail
    ensures open + ((e + n) + rest) + close == (open + e) + (n + (mid + tail))
  {
    assert open + ((e + n) + rest) + close == (open + e) + (n + (rest + close));
  }

  /** Regrouping of the same pieces. */
  lemma SameSum(q: Text, co: Text, e: Text, n: Text, k: Text, kind: Text, l: Text, lid: Text, t: Text, sha: Text,
                s: Text, ts: Text, open: Text, close: Text)
    ensures open
      + ((e + n)
         + (co + ((k + q + kind + q)
                  + (co + ((l + q + lid + q) + (co + ((t + q + sha + q) + (co + (s + q + ts + q))))))))) + close
      == (open + e)
        + (n + ((co + k + q)
                + (kind + ((q + (co + l + q))
                           + (lid + ((q + (co + t + q)) + (sha + ((q + (co + s + q)) + (ts + (q + close))))))))))
  {
    var r4 := co + (s + q + ts + q);
    var r3 := co + ((t + q + sha + q) + r4);
    var r2 := co + ((l + q + lid + q) + r3);
    var r1 := co + ((k + q + kind + q) + r2);
    var t4 := ts + (q + close);
    var t3 := sha + ((q + (co + s + q)) + t4);
    var t2 := lid + ((q + (co + t + q)) + t3);
    var t1 := kind + ((q + (co + l + q)) + t2);
    NestLast(co, s, q, ts, close);
    Nest(co, t, q, sha, r4, close, co + s + q, t4);
    Nest(co, l, q, lid, r3, close, co + t + q, t3);
    Nest(co, k, q, kind, r2, close, co + l + q, t2);
    NestFirst(open, e, n, r1, close, co + k + q, t1);
  }

  /** The formatted message is the canonical one for every field that passed the checks. */
  lemma PayloadsAgree(n: int, lid: Text, sha: Text, ts: Text)
    requires -MAX_SAFE_INT <= n <= MAX_SAFE_INT && IsHexN(lid, 64) && IsHexN(sha, 64) && PyInstant(ts)
    ensures Profile(TipBody(n, lid, sha, ts)) && RustPayload(n, lid, sha, ts) == PyPayload(n, lid, sha, ts)
  {
    hide PlainText, IntText, PrintMember, ENTRIES, KIND, LEDGER_ID, TIP_SHA, TS, TIP_KIND, Lit, PyInstant, IsHexN,
      Scalars, Print;
    PlainFields(lid, sha, ts);
    PlainKeys();
    NumberMember(ENTRIES(), n);
    PlainMember(KIND(), TIP_KIND());
    PlainMember(LEDGER_ID(), lid);
    PlainMember(TIP_SHA(), sha);
    PlainMember(TS(), ts);
    TipBodyProfile(n, lid, sha, ts);
    var ms := TipBody(n, lid, sha, ts).members;
    FiveMembers(ms[0], ms[1], ms[2], ms[3], ms[4]);
    FormatPieces();
    FormatTail();
    SameSum([QUOTE], [COMMA], [QUOTE] + ENTRIES() + [QUOTE] + [COLON], IntText(n), [QUOTE] + KIND() + [QUOTE]
            + [COLON], TIP_KIND(),
            [QUOTE] + LEDGER_ID() + [QUOTE] + [COLON], lid, [QUOTE] + TIP_SHA() + [QUOTE] + [COLON], sha,
            [QUOTE] + TS() + [QUOTE] + [COLON], ts, [LBRACE], [RBRACE]);
  }
}
