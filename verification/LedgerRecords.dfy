/** What an append stores, field by field and character by character, in terms of the caller's data and time and of
    the entries found in the file. */
module LedgerRecords {
  import opened Texts
  import opened JsonValues
  import opened JsonGrammar
  import opened JsonPrinter
  import opened GoCanonical
  import opened Lines
  import opened Chain
  import opened LedgerEntries
  import opened Ledger
  import Tip

  /** The object has this value under this key. */
  predicate Says(e: Json, key: string, v: Json) { e.Object? && Get(e.members, Lit(key)) == Some(v) }

  lemma FieldNames()
    ensures DATA() == Lit("data") && IDX() == Lit("idx") && PREV() == Lit("prev_hash") && SELF() == Lit("self_hash")
      && TS() == Lit("ts")
  {}

  /** The text under self_hash, if there is one. */
  function OwnHash(e: Json): (r: Text)
  {
    match e
    case Object(ms) => (match Get(ms, Lit("self_hash")) case Some(Str(s)) => s case _ => [])
    case _ => []
  }

  /** 64 zeros before the first record, its self_hash before any other. */
  function Previous(es: seq<Json>): (r: Text)
  {
    if es == [] then seq(64, i => '0' as int) else OwnHash(es[|es| - 1])
  }

  lemma PreviousIs(es: seq<Json>)
    ensures PrevHash(es, |es|) == Previous(es)
  {
    hide Lit;
    FieldNames();
    assert es == [] ==> ZEROS() == Previous(es);
    assert es != [] ==> SelfHash(es[|es| - 1]) == OwnHash(es[|es| - 1]);
  }

  lemma SignedSays(t: Tail, data: Json, ts: Text, own: Text)
    ensures var e := Signed(t, data, ts, own);
      && Says(e, "data", data) && Says(e, "idx", Int(t.n)) && Says(e, "prev_hash", Str(t.last))
      && Says(e, "self_hash", Str(own)) && Says(e, "ts", Str(ts)) && |e.members| == 5
  {
    hide DATA, IDX, PREV, SELF, TS, Get, Lit;
    FieldNames();
    KeysDistinct();
    AllOrdered();
    Lookups(t, data, ts, own);
    var ms := Signed(t, data, ts, own).members;
    DistinctEnds();
    EndLookups(ms[0], ms[1], ms[2], ms[3], ms[4]);
  }

  lemma DistinctEnds()
    ensures TS() != DATA() && TS() != IDX() && TS() != PREV() && TS() != SELF()
  {
    hide Less, DATA, IDX, PREV, SELF, TS;
    KeysOrdered();
    AllOrdered();
    LessIrreflexive(TS());
  }

  lemma EndLookups(a: Member, b: Member, c: Member, d: Member, e: Member)
    requires e.key != a.key && e.key != b.key && e.key != c.key && e.key != d.key
    ensures Get([a, b, c, d, e], a.key) == Some(a.val) && Get([a, b, c, d, e], e.key) == Some(e.val)
  {
    hide Get;
    Grouped(a, b, c, d, e);
    HeadFirst(a, [b] + ([c] + ([d] + [e])), a.key);
    HeadFirst(a, [b] + ([c] + ([d] + [e])), e.key);
    HeadFirst(b, [c] + ([d] + [e]), e.key);
    HeadFirst(c, [d] + [e], e.key);
    HeadFirst(d, [e], e.key);
    LastLookup(e);
  }

  lemma LastLookup(e: Member)
    ensures Get([e], e.key) == Some(e.val)
  {}

  // ---- the texts -----------------------------------------------------------------------------------

  /** The text the digest is taken of. */
  function UnsignedText(n: nat, previous: Text, data: Json, ts: Text): (r: Text)
    requires Profile(data) && Scalars(previous) && Scalars(ts)
  {
    Lit("{\"data\":") + Canonical(data) + Lit(",\"idx\":") + IntText(n) + Lit(",\"prev_hash\":") + Quoted(previous)
    + Lit(",\"ts\":") + Quoted(ts) + Lit("}")
  }

  /** The text of the line. */
  function RecordText(n: nat, previous: Text, data: Json, ts: Text, own: Text): (r: Text)
    requires Profile(data) && Scalars(previous) && Scalars(ts) && IsHexN(own, 64)
  {
    Lit("{\"data\":") + Canonical(data) + Lit(",\"idx\":") + IntText(n) + Lit(",\"prev_hash\":") + Quoted(previous)
    + Lit(",\"self_hash\":\"") + own + Lit("\",\"ts\":") + Quoted(ts) + Lit("}")
  }

  lemma Pieces()
    ensures Lit("{\"data\":") == [LBRACE] + ([QUOTE] + DATA() + [QUOTE] + [COLON])
    ensures Lit(",\"idx\":") == [COMMA] + ([QUOTE] + IDX() + [QUOTE] + [COLON])
    ensures Lit(",\"prev_hash\":") == [COMMA] + ([QUOTE] + PREV() + [QUOTE] + [COLON])
    ensures Lit(",\"self_hash\":\"") == [COMMA] + ([QUOTE] + SELF() + [QUOTE] + [COLON]) + [QUOTE]
    ensures Lit(",\"ts\":") == [COMMA] + ([QUOTE] + TS() + [QUOTE] + [COLON])
    ensures Lit("}") == [RBRACE]
  {}

  lemma ClosingPiece()
    ensures Lit("\",\"ts\":") == [QUOTE] + Lit(",\"ts\":")
  {}

  lemma PlainKeys()
    ensures Tip.PlainText(DATA()) && Tip.PlainText(IDX()) && Tip.PlainText(PREV()) && Tip.PlainText(SELF())
      && Tip.PlainText(TS())
  {}

  lemma KeyText(m: Member)
    requires Tip.PlainText(m.key) && Profile(m.val)
    ensures Scalars(m.key)
    ensures PrintMember(m, Compact, 0) == ([QUOTE] + m.key + [QUOTE] + [COLON]) + Canonical(m.val)
  {
    hide EscapedAll, Tip.PlainText, Print;
    Tip.PlainQuoted(m.key);
  }

  /** The text of an object of four members. */
  lemma FourMembers(a: Member, b: Member, c: Member, d: Member)
    requires Profile(Object([a, b, c, d]))
    ensures Tip.MemberOk(a) && Tip.MemberOk(b) && Tip.MemberOk(c) && Tip.MemberOk(d)
    ensures Canonical(Object([a, b, c, d])) ==
      [LBRACE]
        + (PrintMember(a, Compact, 0) + ([COMMA] + (PrintMember(b, Compact, 0) + ([COMMA] + (PrintMember(c, Compact, 0)
      + ([COMMA] + PrintMember(d, Compact, 0))))))) + [RBRACE]
  {
    hide PrintMember, Print, Sorted, Scalars;
    var ms := [a, b, c, d];
    assert ms[0] == a && ms[1] == b && ms[2] == c && ms[3] == d;
    ObjectText(ms);
    LastOfFour(ms);
    Tip.FromStep(ms, 2);
    Tip.FromStep(ms, 1);
    Tip.FirstFrom(ms);
  }

  lemma LastOfFour(ms: seq<Member>)
    requires |ms| == 4 && forall i :: 0 <= i < |ms| ==> Scalars(ms[i].key) && Profile(ms[i].val)
    ensures MembersFrom(ms, 3) == [COMMA] + PrintMember(ms[3], Compact, 0)
  {
    hide PrintMember, Scalars, Profile;
    assert MembersFrom(ms, 4) == [];
    assert PrintMember(ms[3], Compact, 0) + [] == PrintMember(ms[3], Compact, 0);
  }

  lemma Values(t: Tail, data: Json, ts: Text, own: Text)
    requires GoodParts(t, data, ts) && Scalars(own)
    ensures Canonical(Int(t.n)) == IntText(t.n) && Canonical(Str(t.last)) == Quoted(t.last)
      && Canonical(Str(ts)) == Quoted(ts) && Canonical(Str(own)) == Quoted(own)
  {}

  lemma GroupFour(o: Text, co: Text, z: Text, ka: Text, a: Text, kb: Text, b: Text, kc: Text, c: Text, kd: Text,
                  d: Text)
    ensures o + ((ka + a) + (co + ((kb + b) + (co + ((kc + c) + (co + (kd + d))))))) + z ==
      (o + ka) + a + (co + kb) + b + (co + kc) + c + (co + kd) + d + z
  {}

  lemma GroupFive(o: Text, co: Text, z: Text, ka: Text, a: Text, kb: Text, b: Text, kc: Text, c: Text, kd: Text,
                  d: Text, ke: Text, e: Text)
    ensures o + ((ka + a) + (co + ((kb + b) + (co + ((kc + c) + (co + ((kd + d) + (co + (ke + e))))))))) + z ==
      (o + ka) + a + (co + kb) + b + (co + kc) + c + (co + kd) + d + (co + ke) + e + z
  {}

  /** A key as the printer writes it, with its colon. */
  function Key(k: Text): (r: Text) { [QUOTE] + k + [QUOTE] + [COLON] }

  lemma DraftText(t: Tail, data: Json, ts: Text)
    requires GoodParts(t, data, ts)
    ensures Profile(Draft(t, data, ts)) && Canonical(Draft(t, data, ts)) == UnsignedText(t.n, t.last, data, ts)
  {
    hide DATA, IDX, PREV, SELF, TS, Print, PrintMember, Lit, IntText, Quoted, Tip.PlainText, Scalars, Sorted;
    DraftProfile(t, data, ts);
    PlainKeys();
    Pieces();
    var ms := Draft(t, data, ts).members;
    FourMembers(ms[0], ms[1], ms[2], ms[3]);
    KeyText(ms[0]);
    KeyText(ms[1]);
    KeyText(ms[2]);
    KeyText(ms[3]);
    Values(t, data, ts, []);
    GroupFour([LBRACE], [COMMA], [RBRACE], Key(DATA()), Canonical(data), Key(IDX()), IntText(t.n), Key(PREV()),
              Quoted(t.last), Key(TS()), Quoted(ts));
  }

  lemma SignedText(t: Tail, data: Json, ts: Text, own: Text)
    requires GoodParts(t, data, ts) && IsHexN(own, 64)
    ensures Profile(Signed(t, data, ts, own))
    ensures Canonical(Signed(t, data, ts, own)) == RecordText(t.n, t.last, data, ts, own)
  {
    hide DATA, IDX, PREV, SELF, TS, Print, PrintMember, Lit, IntText, Quoted, Tip.PlainText, Scalars, Sorted;
    HexIsScalar(own, 64);
    SignedProfile(t, data, ts, own);
    PlainKeys();
    Pieces();
    ClosingPiece();
    var ms := Signed(t, data, ts, own).members;
    Tip.FiveMembers(ms[0], ms[1], ms[2], ms[3], ms[4]);
    KeyText(ms[0]);
    KeyText(ms[1]);
    KeyText(ms[2]);
    KeyText(ms[3]);
    KeyText(ms[4]);
    Values(t, data, ts, own);
    HexQuoted(own);
    GroupFive([LBRACE], [COMMA], [RBRACE], Key(DATA()), Canonical(data), Key(IDX()), IntText(t.n), Key(PREV()),
              Quoted(t.last), Key(SELF()), Quoted(own), Key(TS()), Quoted(ts));
    MoveQuotes(Lit("{\"data\":") + Canonical(data) + Lit(",\"idx\":") + IntText(t.n) + Lit(",\"prev_hash\":")
               + Quoted(t.last), [COMMA] + Key(SELF()), [QUOTE], own, Lit(",\"ts\":"), Quoted(ts), Lit("}"));
  }

  lemma MoveQuotes(front: Text, k: Text, q: Text, own: Text, t: Text, ts: Text, z: Text)
    ensures front + k + (q + own + q) + t + ts + z == front + (k + q) + own + (q + t) + ts + z
  {}

  lemma HexQuoted(own: Text)
    requires IsHexN(own, 64)
    ensures Scalars(own) && Quoted(own) == [QUOTE] + own + [QUOTE]
  {
    hide EscapedAll;
    Tip.PlainQuoted(own);
  }

  // ---- what an append stores -----------------------------------------------------------------------

  lemma PartsOf(h: Hash, b: Text, data: Json, ts: Text)
    requires Appendable(h, b, data, ts)
    ensures ReadEntries(b).Some? && TailOf(b).Some? && GoodParts(TailOf(b).value, data, ts)
    ensures var es, t := ReadEntries(b).value, TailOf(b).value;
      t.n == |es| && t.last == PrevHash(es, |es|) && Record(h, b, data, ts) == Some(NewEntry(h, t, data, ts))
  {
    hide ReadEntries, Profile, Storable;
  }

  /** The record says the data and the time it was given, its place, the self_hash before it and the digest of the
      text of the four other fields; the line is exactly these, in this order, without white space. */
  lemma RecordSays(h: Hash, b: Text, data: Json, ts: Text)
    requires Appendable(h, b, data, ts)
    ensures ReadEntries(b).Some? && Record(h, b, data, ts).Some? && Profile(Record(h, b, data, ts).value)
    ensures Profile(data) && Scalars(Previous(ReadEntries(b).value)) && Scalars(ts)
    ensures var es, e := ReadEntries(b).value, Record(h, b, data, ts).value;
      var own := Digest(h, UnsignedText(|es|, Previous(es), data, ts));
      && Says(e, "data", data) && Says(e, "idx", Int(|es|)) && Says(e, "prev_hash", Str(Previous(es)))
      && Says(e, "self_hash", Str(own)) && Says(e, "ts", Str(ts)) && |e.members| == 5
      && Canonical(e) == RecordText(|es|, Previous(es), data, ts, own)
  {
    hide ReadEntries, Profile, Record, Appendable, Draft, Signed, UnsignedText, RecordText, Previous, Says, Print,
      Scalars, TailOf;
    PartsOf(h, b, data, ts);
    var es, t := ReadEntries(b).value, TailOf(b).value;
    PreviousIs(es);
    DraftText(t, data, ts);
    var own := Digest(h, UnsignedText(|es|, Previous(es), data, ts));
    SignedText(t, data, ts, own);
    SignedSays(t, data, ts, own);
  }

  /** After an append that succeeded the file is the bytes it held, a newline if they did not end in one, and the line
      of a record of the caller's data, dated by the caller or, where he gives no time, by the clock. */
  lemma AppendedBytes(h: Hash, b: Text, after: Text, data: Json, ts: Option<Text>, now: Text, mayWrite: bool, e: Json)
    requires Settled(h, b, after, data, Stamp(ts, now), mayWrite, Appended(e))
    ensures Profile(e) && Says(e, "data", data)
    ensures Says(e, "ts", Str(if ts.None? || ts.value == [] then now else ts.value))
    ensures after == b + (if b != [] && b[|b| - 1] != '\n' as int then ['\n' as int] else [])
      + Canonical(e) + ['\n' as int]
  {
    hide Profile, Record, Appendable, Says, Print, Settled, Terminated, Lit, Previous, RecordText, UnsignedText;
    var stamp := Stamp(ts, now);
    BytesAfter(h, b, after, data, stamp, mayWrite, e);
    RecordSays(h, b, data, stamp);
    EndsInNewline(b);
  }

  lemma EndsInNewline(b: Text)
    ensures Terminated(b) <==> b == [] || b[|b| - 1] == '\n' as int
  {}

  lemma BytesAfter(h: Hash, b: Text, after: Text, data: Json, ts: Text, mayWrite: bool, e: Json)
    requires Settled(h, b, after, data, ts, mayWrite, Appended(e))
    ensures Appendable(h, b, data, ts) && Record(h, b, data, ts) == Some(e) && Profile(e)
    ensures after == b + (if Terminated(b) then [] else ['\n' as int]) + Canonical(e) + ['\n' as int]
  {
    hide Profile, Record, Print, Terminated, Appendable;
    AppendableProfile(h, b, data, ts);
    assert NEWLINE == '\n' as int;
    var lead: Text := if Terminated(b) then [] else [NEWLINE];
    assert b + (lead + (Canonical(e) + [NEWLINE])) == b + lead + Canonical(e) + [NEWLINE];
  }

  // ---- what an append takes ------------------------------------------------------------------------

  /** A record the chain can be continued from: its self_hash is a text of 64 characters. */
  predicate HasOwnHash(e: Json)
  {
    e.Object? && match Get(e.members, Lit("self_hash")) case Some(Str(s)) => |s| == 64 case _ => false
  }

  lemma ChainedMeans(e: Json)
    ensures Chained(e) <==> HasOwnHash(e)
    ensures HasOwnHash(e) ==> OwnHash(e) == SelfHash(e)
  {
    hide Lit;
    FieldNames();
  }

  lemma TailMeans(b: Text)
    ensures TailOf(b).Some? <==> ReadEntries(b).Some? && forall e :: e in ReadEntries(b).value ==> HasOwnHash(e)
  {
    hide ReadEntries, HasOwnHash, Chained;
    if ReadEntries(b).Some? {
      var es := ReadEntries(b).value;
      forall e ensures Chained(e) <==> HasOwnHash(e) { ChainedMeans(e); }
      if AllChained(es) {
        forall e | e in es ensures HasOwnHash(e) { var k :| 0 <= k < |es| && es[k] == e; }
      }
    }
  }

  /** What an append that may write takes: data of the profile and of at most 511 levels, a time that is text, on top of
      lines that can all be read and continued and are fewer than 2^53, in a line of at most 64 MiB. */
  lemma AppendableMeans(h: Hash, b: Text, data: Json, ts: Text)
    ensures Appendable(h, b, data, ts) <==>
      && ReadEntries(b).Some? && (forall e :: e in ReadEntries(b).value ==> HasOwnHash(e))
      && |ReadEntries(b).value| <= 0x1f_ffff_ffff_ffff
      && Profile(data) && Depth(data) <= 511 && Scalars(ts)
      && Scalars(Previous(ReadEntries(b).value))
      && LineFits(h, |ReadEntries(b).value|, Previous(ReadEntries(b).value), data, ts)
  {
    hide ReadEntries, Profile, Draft, Signed, UnsignedText, RecordText, Previous, Says, Print, Scalars, TailOf,
      HasOwnHash, Depth, LineFits;
    TailMeans(b);
    if TailOf(b).Some? {
      TailLastScalars(b);
      TailParts(b);
      var es, t := ReadEntries(b).value, TailOf(b).value;
      PreviousIs(es);
      DraftProfile(t, data, ts);
      if GoodParts(t, data, ts) {
        var own := Digest(h, Canonical(Draft(t, data, ts)));
        DraftText(t, data, ts);
        SignedText(t, data, ts, own);
        SignedDepth(t, data, ts, own);
        SignedIsObject(t, data, ts, own);
        FitsIs(h, t, data, ts, Signed(t, data, ts, own));
      }
    }
  }

  lemma TailParts(b: Text)
    requires TailOf(b).Some?
    ensures ReadEntries(b).Some?
    ensures var es, t := ReadEntries(b).value, TailOf(b).value; t.n == |es| && t.last == PrevHash(es, |es|)
  {
    hide ReadEntries;
  }

  /** The line is at most 64 MiB without its newline. */
  ghost predicate LineFits(h: Hash, n: nat, previous: Text, data: Json, ts: Text)
    requires Profile(data) && Scalars(previous) && Scalars(ts)
  {
    |RecordText(n, previous, data, ts, Digest(h, UnsignedText(n, previous, data, ts)))| <= 64 * 1024 * 1024
  }

  lemma FitsIs(h: Hash, t: Tail, data: Json, ts: Text, e: Json)
    requires GoodParts(t, data, ts) && Profile(e)
    requires Canonical(e) == RecordText(t.n, t.last, data, ts, Digest(h, UnsignedText(t.n, t.last, data, ts)))
    ensures LineFits(h, t.n, t.last, data, ts) <==> |Canonical(e)| <= MAX_LINE_BYTES
  {
    hide RecordText, UnsignedText, Print, Profile, Scalars;
  }
}
