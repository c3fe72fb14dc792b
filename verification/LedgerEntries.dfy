/** The record the writer builds, and what the bytes of a ledger read as while it is being written. */
module LedgerEntries {
  import opened Texts
  import opened JsonValues
  import opened JsonGrammar
  import opened JsonPrinter
  import opened JsonRoundTrip
  import opened JsonStructure
  import opened ReaderAgreement
  import opened GoCanonical
  import opened Lines
  import opened Chain
  import opened History
  import Utf8

  function DATA(): (r: Text) { Lit("data") }
  function TS(): (r: Text) { Lit("ts") }

  /** What `_tail_state` returns. */
  datatype Tail = Tail(n: nat, last: Text, first: Text, unterminated: bool)

  /** An entry the chain can be continued from. */
  predicate Chained(e: Json)
  {
    e.Object? && var own := Get(e.members, SELF()); own.Some? && own.value.Str? && |own.value.s| == 64
  }

  predicate AllChained(es: seq<Json>) { forall k :: 0 <= k < |es| ==> Chained(es[k]) }

  function TailOfEntries(es: seq<Json>, unterminated: bool): (r: Tail)
  {
    Tail(|es|, PrevHash(es, |es|), if es == [] then ZEROS() else SelfHash(es[0]), unterminated)
  }

  /** The state a writer continues from, or None when it must not continue. */
  function TailOf(b: Text): (r: Option<Tail>)
  {
    match ReadEntries(b)
    case None => None
    case Some(es) => if AllChained(es) then Some(TailOfEntries(es, !Terminated(b))) else None
  }

  // ---- the new record ----------------------------------------------------------------------------

  /** The entry without self_hash, its keys in order. */
  function Draft(t: Tail, data: Json, ts: Text): (r: Json)
  {
    Object([Member(DATA(), data), Member(IDX(), Int(t.n)), Member(PREV(), Str(t.last)), Member(TS(), Str(ts))])
  }

  function Signed(t: Tail, data: Json, ts: Text, own: Text): (r: Json)
  {
    Object([Member(DATA(), data), Member(IDX(), Int(t.n)), Member(PREV(), Str(t.last)), Member(SELF(), Str(own)),
            Member(TS(), Str(ts))])
  }

  function NewEntry(h: Hash, t: Tail, data: Json, ts: Text): (r: Json)
    requires Profile(Draft(t, data, ts))
  {
    Signed(t, data, ts, Digest(h, Canonical(Draft(t, data, ts))))
  }

  lemma KeysOrdered()
    ensures Less(DATA(), IDX()) && Less(IDX(), PREV()) && Less(PREV(), SELF()) && Less(SELF(), TS())
    ensures Scalars(DATA()) && Scalars(IDX()) && Scalars(PREV()) && Scalars(SELF()) && Scalars(TS())
  {
    assert DATA()[0] == 'd' as int && IDX()[0] == 'i' as int && PREV()[0] == 'p' as int;
    assert SELF()[0] == 's' as int && TS()[0] == 't' as int;
  }

  lemma AllOrdered()
    ensures Less(DATA(), PREV()) && Less(DATA(), SELF()) && Less(DATA(), TS())
    ensures Less(IDX(), SELF()) && Less(IDX(), TS()) && Less(PREV(), TS())
  {
    hide Less;
    KeysOrdered();
    LessTransitive(DATA(), IDX(), PREV());
    LessTransitive(IDX(), PREV(), SELF());
    LessTransitive(PREV(), SELF(), TS());
    LessTransitive(DATA(), PREV(), SELF());
    LessTransitive(DATA(), SELF(), TS());
    LessTransitive(IDX(), SELF(), TS());
  }

  /** The parts a writer can be given that the profile admits. */
  ghost predicate GoodParts(t: Tail, data: Json, ts: Text)
  {
    Profile(data) && t.n <= MAX_SAFE_INT && Scalars(t.last) && Scalars(ts)
  }

  lemma DraftProfile(t: Tail, data: Json, ts: Text)
    ensures Profile(Draft(t, data, ts)) <==> GoodParts(t, data, ts)
  {
    hide Less, DATA, IDX, PREV, SELF, TS, Scalars;
    KeysOrdered();
    AllOrdered();
    var ms := Draft(t, data, ts).members;
    if Profile(Draft(t, data, ts)) {
      assert Profile(ms[0].val) && Profile(ms[1].val) && Profile(ms[2].val) && Profile(ms[3].val);
    }
  }

  lemma SignedProfile(t: Tail, data: Json, ts: Text, own: Text)
    requires GoodParts(t, data, ts) && Scalars(own)
    ensures Profile(Signed(t, data, ts, own))
  {
    hide Less, DATA, IDX, PREV, SELF, TS, Scalars;
    KeysOrdered();
    AllOrdered();
  }

  lemma KeysDistinct()
    ensures DATA() != SELF() && IDX() != SELF() && PREV() != SELF() && TS() != SELF()
    ensures DATA() != IDX() && DATA() != PREV() && IDX() != PREV()
  {
    hide Less;
    KeysOrdered();
    AllOrdered();
    LessIrreflexive(DATA());
    LessIrreflexive(IDX());
    LessIrreflexive(PREV());
    LessIrreflexive(SELF());
  }

  lemma HeadFirst(m: Member, rest: seq<Member>, k: Text)
    ensures Get([m] + rest, k) == if m.key == k then Some(m.val) else Get(rest, k)
    ensures Without([m] + rest, k) == if m.key == k then Without(rest, k) else [m] + Without(rest, k)
  {
    assert ([m] + rest)[1..] == rest;
  }

  lemma WithoutSelf(a: Member, b: Member, c: Member, d: Member, e: Member, k: Text)
    requires a.key != k && b.key != k && c.key != k && d.key == k && e.key != k
    ensures Without([a, b, c, d, e], k) == [a, b, c, e]
    ensures Get([a, b, c, d, e], k) == Some(d.val)
  {
    hide Without, Get;
    WithoutNone([e], k);
    HeadFirst(d, [e], k);
    HeadFirst(c, [d] + [e], k);
    HeadFirst(b, [c] + ([d] + [e]), k);
    HeadFirst(a, [b] + ([c] + ([d] + [e])), k);
    Grouped(a, b, c, d, e);
  }

  lemma Grouped<T>(a: T, b: T, c: T, d: T, e: T)
    ensures [a, b, c, d, e] == [a] + ([b] + ([c] + ([d] + [e])))
    ensures [a, b, c, e] == [a] + ([b] + ([c] + [e]))
  {}

  lemma {:induction false} WithoutNone(ms: seq<Member>, k: Text)
    requires forall i :: 0 <= i < |ms| ==> ms[i].key != k
    ensures Without(ms, k) == ms
  {
    if ms != [] { WithoutNone(ms[1..], k); }
  }

  lemma FiveLookups(a: Member, b: Member, c: Member, d: Member, e: Member)
    requires a.key != b.key && a.key != c.key && b.key != c.key
    ensures Get([a, b, c, d, e], b.key) == Some(b.val) && Get([a, b, c, d, e], c.key) == Some(c.val)
  {
    hide Get;
    var rest := [d] + [e];
    Grouped(a, b, c, d, e);
    HeadFirst(a, [b] + ([c] + rest), b.key);
    HeadFirst(b, [c] + rest, b.key);
    HeadFirst(a, [b] + ([c] + rest), c.key);
    HeadFirst(b, [c] + rest, c.key);
    HeadFirst(c, rest, c.key);
  }

  lemma Lookups(t: Tail, data: Json, ts: Text, own: Text)
    ensures var ms := Signed(t, data, ts, own).members;
      && Get(ms, IDX()) == Some(Int(t.n)) && Get(ms, PREV()) == Some(Str(t.last)) && Get(ms, SELF()) == Some(Str(own))
      && Without(ms, SELF()) == Draft(t, data, ts).members
  {
    hide DATA, IDX, PREV, SELF, TS, Get, Without;
    KeysDistinct();
    var ms := Signed(t, data, ts, own).members;
    WithoutSelf(ms[0], ms[1], ms[2], ms[3], ms[4], SELF());
    FiveLookups(ms[0], ms[1], ms[2], ms[3], ms[4]);
  }

  /** The record carries the digest of itself and stands after the tail it was built from. */
  lemma NewEntryLinks(h: Hash, t: Tail, data: Json, ts: Text)
    requires GoodParts(t, data, ts)
    ensures Profile(Draft(t, data, ts)) && Profile(NewEntry(h, t, data, ts))
    ensures Links(h, NewEntry(h, t, data, ts), t.n, t.last) && Chained(NewEntry(h, t, data, ts))
    ensures SelfHash(NewEntry(h, t, data, ts)) == Digest(h, Canonical(Draft(t, data, ts)))
  {
    hide DATA, IDX, PREV, SELF, TS, Draft, Signed, Print;
    DraftProfile(t, data, ts);
    var own := Digest(h, Canonical(Draft(t, data, ts)));
    assert Scalars(own) by { HexIsScalar(own, 64); }
    SignedProfile(t, data, ts, own);
    Lookups(t, data, ts, own);
    SignedIsObject(t, data, ts, own);
    assert Payload(NewEntry(h, t, data, ts)) == Canonical(Draft(t, data, ts));
  }

  lemma SignedIsObject(t: Tail, data: Json, ts: Text, own: Text)
    ensures Signed(t, data, ts, own).Object? && Draft(t, data, ts).Object?
  {}

  lemma HexIsScalar(t: Text, n: nat)
    requires IsHexN(t, n)
    ensures Scalars(t)
  {}

  lemma DepthOfFive(a: Member, b: Member, c: Member, d: Member, e: Member)
    requires Depth(b.val) == 0 && Depth(c.val) == 0 && Depth(d.val) == 0 && Depth(e.val) == 0
    ensures Depth(Object([a, b, c, d, e])) == 1 + Depth(a.val)
  {
    var ms := [a, b, c, d, e];
    assert ms[1..] == [b, c, d, e] && [b, c, d, e][1..] == [c, d, e] && [c, d, e][1..] == [d, e] && [d, e][1..] == [e]
      && [e][1..] == [];
    assert MembersDepth([e]) == 0;
    assert MembersDepth([d, e]) == 0;
    assert MembersDepth([c, d, e]) == 0;
    assert MembersDepth([b, c, d, e]) == 0;
  }

  lemma SignedDepth(t: Tail, data: Json, ts: Text, own: Text)
    ensures Depth(Signed(t, data, ts, own)) == 1 + Depth(data)
  {
    hide DATA, IDX, PREV, SELF, TS;
    var ms := Signed(t, data, ts, own).members;
    DepthOfFive(ms[0], ms[1], ms[2], ms[3], ms[4]);
  }

  // ---- the bytes of a record ---------------------------------------------------------------------

  /** A record every reader takes: an object of the profile, within the depth and the length of a line. */
  ghost predicate Storable(e: Json)
  {
    e.Object? && Profile(e) && Depth(e) <= MAX_JSON_DEPTH && |Canonical(e)| <= MAX_LINE_BYTES
  }

  lemma PrintableDecodes(p: Text)
    requires Printable(p)
    ensures EntryOf(p) == Accepted(p)
  {
    Utf8.AsciiDecodes(p);
  }

  lemma ObjectStarts(e: Json)
    requires e.Object? && Profile(e)
    ensures Canonical(e) != [] && Canonical(e)[0] == LBRACE && Printable(Canonical(e))
  {
    CanonicalPrintable(e, 0);
    FirstChar(e, Compact, 0);
  }

  lemma RecordReads(e: Json)
    requires Storable(e)
    ensures EntryOf(Canonical(e)) == Some(e)
  {
    hide Print, ParseText, Profile;
    ObjectStarts(e);
    PrintableDecodes(Canonical(e));
    RoundTrip(e, Compact, RUST_MODE);
  }

  /** A record cut short is not a record. */
  lemma TornRecord(e: Json, j: nat)
    requires Storable(e) && 0 < j < |Canonical(e)|
    ensures EntryOf(Canonical(e)[..j]) == None
  {
    hide Print, ParseText, Profile;
    ObjectStarts(e);
    PrintableDecodes(Canonical(e)[..j]);
    NoPrefixParses(e.members, Compact, j, RUST_MODE);
  }

  /** What the line of a record reads as when only its first j bytes are there. */
  lemma RecordLine(e: Json, j: nat)
    requires Storable(e) && 0 < j <= |Canonical(e)| + 1
    ensures ReadEntries((Canonical(e) + [NEWLINE])[..j]) == if j < |Canonical(e)| then None else Some([e])
  {
    hide EntryOf, ReadEntries, Profile, Depth, Print;
    var c := Canonical(e);
    ObjectStarts(e);
    RecordReads(e);
    if j <= |c| {
      assert (c + [NEWLINE])[..j] == c[..j];
      if j < |c| { TornRecord(e, j); } else { assert c[..j] == c; }
      assert c[..j][0] != 0x20;
      OneLine(c[..j], false);
    } else {
      assert (c + [NEWLINE])[..j] == c + [NEWLINE];
      OneLine(c, true);
    }
  }

  // ---- the bytes of a write ----------------------------------------------------------------------

  /** The bytes one append delivers: the newline a last line lost, the record, its newline. */
  function Pending(unterminated: bool, e: Json): (r: Text)
    requires Profile(e)
  {
    (if unterminated then [NEWLINE] else []) + (Canonical(e) + [NEWLINE])
  }

  /** How many bytes come before the record. */
  function Lead(unterminated: bool): (r: nat) { if unterminated then 1 else 0 }

  lemma ClosedReads(b: Text)
    ensures Terminated(if Terminated(b) then b else b + [NEWLINE])
    ensures ReadEntries(if Terminated(b) then b else b + [NEWLINE]) == ReadEntries(b)
  {
    if !Terminated(b) { CloseLastLine(b); }
  }

  lemma PendingPrefix(b: Text, u: bool, c: Text, k: nat)
    requires Lead(u) < k <= Lead(u) + |c|
    ensures b + ((if u then [NEWLINE] else []) + c)[..k] == (if u then b + [NEWLINE] else b) + c[..k - Lead(u)]
  {
    if u {
      assert ([NEWLINE] + c)[..k] == [NEWLINE] + c[..k - 1];
    } else {
      assert [] + c == c;
    }
  }

  lemma PendingStart(b: Text, u: bool, c: Text, k: nat)
    requires k <= Lead(u)
    ensures b + ((if u then [NEWLINE] else []) + c)[..k] == if k == 1 then b + [NEWLINE] else b
  {}

  /** The whole of crash safety on the level of bytes: after any prefix of the write, the file reads as
      it did, or as it did with the new record, or as nothing at all. */
  lemma TornReads(b: Text, e: Json, k: nat)
    requires Storable(e) && ReadEntries(b).Some?
    requires k <= |Pending(!Terminated(b), e)|
    ensures var es := ReadEntries(b).value; var u := Lead(!Terminated(b));
      ReadEntries(b + Pending(!Terminated(b), e)[..k]) ==
        if k <= u then Some(es) else if k < u + |Canonical(e)| then None else Some(es + [e])
  {
    hide ReadEntries, Profile, Depth, Print;
    var es, u := ReadEntries(b).value, Lead(!Terminated(b));
    var c := Canonical(e) + [NEWLINE];
    ClosedReads(b);
    if k <= u {
      PendingStart(b, !Terminated(b), c, k);
    } else {
      var closed := if Terminated(b) then b else b + [NEWLINE];
      PendingPrefix(b, !Terminated(b), c, k);
      RecordLine(e, k - u);
      ReadJoin(closed, c[..k - u]);
    }
  }
}
