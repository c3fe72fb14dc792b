/** The pack a locker writes is one the verifier takes: form, digest, and the bytes of the file. */
module ProducerPack {
  import opened Texts
  import opened JsonValues
  import opened JsonGrammar
  import opened JsonPrinter
  import opened JsonRoundTrip
  import opened GoCanonical
  import opened Chain
  import opened History
  import opened LedgerEntries
  import opened Tip
  import opened PackHost
  import opened PackSpec
  import opened PackMeaning
  import opened Producer
  import Utf8

  lemma {:induction false} WithoutJoin(a: seq<Member>, b: seq<Member>, k: Text)
    ensures Without(a + b, k) == Without(a, k) + Without(b, k)
  {
    hide Without;
    if a == [] {
      assert a + b == b;
      LedgerEntries.WithoutNone(a, k);
    } else {
      assert a + b == [a[0]] + (a[1..] + b) && a == [a[0]] + a[1..];
      WithoutJoin(a[1..], b, k);
      LedgerEntries.HeadFirst(a[0], a[1..] + b, k);
      LedgerEntries.HeadFirst(a[0], a[1..], k);
      Assoc([a[0]], Without(a[1..], k), Without(b, k));
    }
  }

  lemma Assoc(x: seq<Member>, y: seq<Member>, z: seq<Member>)
    ensures x + (y + z) == (x + y) + z
  {}

  lemma WithoutMiddle(a: seq<Member>, m: Member, b: seq<Member>)
    requires forall i :: 0 <= i < |a| ==> a[i].key != m.key
    requires forall i :: 0 <= i < |b| ==> b[i].key != m.key
    ensures Without(a + [m] + b, m.key) == a + b
  {
    hide Without;
    WithoutJoin(a + [m], b, m.key);
    WithoutJoin(a, [m], m.key);
    WithoutNone(a, m.key);
    WithoutNone(b, m.key);
    WithoutOne(m);
    assert a + [] == a;
  }

  lemma WithoutOne(m: Member)
    ensures Without([m], m.key) == []
  {}

  lemma SortedDistinct(ms: seq<Member>, i: nat, j: nat)
    requires Sorted(ms) && i < j < |ms|
    ensures ms[i].key != ms[j].key
  {
    LessIrreflexive(ms[i].key);
  }

  lemma SortedJoin(a: seq<Member>, m: Member, b: seq<Member>)
    requires Sorted(a + [m] + b)
    ensures forall i :: 0 <= i < |a| ==> a[i].key != m.key
    ensures forall i :: 0 <= i < |b| ==> b[i].key != m.key
  {
    var ms := a + [m] + b;
    forall i | 0 <= i < |a| ensures a[i].key != m.key { SortedDistinct(ms, i, |a|); }
    forall i | 0 <= i < |b| ensures b[i].key != m.key {
      SortedDistinct(ms, |a|, |a| + 1 + i);
      assert ms[|a| + 1 + i] == b[i];
    }
  }

  /** The pack is a value of the profile, and without its digest it is the body that was digested. */
  lemma PackProfile(h3: Hash, p: Product, s: Snapshot, utc: Text)
    requires Profile(Object(PackBody(p, s, utc)))
    ensures Profile(Object(PackOf(h3, p, s, utc))) && Without(PackOf(h3, p, s, utc), PACK_SHA3()) == PackBody(p, s, utc)
    ensures SchemaOk(PackOf(h3, p, s, utc))
  {
    hide PACK_SHA3, PackFront, PackBack, Canonical, Less, Scalars, SchemaOk, Sorted, Without, Profile;
    var a, b, m := PackFront(p, s, utc), PackBack(p, s), Member(PACK_SHA3(), Str(PackDigest(h3, p, s, utc)));
    var ms := a + [m] + b;
    PackOrder(a, m, b, p, s, utc);
    PackKeysKnown(a, m, b, p, s, utc);
    Tip.InOrder(ms);
    SortedJoin(a, m, b);
    WithoutMiddle(a, m, b);
    HexIsScalar(m.val.s, 64);
    StrProfile(m.val.s);
    assert Scalars(PACK_SHA3()) by { ShaKeyScalars(); }
    ProfileInsert(a, m, b);
  }

  lemma ProfileInsert(a: seq<Member>, m: Member, b: seq<Member>)
    requires Profile(Object(a + b)) && Sorted(a + [m] + b) && Scalars(m.key) && Profile(m.val)
    ensures Profile(Object(a + [m] + b))
  {
    hide Sorted, Scalars;
    var ms, body := a + [m] + b, a + b;
    forall k | 0 <= k < |ms| ensures Scalars(ms[k].key) && Profile(ms[k].val) {
      assert k < |a| ==> ms[k] == body[k];
      assert k == |a| ==> ms[k] == m;
      assert k > |a| ==> ms[k] == body[k - 1];
    }
  }

  lemma StrProfile(t: Text)
    ensures Profile(Str(t)) <==> Scalars(t)
  {}

  lemma ShaKeyScalars()
    ensures Scalars(PACK_SHA3())
  {}

  /** What the verifier reads in the pack. */
  lemma PackFields(h3: Hash, p: Product, s: Snapshot, utc: Text)
    requires Profile(Object(PackBody(p, s, utc)))
    ensures var pack := PackOf(h3, p, s, utc);
      && Get(pack, KIND()) == Some(Str(PACK_KIND()))
      && Get(pack, SCOPE()) == Some(Str(p.scopeBefore + SCOPE_MARK() + p.scopeAfter))
      && Get(pack, LEDGER_FILE()) == Some(Str(s.ledgerFile)) && Get(pack, LEDGER_ENTRIES()) == Some(Int(s.entries))
      && Get(pack, LAST_SELF()) == Some(Str(s.last)) && Get(pack, VERIFICATION()) == Some(SnapshotVerification(s))
      && Get(pack, PACK_SHA3()) == Some(Str(PackDigest(h3, p, s, utc)))
  {
    hide PACK_SHA3, Lit, SCOPE, KIND, LEDGER_ENTRIES, LEDGER_FILE, LAST_SELF, VERIFICATION, SCOPE_MARK, PACK_KIND,
      Retention, SnapshotVerification, Profile, Less, Get;
    PackProfile(h3, p, s, utc);
    var a, b := PackFront(p, s, utc), PackBack(p, s);
    var pack := PackOf(h3, p, s, utc);
    SortedOf(pack);
    At5(pack, a, b, Member(PACK_SHA3(), Str(PackDigest(h3, p, s, utc))));
    GetIn(pack, KIND());
    GetIn(pack, SCOPE());
    GetIn(pack, LEDGER_FILE());
    GetIn(pack, LEDGER_ENTRIES());
    GetIn(pack, LAST_SELF());
    GetIn(pack, VERIFICATION());
    GetIn(pack, PACK_SHA3());
  }

  lemma At5(pack: seq<Member>, a: seq<Member>, b: seq<Member>, m: Member)
    requires pack == a + [m] + b && |a| == 7 && |b| == 6
    ensures a[1] in pack && a[2] in pack && a[3] in pack && a[4] in pack && a[5] in pack && m in pack && b[5] in pack
  {
    assert pack[1] == a[1] && pack[2] == a[2] && pack[3] == a[3] && pack[4] == a[4] && pack[5] == a[5] && pack[7] == m
      && pack[13] == b[5];
  }

  lemma SortedOf(ms: seq<Member>)
    requires Profile(Object(ms))
    ensures Sorted(ms)
  {}

  lemma SnapshotShows(s: Snapshot)
    ensures Get(SnapshotVerification(s).members, CHAIN_OK()) == Some(Bool(true))
    ensures Get(SnapshotVerification(s).members, DIGESTS_BOUND()) == Some(Bool(true))
  {
    var ms := SnapshotVerification(s).members;
    assert |CHAIN_OK()| == 8 && |Lit("entries")| == 7 && |DIGESTS_BOUND()| == 20;
    var k := DIGESTS_BOUND();
    assert ms[1..][0] == ms[1] && ms[1..][1..][0] == ms[2];
    assert Get(ms[1..][1..], k) == Some(Bool(true));
    assert Get(ms[1..], k) == Get(ms[1..][1..], k);
  }

  /** The pack a locker writes is well formed for the verifier, whatever it says of its product. */
  lemma PackIsWellFormed(host: Host, p: Product, s: Snapshot, utc: Text)
    requires Profile(Object(PackBody(p, s, utc)))
    ensures Profile(Object(PackOf(host.sha3, p, s, utc)))
    ensures WellFormedPack(host, PackOf(host.sha3, p, s, utc))
  {
    hide PACK_SHA3, SCOPE, KIND, LEDGER_ENTRIES, LEDGER_FILE, LAST_SELF, VERIFICATION, SCOPE_MARK, PACK_KIND,
      SnapshotVerification, Profile, Less, Get, PackOf, PackBody, CHAIN_OK, DIGESTS_BOUND, Print, PackKey, StandsAt;
    PackProfile(host.sha3, p, s, utc);
    PackFields(host.sha3, p, s, utc);
    SnapshotShows(s);
    MarkInside(p.scopeBefore, SCOPE_MARK(), p.scopeAfter);
    SnapshotIsObject(s);
  }

  lemma SnapshotIsObject(s: Snapshot)
    ensures SnapshotVerification(s).Object?
  {}

  lemma MarkInside(a: Text, mark: Text, b: Text)
    ensures HasMark(a + mark + b, mark)
  {
    assert (a + mark + b)[|a|..|a| + |mark|] == mark;
    assert StandsAt(a + mark + b, |a|, mark);
  }

  // ---- the bytes of the pack file ------------------------------------------------------------------

  predicate Ascii(t: Text) { forall k :: 0 <= k < |t| ==> 0 <= t[k] < 0x80 }

  lemma AsciiJoin(a: Text, b: Text)
    requires Ascii(a) && Ascii(b)
    ensures Ascii(a + b)
  {}

  lemma PrintableIsAscii(t: Text)
    requires Printable(t)
    ensures Ascii(t)
  {}

  lemma {:induction false} SpacesAscii(n: nat)
    ensures Ascii(Spaces(n))
  {
    if n > 0 { SpacesAscii(n - 1); }
  }

  lemma BreakAscii(l: Layout, level: nat)
    ensures Ascii(Break(l, level)) && Ascii(KeyColon(l))
  {
    SpacesAscii(level);
  }

  /** Both layouts print ASCII only, so a pack file is the UTF-8 of its own text. */
  lemma {:induction false} PrintAscii(v: Json, l: Layout, level: nat)
    requires Profile(v)
    ensures Ascii(Print(v, l, level))
    decreases v, 1
  {
    hide IntText, Quoted, Break, Ascii;
    BreakAscii(l, level);
    FixedAscii();
    match v {
      case Int(n) => IntPrintable(n); PrintableIsAscii(IntText(n));
      case Str(s) => QuotedPrintable(s); PrintableIsAscii(Quoted(s));
      case Array(items) =>
        if items != [] {
          ItemsAscii(items, l, level + 1);
          Bracketed([LBRACKET], PrintItems(items, l, level + 1), Break(l, level), [RBRACKET]);
        }
      case Object(ms) =>
        if ms != [] {
          MembersAscii(ms, l, level + 1);
          Bracketed([LBRACE], PrintMembers(ms, l, level + 1), Break(l, level), [RBRACE]);
        }
      case _ =>
    }
  }

  lemma FixedAscii()
    ensures Ascii(NULL_TEXT) && Ascii(TRUE_TEXT) && Ascii(FALSE_TEXT) && Ascii([LBRACKET, RBRACKET])
      && Ascii([LBRACE, RBRACE])
    ensures Ascii([LBRACKET]) && Ascii([RBRACKET]) && Ascii([LBRACE]) && Ascii([RBRACE]) && Ascii([COMMA]) && Ascii([])
  {}

  lemma Bracketed(open: Text, body: Text, brk: Text, close: Text)
    requires Ascii(open) && Ascii(body) && Ascii(brk) && Ascii(close)
    ensures Ascii(open + (body + (brk + close)))
  {
    hide Ascii;
    AsciiJoin(brk, close);
    AsciiJoin(body, brk + close);
    AsciiJoin(open, body + (brk + close));
  }

  lemma {:induction false} ItemsAscii(items: seq<Json>, l: Layout, level: nat)
    requires items != [] && forall k :: 0 <= k < |items| ==> Profile(items[k])
    ensures Ascii(PrintItems(items, l, level))
    decreases items, 0
  {
    hide Print, Break, Ascii;
    PrintAscii(items[0], l, level);
    BreakAscii(l, level);
    FixedAscii();
    if |items| > 1 { ItemsAscii(items[1..], l, level); }
    Listed(Break(l, level), Print(items[0], l, level), if |items| == 1 then [] else PrintItems(items[1..], l, level));
  }

  /** A first element and what follows it. */
  lemma Listed(brk: Text, first: Text, rest: Text)
    requires Ascii(brk) && Ascii(first) && Ascii(rest)
    ensures Ascii(brk + (first + ([COMMA] + rest))) && Ascii(brk + (first + []))
  {
    hide Ascii;
    FixedAscii();
    AsciiJoin([COMMA], rest);
    AsciiJoin(first, [COMMA] + rest);
    AsciiJoin(brk, first + ([COMMA] + rest));
    AsciiJoin(first, []);
    AsciiJoin(brk, first + []);
  }

  lemma {:induction false} MembersAscii(ms: seq<Member>, l: Layout, level: nat)
    requires ms != [] && forall k :: 0 <= k < |ms| ==> Scalars(ms[k].key) && Profile(ms[k].val)
    ensures Ascii(PrintMembers(ms, l, level))
    decreases ms, 0
  {
    hide Print, Break, Ascii, KeyColon, Quoted;
    PrintAscii(ms[0].val, l, level);
    QuotedPrintable(ms[0].key);
    PrintableIsAscii(Quoted(ms[0].key));
    BreakAscii(l, level);
    FixedAscii();
    AsciiJoin(KeyColon(l), Print(ms[0].val, l, level));
    AsciiJoin(Quoted(ms[0].key), KeyColon(l) + Print(ms[0].val, l, level));
    if |ms| > 1 { MembersAscii(ms[1..], l, level); }
    Listed(Break(l, level), PrintMember(ms[0], l, level), if |ms| == 1 then [] else PrintMembers(ms[1..], l, level));
  }

  /** The file: the pack printed with one space per level. */
  function PackText(pack: seq<Member>): (r: Text)
    requires Profile(Object(pack))
  {
    Print(Object(pack), Indented, 0)
  }

  /** A printed value is read back from its bytes. */
  lemma TextReads(v: Json)
    requires Profile(v) && Depth(v) <= MAX_JSON_DEPTH
    ensures EntryOf(Print(v, Indented, 0)) == Some(v)
  {
    hide Print, ParseText, Profile;
    PrintAscii(v, Indented, 0);
    Utf8.AsciiDecodes(Print(v, Indented, 0));
    RoundTrip(v, Indented, RUST_MODE);
  }

  /** Reading the pack file back: within the size bound, exactly the pack. */
  lemma PackFileReads(pack: seq<Member>)
    requires Profile(Object(pack)) && Depth(Object(pack)) <= MAX_JSON_DEPTH
    ensures ReadDoc(Contents(PackText(pack))) == if |PackText(pack)| <= MAX_DOC_BYTES then Doc(Object(pack)) else BadDoc
  {
    hide Print, EntryOf, Profile;
    TextReads(Object(pack));
  }
}
