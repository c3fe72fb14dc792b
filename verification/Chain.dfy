/** The hash chain of a ledger and the ways it is checked: the list of entries a byte stream holds, what
    it means for them to be a chain, and the three loops of the repository that decide it. */
module Chain {
  import opened Texts
  import opened JsonValues
  import opened JsonGrammar
  import opened JsonPrinter
  import opened JsonStructure
  import opened ReaderAgreement
  import opened Lines
  import Utf8

  /** A digest function of bytes. */
  type Hash = Text -> Text

  /** The digest as text. Nothing is assumed of the function but the form of its answers: one that is not 64
      lower-case hexadecimal characters is no digest and stands for a fixed one. */
  function Digest(h: Hash, t: Text): (r: Text)
    ensures IsHexN(r, 64)
  {
    if IsHexN(h(t), 64) then h(t) else ZEROS()
  }

  /** Genesis: the prev_hash of the first entry. */
  function ZEROS(): (t: Text)
    ensures IsHexN(t, 64)
  {
    Repeat(48, DIGEST_LENGTH())
  }

  function DIGEST_LENGTH(): (r: nat) { 64 }

  // ---- entries of a byte stream ----------------------------------------------------------------

  /** One line's value: UTF-8, then the strict JSON of the profile. */
  function EntryOf(content: Text): (r: Option<Json>)
  {
    match Utf8.Decode(content)
    case None => None
    case Some(t) => Accepted(t)
  }

  /** The values of the non-blank lines, or None as soon as one line cannot be taken. */
  function ReadEntries(b: Text): (r: Option<seq<Json>>)
    decreases |b|
  {
    match FirstLine(b)
    case End => Some([])
    case TooLong => None
    case Line(c, n) =>
      if IsBlank(c) then ReadEntries(b[n..])
      else
        match EntryOf(c)
        case None => None
        case Some(e) => match ReadEntries(b[n..]) case None => None case Some(es) => Some([e] + es)
  }

  lemma EntryIsProfile(c: Text)
    ensures EntryOf(c).Some? ==> Profile(EntryOf(c).value) && Depth(EntryOf(c).value) <= MAX_JSON_DEPTH
  {
    if Utf8.Decode(c).Some? {
      Utf8.DecodeEncode(c);
      var t := Utf8.Decode(c).value;
      if Accepted(t).Some? { AcceptedIsProfile(t, RUST_MODE); }
    }
  }

  ghost predicate Profiles(es: seq<Json>)
  {
    forall k :: 0 <= k < |es| ==> Profile(es[k]) && Depth(es[k]) <= MAX_JSON_DEPTH
  }

  lemma {:induction false} ReadProfiles(b: Text)
    ensures ReadEntries(b).Some? ==> Profiles(ReadEntries(b).value)
    decreases |b|
  {
    hide EntryOf, FirstLine, IsBlank;
    match FirstLine(b) {
      case Line(c, n) => EntryIsProfile(c); ReadProfiles(b[n..]);
      case _ =>
    }
  }

  // ---- the chain -----------------------------------------------------------------------------

  function IDX(): (r: Text) { Lit("idx") }
  function PREV(): (r: Text) { Lit("prev_hash") }
  function SELF(): (r: Text) { Lit("self_hash") }

  function Members(e: Json): (r: seq<Member>) { if e.Object? then e.members else [] }

  /** The text self_hash commits to: the entry without it. */
  function Payload(e: Json): (r: Text)
    requires Profile(e)
  {
    Canonical(Object(Without(Members(e), SELF())))
  }

  function SelfHash(e: Json): (r: Text)
  {
    var g := Get(Members(e), SELF());
    if g.Some? && g.value.Str? then g.value.s else []
  }

  /** The entry stands at place n after the self_hash prev. */
  predicate Links(h: Hash, e: Json, n: nat, prev: Text)
    requires Profile(e)
  {
    && Get(Members(e), IDX()) == Some(Int(n))
    && Get(Members(e), PREV()) == Some(Str(prev))
    && Get(Members(e), SELF()) == Some(Str(Digest(h, Payload(e))))
  }

  function PrevHash(es: seq<Json>, k: nat): (r: Text)
    requires k <= |es|
  {
    if k == 0 then ZEROS() else SelfHash(es[k - 1])
  }

  predicate LinkedAt(h: Hash, es: seq<Json>, k: nat)
    requires k < |es| && Profile(es[k])
  {
    es[k].Object? && Links(h, es[k], k, PrevHash(es, k))
  }

  /** Every entry is an object that recomputes and links, from genesis on. */
  ghost predicate Linked(h: Hash, es: seq<Json>)
    requires Profiles(es)
  {
    forall k :: 0 <= k < |es| ==> LinkedAt(h, es, k)
  }

  /** A ledger verifies when it is linked and not empty. */
  ghost predicate ChainOk(h: Hash, es: seq<Json>)
    requires Profiles(es)
  {
    es != [] && Linked(h, es)
  }

  ghost predicate FileOk(h: Hash, b: Text)
  {
    ReadEntries(b).Some? && Profiles(ReadEntries(b).value) && ChainOk(h, ReadEntries(b).value)
  }

  // ---- Ledger.verify on a list ---------------------------------------------------------------

  /** How many of the tests of one entry fail. */
  function FailedTests(h: Hash, e: Json, n: nat, prev: Text): (r: nat)
    requires Profile(e)
  {
    (if Get(Members(e), IDX()) == Some(Int(n)) then 0 else 1)
    + (if Get(Members(e), PREV()) == Some(Str(prev)) then 0 else 1)
    + (if Get(Members(e), SELF()) == Some(Str(Digest(h, Payload(e)))) then 0 else 1)
  }

  /** The self_hash to go on with: that of the entry, if it is a text. */
  function Seen(e: Json, prev: Text): (r: Text)
  {
    match Get(Members(e), SELF()) case Some(Str(s)) => s case _ => prev
  }

  /** The last self_hash seen in some entries. */
  function LastSeen(es: seq<Json>): (r: Text)
  {
    if es == [] then ZEROS() else Seen(es[|es| - 1], LastSeen(es[..|es| - 1]))
  }

  /** The four tests of one entry, as the number of failures they add. */
  method CheckEntry(h: Hash, e: Json, n: nat, prev: Text) returns (failures: nat, next: Text)
    requires Profile(e) && e.Object?
    ensures failures == FailedTests(h, e, n, prev) && (failures == 0 <==> Links(h, e, n, prev))
    ensures next == Seen(e, prev) && (failures == 0 ==> next == SelfHash(e))
  {
    failures := 0;
    if Get(e.members, IDX()) != Some(Int(n)) { failures := failures + 1; }
    if Get(e.members, PREV()) != Some(Str(prev)) { failures := failures + 1; }
    var hash := Digest(h, Payload(e));
    if Get(e.members, SELF()) != Some(Str(hash)) { failures := failures + 1; }
    var own := Get(e.members, SELF());
    next := if own.Some? && own.value.Str? then own.value.s else prev;
  }

  /** What a loop knows after the entries es: no failure so far exactly if they are linked. */
  ghost predicate Checked(h: Hash, es: seq<Json>, failures: nat, prev: Text)
  {
    && Profiles(es)
    && (failures == 0 <==> Linked(h, es))
    && (failures == 0 ==> prev == PrevHash(es, |es|))
  }

  lemma LinkedAtPrefix(h: Hash, a: seq<Json>, b: seq<Json>, k: nat)
    requires a <= b && k < |a| && Profile(a[k])
    ensures LinkedAt(h, a, k) == LinkedAt(h, b, k)
  {
    hide Links, SelfHash;
    assert a[k] == b[k] && (k > 0 ==> a[k - 1] == b[k - 1]);
  }

  lemma LinkedPrefix(h: Hash, a: seq<Json>, b: seq<Json>)
    requires Profiles(b) && a <= b && Linked(h, b)
    ensures Profiles(a) && Linked(h, a)
  {
    hide LinkedAt;
    forall k | 0 <= k < |a| ensures LinkedAt(h, a, k) { LinkedAtPrefix(h, a, b, k); }
  }

  lemma LinkedAppend(h: Hash, a: seq<Json>, e: Json)
    requires Profiles(a + [e])
    ensures Profiles(a) && Profile(e)
    ensures Linked(h, a + [e]) <==> Linked(h, a) && e.Object? && Links(h, e, |a|, PrevHash(a, |a|))
  {
    hide Links, Linked, Profile, Depth, PrevHash;
    var b := a + [e];
    assert forall k :: 0 <= k < |a| ==> a[k] == b[k];
    assert b[|a|] == e;
    if Linked(h, b) {
      LinkedPrefix(h, a, b);
      LinkedLast(h, a, e);
    } else if Linked(h, a) && e.Object? && Links(h, e, |a|, PrevHash(a, |a|)) {
      LinkedMore(h, a, e);
    }
  }

  lemma LinkedLast(h: Hash, a: seq<Json>, e: Json)
    requires Profiles(a + [e]) && Linked(h, a + [e]) && Profile(e)
    ensures e.Object? && Links(h, e, |a|, PrevHash(a, |a|))
  {
    hide Links, SelfHash;
    var b := a + [e];
    assert b[|a|] == e && (a != [] ==> b[|a| - 1] == a[|a| - 1]);
    assert LinkedAt(h, b, |a|);
  }

  lemma LinkedMore(h: Hash, a: seq<Json>, e: Json)
    requires Profiles(a + [e]) && Profiles(a) && Profile(e) && Linked(h, a) && e.Object?
      && Links(h, e, |a|, PrevHash(a, |a|))
    ensures Linked(h, a + [e])
  {
    hide Links, SelfHash;
    var b := a + [e];
    assert b[|a|] == e && (a != [] ==> b[|a| - 1] == a[|a| - 1]);
    forall k | 0 <= k < |b| ensures LinkedAt(h, b, k) {
      if k < |a| { LinkedAtPrefix(h, a, b, k); }
    }
  }

  lemma NothingChecked(h: Hash)
    ensures Checked(h, [], 0, ZEROS())
  {}

  /** One more entry, with the failures it adds. */
  lemma CheckedStep(h: Hash, es: seq<Json>, failures: nat, prev: Text, e: Json, more: nat, next: Text)
    requires Checked(h, es, failures, prev) && Profile(e) && Depth(e) <= MAX_JSON_DEPTH && e.Object?
    requires more == 0 <==> Links(h, e, |es|, prev)
    requires more == 0 ==> next == SelfHash(e)
    ensures Checked(h, es + [e], failures + more, next)
  {
    hide Links, LinkedAt, SelfHash, Profile;
    LinkedAppend(h, es, e);
    assert (es + [e])[|es|] == e;
  }

  /** CheckEntry inside a loop that has been over es. */
  method CheckNext(h: Hash, ghost es: seq<Json>, e: Json, n: nat, failures: nat, prev: Text)
      returns (total: nat, next: Text)
    requires Checked(h, es, failures, prev) && n == |es|
    requires Profile(e) && Depth(e) <= MAX_JSON_DEPTH && e.Object?
    ensures Checked(h, es + [e], total, next)
    ensures total == failures + FailedTests(h, e, n, prev) && next == Seen(e, prev)
  {
    hide Checked, Links, SelfHash, Profile, Depth, FailedTests, Seen;
    var more;
    more, next := CheckEntry(h, e, n, prev);
    CheckedStep(h, es, failures, prev, e, more, next);
    total := failures + more;
  }

  lemma NotAnObject(h: Hash, es: seq<Json>, all: seq<Json>)
    requires Profiles(all) && es < all && !all[|es|].Object?
    ensures !Linked(h, all)
  {
    assert !LinkedAt(h, all, |es|);
  }

  lemma Known(h: Hash, es: seq<Json>, failures: nat, prev: Text)
    requires Checked(h, es, failures, prev)
    ensures failures == 0 <==> Linked(h, es)
    ensures failures == 0 ==> prev == PrevHash(es, |es|)
  {}

  /** ledger.py `Ledger.verify` on entries already read. */
  method VerifyEntries(h: Hash, es: seq<Json>) returns (chainOk: bool, n: nat, last: Text)
    requires Profiles(es)
    ensures chainOk <==> ChainOk(h, es)
    ensures chainOk ==> n == |es| && last == PrevHash(es, |es|)
    ensures n <= |es| && (forall k :: 0 <= k < n ==> es[k].Object?) && (n < |es| ==> !es[n].Object?)
    ensures last == LastSeen(es[..n])
  {
    hide LinkedAt, PrevHash, Profile, Linked, Depth, Checked, Seen, FailedTests;
    var failures := 0;
    last, n := ZEROS(), 0;
    NothingChecked(h);
    while n < |es|
      invariant n <= |es| && Checked(h, es[..n], failures, last)
      invariant last == LastSeen(es[..n]) && forall k :: 0 <= k < n ==> es[k].Object?
    {
      var e := es[n];
      if !e.Object? {
        NotAnObject(h, es[..n], es);
        return false, n, last;
      }
      failures, last := CheckNext(h, es[..n], e, n, failures, last);
      assert es[..n + 1] == es[..n] + [e] && es[..n + 1][..n] == es[..n];
      n := n + 1;
    }
    assert es[..|es|] == es;
    Known(h, es, failures, last);
    chainOk := failures == 0 && n != 0;
  }

  // ---- reading and checking a file in one pass ---------------------------------------------------

  /** The reading has gone over the entries es, and the bytes `rest` are left. */
  ghost predicate ReadSoFar(all: Text, es: seq<Json>, rest: Text)
  {
    ReadEntries(all) == match ReadEntries(rest) case None => None case Some(more) => Some(es + more)
  }

  lemma ReadStep(all: Text, es: seq<Json>, rest: Text)
    requires ReadSoFar(all, es, rest)
    ensures FirstLine(rest).End? ==> ReadEntries(all) == Some(es)
    ensures FirstLine(rest).TooLong? ==> ReadEntries(all) == None
    ensures var l := FirstLine(rest); l.Line? ==>
      && (IsBlank(l.content) ==> ReadSoFar(all, es, rest[l.taken..]))
      && (!IsBlank(l.content) && EntryOf(l.content).None? ==> ReadEntries(all) == None)
      && (!IsBlank(l.content) && EntryOf(l.content).Some? ==>
          ReadSoFar(all, es + [EntryOf(l.content).value], rest[l.taken..]))
  {
    hide EntryOf, FirstLine, IsBlank;
    match FirstLine(rest) {
      case End => assert es + [] == es;
      case TooLong =>
      case Line(c, n) =>
        if !IsBlank(c) && EntryOf(c).Some? && ReadEntries(rest[n..]).Some? {
          var e, more := EntryOf(c).value, ReadEntries(rest[n..]).value;
          assert es + ([e] + more) == es + [e] + more;
        }
    }
  }

  lemma NothingRead(b: Text)
    ensures ReadSoFar(b, [], b)
  {
    if ReadEntries(b).Some? { assert [] + ReadEntries(b).value == ReadEntries(b).value; }
  }

  /** The line as text, parsed: main.rs `from_utf8` and `parse_obj`. */
  method ParseObject(content: Text) returns (e: Option<Json>)
    ensures e == if EntryOf(content).Some? && EntryOf(content).value.Object? then EntryOf(content) else None
  {
    var t := Utf8.Decode(content);
    if t == None { return None; }
    var v := ParseText(t.value, RUST_MODE);
    return if v.Ok? && v.value.Object? then Some(v.value) else None;
  }

  datatype Scanned = AtEnd | Broken | Blank | Entry(e: Json)

  /** One line of the scan. */
  method ScanLine(h: Hash, r: BufReader, ghost all: Text, ghost es: seq<Json>) returns (s: Scanned)
    requires r.Valid() && ReadSoFar(all, es, r.Rest())
    modifies r
    ensures r.Valid()
    ensures s.AtEnd? ==> ReadEntries(all) == Some(es)
    ensures s.Broken? ==> !FileOk(h, all)
    ensures s.Blank? ==> ReadSoFar(all, es, r.Rest())
    ensures s.Entry? ==>
      ReadSoFar(all, es + [s.e], r.Rest()) && s.e.Object? && Profile(s.e) && Depth(s.e) <= MAX_JSON_DEPTH
    ensures s.Blank? || s.Entry? ==> |r.Rest()| < |old(r.Rest())|
  {
    hide Profile, EntryOf, FirstLine, IsBlank, ReadEntries, ReadSoFar, FileOk;
    ghost var rest := r.Rest();
    ReadStep(all, es, rest);
    var line := BoundedLine(r);
    if line.TooLong? {
      Unreadable(h, all);
      return Broken;
    }
    if line.End? { return AtEnd; }
    if IsBlank(line.content) { return Blank; }
    EntryIsProfile(line.content);
    var e := ParseObject(line.content);
    if e == None {
      StopsTheChain(h, all, es, rest);
      return Broken;
    }
    return Entry(e.value);
  }

  lemma Unreadable(h: Hash, b: Text)
    ensures ReadEntries(b) == None ==> !FileOk(h, b)
  {}

  /** main.rs `verify`, the streamed scan: one pass over the reader, whatever pieces the bytes come in. */
  method ScanChain(h: Hash, r: BufReader) returns (chainOk: bool, entries: seq<Json>)
    requires r.Valid()
    modifies r
    ensures chainOk <==> FileOk(h, old(r.Rest()))
    ensures chainOk ==> Some(entries) == ReadEntries(old(r.Rest()))
  {
    hide Profile, ReadEntries, ReadSoFar, Checked, FileOk, Depth;
    ghost var all := r.Rest();
    var failures, prev := 0, ZEROS();
    entries := [];
    NothingChecked(h);
    NothingRead(all);
    while true
      invariant r.Valid() && ReadSoFar(all, entries, r.Rest()) && Checked(h, entries, failures, prev)
      decreases |r.Rest()|
    {
      var s := ScanLine(h, r, all, entries);
      if s.AtEnd? { break; }
      if s.Broken? { return false, entries; }
      if s.Entry? {
        failures, prev := CheckNext(h, entries, s.e, |entries|, failures, prev);
        entries := entries + [s.e];
      }
    }
    chainOk := failures == 0 && entries != [];
    ScanVerdict(h, all, entries, failures, prev);
  }

  lemma ScanVerdict(h: Hash, all: Text, es: seq<Json>, failures: nat, prev: Text)
    requires ReadEntries(all) == Some(es) && Checked(h, es, failures, prev)
    ensures FileOk(h, all) <==> failures == 0 && es != []
  {}

  /** A line that holds no object ends the scan, and the file it stands in does not verify. */
  lemma StopsTheChain(h: Hash, b: Text, es: seq<Json>, rest: Text)
    requires ReadSoFar(b, es, rest) && FirstLine(rest).Line? && !IsBlank(FirstLine(rest).content)
    requires EntryOf(FirstLine(rest).content).Some? ==> !EntryOf(FirstLine(rest).content).value.Object?
    ensures !FileOk(h, b)
  {
    hide EntryOf, FirstLine, IsBlank, LinkedAt;
    ReadStep(b, es, rest);
    if FileOk(h, b) {
      var all := ReadEntries(b).value;
      var e := EntryOf(FirstLine(rest).content).value;
      assert es + [e] <= all;
      assert all[|es|] == e;
      NotAnObject(h, es, all);
    }
  }

  // ---- reading first, checking afterwards ----------------------------------------------------------

  /** ledger.py `Ledger.entries`, collected: every line parsed before any is judged. */
  method ReadAll(b: Text) returns (entries: Option<seq<Json>>)
    ensures entries == ReadEntries(b)
  {
    hide EntryOf, IsBlank, ReadEntries, FirstLine, ReadSoFar;
    var es: seq<Json> := [];
    var rest := b;
    NothingRead(b);
    while true
      invariant ReadSoFar(b, es, rest)
      decreases |rest|
    {
      ReadStep(b, es, rest);
      var line := PythonLine(rest);
      if line.TooLong? { return None; }
      if line.End? { return Some(es); }
      if !IsBlank(line.content) {
        var e := ReadLineValue(line.content);
        if e.None? { return None; }
        es := es + [e.value];
      }
      rest := rest[line.taken..];
    }
  }

  /** `parse_line(content.decode("utf-8"))`. */
  method ReadLineValue(content: Text) returns (e: Option<Json>)
    ensures e == EntryOf(content)
  {
    var t := Utf8.Decode(content);
    if t.None? { return None; }
    Utf8.DecodeEncode(content);
    e := ParseLine(t.value);
  }

  /** verify_pack.py: the file is read once, and that snapshot is judged. */
  method VerifyFile(h: Hash, b: Text) returns (chainOk: bool)
    ensures chainOk <==> FileOk(h, b)
  {
    hide ReadEntries, ChainOk;
    var es := ReadAll(b);
    if es.None? { return false; }
    ReadProfiles(b);
    var n, last;
    chainOk, n, last := VerifyEntries(h, es.value);
  }

  // ---- files put together ----------------------------------------------------------------------

  /** Nothing, or bytes that end in a newline: what is written next starts a line of its own. */
  predicate Terminated(b: Text) { b == [] || b[|b| - 1] == NEWLINE }

  lemma FirstLineOfJoin(a: Text, b: Text)
    requires a != [] && Body(a) < |a|
    ensures FirstLine(a + b) == FirstLine(a)
  {
    BodyStops(a);
    BodyIs(a + b, Body(a));
    assert (a + b)[..Body(a)] == a[..Body(a)];
  }

  lemma LineOrEnd(a: Text)
    ensures FirstLine(a).End? <==> a == []
    ensures ReadEntries([]) == Some([])
  {}

  function Joined(a: Option<seq<Json>>, b: Option<seq<Json>>): (r: Option<seq<Json>>)
  {
    if a.Some? && b.Some? then Some(a.value + b.value) else None
  }

  /** The entries of whole lines followed by more bytes are the entries of both. */
  lemma {:induction false} ReadJoin(a: Text, b: Text)
    requires Terminated(a)
    ensures ReadEntries(a + b) == Joined(ReadEntries(a), ReadEntries(b))
    decreases |a|
  {
    hide EntryOf, IsBlank, FirstLine;
    LineOrEnd(a);
    if a == [] {
      assert a + b == b;
      if ReadEntries(b).Some? { assert [] + ReadEntries(b).value == ReadEntries(b).value; }
    } else {
      BodyStops(a);
      FirstLineOfJoin(a, b);
      var l := FirstLine(a);
      if l.Line? {
        var rest := a[l.taken..];
        assert (a + b)[l.taken..] == rest + b;
        ReadJoin(rest, b);
        if ReadEntries(rest).Some? && ReadEntries(b).Some? && !IsBlank(l.content) && EntryOf(l.content).Some? {
          var e, x, y := EntryOf(l.content).value, ReadEntries(rest).value, ReadEntries(b).value;
          assert [e] + (x + y) == [e] + x + y;
        }
      }
    }
  }

  /** Closing a last line that lost its newline changes nothing that is read. */
  lemma {:induction false} CloseLastLine(a: Text)
    requires !Terminated(a)
    ensures ReadEntries(a + [NEWLINE]) == ReadEntries(a)
    decreases |a|
  {
    hide EntryOf, IsBlank;
    var c := a + [NEWLINE];
    BodyStops(a);
    if Body(a) < |a| {
      FirstLineOfJoin(a, [NEWLINE]);
      var l := FirstLine(a);
      if l.Line? {
        assert c[l.taken..] == a[l.taken..] + [NEWLINE];
        CloseLastLine(a[l.taken..]);
      }
    } else {
      BodyIs(c, |a|);
      assert c[..|a|] == a == a[..|a|];
      assert c[|a| + 1..] == [] && a[|a|..] == [];
    }
  }

  /** One line of printable bytes, with or without its newline. */
  lemma OneLine(p: Text, closed: bool)
    requires p != [] && Printable(p) && |p| <= MAX_LINE_BYTES && (exists k :: 0 <= k < |p| && p[k] != 0x20)
    ensures ReadEntries(if closed then p + [NEWLINE] else p) ==
      if EntryOf(p).Some? then Some([EntryOf(p).value]) else None
  {
    hide EntryOf;
    var b := if closed then p + [NEWLINE] else p;
    BodyIs(b, |p|);
    assert b[..|p|] == p;
    assert LineContent(p) == p;
    assert b[FirstLine(b).taken..] == [];
    var k :| 0 <= k < |p| && p[k] != 0x20;
    assert !IsBlank(p);
    assert ReadEntries([]) == Some([]);
    if EntryOf(p).Some? { assert [EntryOf(p).value] + [] == [EntryOf(p).value]; }
  }
}
