/** cra_evidence/ledger.py, the writer: the tail scan, `Ledger.append`, and what an append or a crash in the
    middle of one does to the chain. */
module Ledger {
  import opened Texts
  import opened JsonValues
  import opened JsonGrammar
  import opened JsonPrinter
  import opened JsonRoundTrip
  import opened Prescan
  import opened ReaderAgreement
  import opened GoCanonical
  import opened Lines
  import opened Chain
  import opened Refusal
  import opened LedgerEntries

  // ---- the tail scan -----------------------------------------------------------------------------

  lemma ChainedStep(es: seq<Json>, e: Json, u: bool, v: bool)
    requires AllChained(es) && Chained(e)
    ensures AllChained(es + [e])
    ensures TailOfEntries(es + [e], v) ==
      Tail(|es| + 1, SelfHash(e), if es == [] then SelfHash(e) else TailOfEntries(es, u).first, v)
  {
    assert (es + [e])[|es|] == e;
    if es != [] { assert (es + [e])[0] == es[0]; }
  }

  lemma NotChained(b: Text, es: seq<Json>, e: Json, rest: Text)
    requires ReadSoFar(b, es + [e], rest) && !Chained(e)
    ensures TailOf(b) == None
  {
    hide ReadEntries, Chained;
    if ReadEntries(b).Some? {
      var all := ReadEntries(b).value;
      assert es + [e] <= all;
      assert (es + [e])[|es|] == e;
      assert !Chained(all[|es|]);
    }
  }

  lemma UnreadableTail(b: Text)
    ensures ReadEntries(b) == None ==> TailOf(b) == None
  {}

  /** The last line read tells whether the bytes consumed end in a newline. */
  ghost predicate Consumed(b: Text, rest: Text, u: bool)
  {
    |rest| <= |b| && rest == b[|b| - |rest|..] && u == !Terminated(b[..|b| - |rest|])
  }

  lemma ConsumeLine(b: Text, rest: Text, u: bool, n: nat)
    requires Consumed(b, rest, u) && 0 < n <= |rest|
    ensures Consumed(b, rest[n..], rest[n - 1] != NEWLINE)
  {
    var at := |b| - |rest| + n;
    assert rest[n..] == b[at..];
    assert b[..at][at - 1] == rest[n - 1];
  }

  /** ledger.py `_tail_state`: fail-closed on any line it cannot take. */
  method TailState(b: Text) returns (t: Option<Tail>)
    ensures t == TailOf(b)
  {
    hide EntryOf, IsBlank, FirstLine, ReadEntries, ReadSoFar, Chained, TailOf, Consumed;
    ghost var es: seq<Json> := [];
    var tail := Tail(0, ZEROS(), ZEROS(), false);
    var rest := b;
    NothingRead(b);
    NothingConsumed(b);
    while true
      invariant ReadSoFar(b, es, rest) && AllChained(es) && Consumed(b, rest, tail.unterminated)
      invariant tail == TailOfEntries(es, tail.unterminated)
      decreases |rest|
    {
      ReadStep(b, es, rest);
      UnreadableTail(b);
      var line := PythonLine(rest);
      if line.TooLong? { return None; }
      if line.End? {
        LineOrEnd(rest);
        TailReached(b, es, tail.unterminated);
        return Some(tail);
      }
      var unterminated := rest[line.taken - 1] != NEWLINE;
      ConsumeLine(b, rest, tail.unterminated, line.taken);
      if IsBlank(line.content) {
        tail := tail.(unterminated := unterminated);
      } else {
        var e := ReadLineValue(line.content);
        if e.None? { return None; }
        if !Chained(e.value) {
          NotChained(b, es, e.value, rest[line.taken..]);
          return None;
        }
        ChainedStep(es, e.value, tail.unterminated, unterminated);
        ChainedOwn(e.value);
        var last := Get(e.value.members, SELF()).value.s;
        tail := Tail(tail.n + 1, last, if tail.n == 0 then last else tail.first, unterminated);
        es := es + [e.value];
      }
      rest := rest[line.taken..];
    }
  }

  lemma ChainedOwn(e: Json)
    requires Chained(e)
    ensures e.Object? && Get(e.members, SELF()).Some? && Get(e.members, SELF()).value.Str?
    ensures SelfHash(e) == Get(e.members, SELF()).value.s
  {}

  lemma NothingConsumed(b: Text)
    ensures Consumed(b, b, false)
  {
    assert b[0..] == b;
  }

  lemma TailReached(b: Text, es: seq<Json>, u: bool)
    requires ReadEntries(b) == Some(es) && AllChained(es) && Consumed(b, [], u)
    ensures TailOf(b) == Some(TailOfEntries(es, u))
  {
    assert b[..|b|] == b;
  }

  // ---- what append accepts ------------------------------------------------------------------------

  /** An append is possible exactly when the tail can be continued and the record it makes is one that
      every reader takes. */
  ghost predicate Appendable(h: Hash, b: Text, data: Json, ts: Text)
  {
    && TailOf(b).Some?
    && GoodParts(TailOf(b).value, data, ts)
    && Record(h, b, data, ts).Some?
    && Storable(Record(h, b, data, ts).value)
  }

  ghost function Record(h: Hash, b: Text, data: Json, ts: Text): (r: Option<Json>)
  {
    match TailOf(b)
    case None => None
    case Some(t) => if Profile(Draft(t, data, ts)) then Some(NewEntry(h, t, data, ts)) else None
  }

  lemma TailLastScalars(b: Text)
    requires TailOf(b).Some?
    ensures Scalars(TailOf(b).value.last)
  {
    hide ReadEntries, Profile;
    ReadProfiles(b);
    var es := ReadEntries(b).value;
    if es == [] {
      HexIsScalar(ZEROS(), 64);
    } else {
      var e := es[|es| - 1];
      assert Chained(e) && Profile(e);
      MemberProfile(e, SELF());
    }
  }

  lemma MemberProfile(e: Json, k: Text)
    requires e.Object? && Profile(e)
    ensures Get(e.members, k).Some? ==> Profile(Get(e.members, k).value)
  {
    History.GetIn(e.members, k);
  }

  lemma DraftWellFormed(t: Tail, data: Json, ts: Text, own: Text)
    requires WellFormed(data) && Scalars(t.last) && CodePoints(ts) && Scalars(own)
    ensures WellFormed(Draft(t, data, ts)) && WellFormed(Signed(t, data, ts, own))
  {
    hide Less, DATA, IDX, PREV, SELF, TS;
    KeysOrdered();
    AllOrdered();
  }

  lemma DepthOfFour(a: Member, b: Member, c: Member, d: Member)
    requires Depth(b.val) == 0 && Depth(c.val) == 0 && Depth(d.val) == 0
    ensures Depth(Object([a, b, c, d])) == 1 + Depth(a.val)
  {
    var ms := [a, b, c, d];
    assert ms[1..] == [b, c, d] && [b, c, d][1..] == [c, d] && [c, d][1..] == [d] && [d][1..] == [];
    assert MembersDepth([d]) == 0;
    assert MembersDepth([c, d]) == 0;
    assert MembersDepth([b, c, d]) == 0;
  }

  lemma DraftDepth(t: Tail, data: Json, ts: Text)
    ensures Depth(Draft(t, data, ts)) == 1 + Depth(data)
  {
    hide DATA, IDX, PREV, SELF, TS;
    var ms := Draft(t, data, ts).members;
    DepthOfFour(ms[0], ms[1], ms[2], ms[3]);
  }

  lemma Guard(v: Json)
    requires WellFormed(v)
    ensures !Refuses(v, 0) ==> Profile(v)
    ensures Profile(v) && Depth(v) <= MAX_JSON_DEPTH ==> !Refuses(v, 0)
  {
    RefusesExactly(v, 0);
    ReachNearDepth(v);
  }

  /** The guards of `append` let a draft through only if it is of the profile, and never stop a record that
      could be stored. */
  lemma GuardsPass(t: Tail, data: Json, ts: Text)
    requires WellFormed(data) && Scalars(t.last) && CodePoints(ts)
    ensures !Refuses(Draft(t, data, ts), 0) ==> GoodParts(t, data, ts)
    ensures GoodParts(t, data, ts) && Depth(data) < MAX_JSON_DEPTH ==>
      !Refuses(data, 0) && !Refuses(Draft(t, data, ts), 0)
  {
    hide Profile, Refuses, WellFormed, Draft;
    HexIsScalar(ZEROS(), 64);
    DraftWellFormed(t, data, ts, ZEROS());
    Guard(data);
    Guard(Draft(t, data, ts));
    DraftProfile(t, data, ts);
    DraftDepth(t, data, ts);
  }

  lemma SignedGuard(h: Hash, t: Tail, data: Json, ts: Text)
    requires WellFormed(data) && GoodParts(t, data, ts)
    ensures Profile(Draft(t, data, ts))
    ensures var e := NewEntry(h, t, data, ts);
      Profile(e) && Depth(e) == 1 + Depth(data) && (Depth(e) <= MAX_JSON_DEPTH ==> !Refuses(e, 0))
  {
    hide Profile, Refuses, WellFormed, Draft, Signed;
    DraftProfile(t, data, ts);
    var own := Digest(h, Canonical(Draft(t, data, ts)));
    HexIsScalar(own, 64);
    ScalarsAreCodePoints(ts);
    DraftWellFormed(t, data, ts, own);
    SignedProfile(t, data, ts, own);
    SignedDepth(t, data, ts, own);
    Guard(Signed(t, data, ts, own));
  }

  lemma ScalarsAreCodePoints(t: Text)
    requires Scalars(t)
    ensures CodePoints(t)
  {}

  lemma {:induction false} ScanPrefix(p: Text, s: Text, i: nat, j: nat, st: ScanState)
    requires p <= s && i <= j <= |p|
    ensures ScanTo(s, i, j, st) == ScanTo(p, i, j, st)
    decreases j - i
  {
    if i < j { ScanPrefix(p, s, i + 1, j, ScanStep(st, s[i])); }
  }

  /** The depth scan of a record's line is the depth of the record. */
  lemma LineDepth(e: Json)
    requires Profile(e)
    ensures var line := Canonical(e) + [NEWLINE]; ScanTo(line, 0, |line|, SCAN_START).best == Depth(e)
  {
    hide Print, Profile, ParseText;
    var c := Canonical(e);
    var line := c + [NEWLINE];
    var m := Mode(Depth(e), false);
    RoundTrip(e, Compact, m);
    CanonicalPrintable(e, 0);
    PrintableScalars(c);
    ScansAreExact(c, m);
    ScanPrefix(c, line, 0, |c|, SCAN_START);
    ScanJoin(line, 0, |c|, |line|, SCAN_START);
    var st := ScanTo(line, 0, |c|, SCAN_START);
    assert line[|c|] == NEWLINE;
    assert ScanTo(line, |c|, |line|, st) == ScanStep(st, NEWLINE);
  }

  lemma PrintableScalars(t: Text)
    requires Printable(t)
    ensures Scalars(t)
  {}

  // ---- the file and the append ---------------------------------------------------------------------

  /** The open ledger file under O_APPEND: its bytes, and what was last synced of them. The system decides how far a
      call gets. */
  class LedgerFile {
    var bytes: Text
    var synced: Text

    constructor (found: Text)
      ensures bytes == found && synced == found
    {
      bytes, synced := found, found;
    }

    /** write(2): at least one byte, or an exception that may arrive after some bytes. */
    method Write(data: Text) returns (n: Option<nat>)
      requires data != []
      modifies this`bytes
      ensures n.Some? ==> 0 < n.value <= |data| && bytes == old(bytes) + data[..n.value]
      ensures n.None? ==> exists k :: 0 <= k <= |data| && bytes == old(bytes) + data[..k]
    {
      var k :| 0 <= k <= |data|;
      bytes := bytes + data[..k];
      var raised := *;
      n := if raised || k == 0 then None else Some(k);
    }

    /** fsync(2): after it the bytes are on the disk, if it says so. */
    method Sync() returns (ok: bool)
      modifies this`synced
      ensures synced == if ok then bytes else old(synced)
    {
      ok := *;
      if ok { synced := bytes; }
    }

    method Truncate(end: nat) returns (ok: bool)
      requires end <= |bytes|
      modifies this`bytes
      ensures bytes == if ok then old(bytes)[..end] else old(bytes)
    {
      ok := *;
      if ok { bytes := bytes[..end]; }
    }
  }

  datatype Outcome = Appended(entry: Json) | Refused | Failed(restored: bool)

  /** The bytes of the write an append would make. */
  ghost function PendingAt(h: Hash, b: Text, data: Json, ts: Text): (r: Text)
    requires Appendable(h, b, data, ts)
  {
    Pending(!Terminated(b), Record(h, b, data, ts).value)
  }

  /** The record to be written, or None: every refusal happens before the first byte. */
  method Prepare(h: Hash, b: Text, data: Json, ts: Text) returns (r: Option<(Json, bool)>)
    requires WellFormed(data) && CodePoints(ts)
    ensures r.Some? <==> Appendable(h, b, data, ts)
    ensures r.Some? ==> Some(r.value.0) == Record(h, b, data, ts) && r.value.1 == !Terminated(b)
  {
    hide TailOf, Refuses, Profile, WellFormed, Depth, Print, Signed, Draft;
    r := None;
    var tail := TailState(b);
    if tail.None? { return; }
    var t := tail.value;
    TailLastScalars(b);
    TailEnds(b);
    GuardsPass(t, data, ts);
    DraftProfile(t, data, ts);
    if GoodParts(t, data, ts) {
      SignedGuard(h, t, data, ts);
      SignedIsObject(t, data, ts, Digest(h, Canonical(Draft(t, data, ts))));
    }
    if Refuses(data, 0) { return; }
    var draft := Draft(t, data, ts);
    if Refuses(draft, 0) { return; }
    var entry := Signed(t, data, ts, Digest(h, Canonical(draft)));
    if Refuses(entry, 0) { return; }
    var line := Canonical(entry) + [NEWLINE];
    if |line| - 1 > MAX_LINE_BYTES { return; }
    LineDepth(entry);
    var depth := NestingDepth(line);
    if depth > MAX_JSON_DEPTH { return; }
    return Some((entry, t.unterminated));
  }

  lemma TailEnds(b: Text)
    requires TailOf(b).Some?
    ensures TailOf(b).value.unterminated == !Terminated(b)
  {}

  class Ledger {
    const file: LedgerFile
    const allowUnlocked: bool

    constructor (f: LedgerFile, allow: bool)
      ensures file == f && allowUnlocked == allow
    {
      file, allowUnlocked := f, allow;
    }

    /** ledger.py `Ledger.append` without a tip key: the whole record or, as far as the file can be
        truncated, nothing. What it acknowledges or takes back has been synced. `locked` is what flock answered; `ts`
        the caller's time, `now` the clock's. */
    method Append(h: Hash, data: Json, ts: Option<Text>, now: Text, locked: bool) returns (r: Outcome)
      requires WellFormed(data) && CodePoints(now) && (ts.Some? ==> CodePoints(ts.value))
      modifies file
      ensures Settled(h, old(file.bytes), file.bytes, data, Stamp(ts, now), locked || allowUnlocked, r)
      ensures r.Appended? || r == Failed(true) ==> file.synced == file.bytes
      ensures r.Refused? ==> file.synced == old(file.synced)
    {
      hide Appendable, Record, WellFormed, Profile, Settled, Pending, Terminated;
      var stamp := Stamp(ts, now);
      ghost var found := file.bytes;
      SettledRefusal(h, found, data, stamp, locked || allowUnlocked);
      if !(locked || allowUnlocked) { return Refused; }
      var prepared := Prepare(h, file.bytes, data, stamp);
      if prepared.None? { return Refused; }
      AppendableProfile(h, found, data, stamp);
      var entry, unterminated := prepared.value.0, prepared.value.1;
      var pending := Pending(unterminated, entry);
      var end := |file.bytes|;
      var delivered := Deliver(file, pending);
      if delivered {
        SettledAppend(h, found, data, stamp, entry);
        return Appended(entry);
      }
      ghost var k: nat :| k <= |pending| && file.bytes == found + pending[..k];
      assert (found + pending[..k])[..end] == found;
      var restored := Restore(file, end);
      SettledFailure(h, found, file.bytes, data, stamp, entry, restored, k);
      return Failed(restored);
    }
  }

  /** What an append can come to: a refusal that wrote nothing, given exactly when the append is not possible;
      the whole record after the bytes that were there; or a failed write, taken back or cut short. */
  ghost predicate Settled(h: Hash, b: Text, after: Text, data: Json, ts: Text, mayWrite: bool, r: Outcome)
  {
    match r
    case Refused => after == b && !(mayWrite && Appendable(h, b, data, ts))
    case Appended(e) =>
      && mayWrite && Appendable(h, b, data, ts)
      && Some(e) == Record(h, b, data, ts) && after == b + PendingAt(h, b, data, ts)
    case Failed(restored) =>
      && mayWrite && Appendable(h, b, data, ts)
      && (restored ==> after == b)
      && exists k :: CutAt(b, PendingAt(h, b, data, ts), after, k)
  }

  /** The first k bytes of the write reached the file. */
  ghost predicate CutAt(b: Text, pending: Text, after: Text, k: nat)
  {
    k <= |pending| && after == b + pending[..k]
  }

  lemma SettledRefusal(h: Hash, b: Text, data: Json, ts: Text, mayWrite: bool)
    ensures !(mayWrite && Appendable(h, b, data, ts)) ==> Settled(h, b, b, data, ts, mayWrite, Refused)
  {}

  lemma SettledAppend(h: Hash, b: Text, data: Json, ts: Text, e: Json)
    requires Appendable(h, b, data, ts) && Some(e) == Record(h, b, data, ts) && Profile(e)
    ensures Settled(h, b, b + Pending(!Terminated(b), e), data, ts, true, Appended(e))
  {
    hide Appendable, Record, Pending, Terminated;
  }

  lemma SettledFailure(h: Hash, b: Text, after: Text, data: Json, ts: Text, e: Json, restored: bool, k: nat)
    requires Appendable(h, b, data, ts) && Some(e) == Record(h, b, data, ts) && Profile(e)
    requires k <= |Pending(!Terminated(b), e)|
    requires after == b || (!restored && after == b + Pending(!Terminated(b), e)[..k])
    ensures Settled(h, b, after, data, ts, true, Failed(restored))
  {
    hide Appendable, Record, Pending, Terminated;
    var pending := PendingAt(h, b, data, ts);
    assert b == b + pending[..0];
    assert CutAt(b, pending, after, if after == b then 0 else k);
  }

  lemma AppendableProfile(h: Hash, b: Text, data: Json, ts: Text)
    requires Appendable(h, b, data, ts)
    ensures Record(h, b, data, ts).Some? && Profile(Record(h, b, data, ts).value)
  {}

  function Stamp(ts: Option<Text>, now: Text): (r: Text)
  {
    if ts.Some? && ts.value != [] then ts.value else now
  }

  /** The write loop and the sync. */
  method Deliver(file: LedgerFile, pending: Text) returns (ok: bool)
    modifies file
    ensures ok ==> file.bytes == old(file.bytes) + pending && file.synced == file.bytes
    ensures exists k: nat :: k <= |pending| && file.bytes == old(file.bytes) + pending[..k]
  {
    ghost var found := file.bytes;
    var data := pending;
    ghost var done := 0;
    assert found + pending[..0] == found;
    while data != []
      invariant 0 <= done <= |pending| && data == pending[done..]
      invariant file.bytes == found + pending[..done]
      decreases |data|
    {
      var n := file.Write(data);
      if n.None? {
        PartWritten(found, pending, done, data, file.bytes);
        return false;
      }
      Further(found, pending, done, n.value);
      data := data[n.value..];
      done := done + n.value;
    }
    assert pending[..done] == pending;
    ok := file.Sync();
  }

  lemma Further(found: Text, pending: Text, done: nat, k: nat)
    requires done + k <= |pending|
    ensures found + pending[..done] + pending[done..][..k] == found + pending[..done + k]
    ensures pending[done..][k..] == pending[done + k..]
  {}

  lemma PartWritten(found: Text, pending: Text, done: nat, data: Text, bytes: Text)
    requires done <= |pending| && data == pending[done..]
    requires exists k :: 0 <= k <= |data| && bytes == found + pending[..done] + data[..k]
    ensures exists k :: 0 <= k <= |pending| && bytes == found + pending[..k]
  {
    var k :| 0 <= k <= |data| && bytes == found + pending[..done] + data[..k];
    Further(found, pending, done, k);
    assert 0 <= done + k <= |pending| && bytes == found + pending[..done + k];
  }

  /** The exception handler: back to the length this call found. */
  method Restore(file: LedgerFile, end: nat) returns (restored: bool)
    requires end <= |file.bytes|
    modifies file
    ensures restored ==> file.bytes == old(file.bytes)[..end] && file.synced == file.bytes
    ensures file.bytes == old(file.bytes) || file.bytes == old(file.bytes)[..end]
  {
    var truncated := file.Truncate(end);
    if !truncated { return false; }
    restored := file.Sync();
  }
}
