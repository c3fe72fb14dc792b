/** What one append adds to a ledger, and what is left when its writer dies at any byte of the write. */
module CrashSafety {
  import opened Texts
  import opened JsonValues
  import opened JsonPrinter
  import opened Chain
  import opened LedgerEntries
  import opened Ledger

  /** A ledger that can be continued into one that verifies: no entry yet, or a chain that verifies. */
  ghost predicate Sound(h: Hash, b: Text)
  {
    ReadEntries(b) == Some([]) || FileOk(h, b)
  }

  /** The parts an append is made of. */
  lemma Parts(h: Hash, b: Text, data: Json, ts: Text)
    requires Appendable(h, b, data, ts)
    ensures ReadEntries(b).Some? && Record(h, b, data, ts).Some? && Storable(Record(h, b, data, ts).value)
    ensures PendingAt(h, b, data, ts) == Pending(!Terminated(b), Record(h, b, data, ts).value)
    ensures AllChained(ReadEntries(b).value) && Chained(Record(h, b, data, ts).value)
    ensures var es := ReadEntries(b).value;
      Links(h, Record(h, b, data, ts).value, |es|, PrevHash(es, |es|))
  {
    hide ReadEntries, Profile, Links, Storable, Pending;
    var t := TailOf(b).value;
    NewEntryLinks(h, t, data, ts);
  }

  /** The linking of a chain with one more record that links. */
  lemma OneMore(h: Hash, es: seq<Json>, e: Json)
    requires Profiles(es) && Storable(e) && Links(h, e, |es|, PrevHash(es, |es|))
    ensures Profiles(es + [e]) && (Linked(h, es + [e]) <==> Linked(h, es))
  {
    hide Profile, Depth, Print, Links, LinkedAt, PrevHash;
    assert forall k :: 0 <= k < |es| ==> (es + [e])[k] == es[k];
    assert (es + [e])[|es|] == e;
    LinkedAppend(h, es, e);
  }

  lemma SoundIsLinked(h: Hash, b: Text, es: seq<Json>)
    requires ReadEntries(b) == Some(es)
    ensures Profiles(es) && (Sound(h, b) <==> Linked(h, es)) && (es != [] ==> (FileOk(h, b) <==> Linked(h, es)))
  {
    hide ReadEntries, LinkedAt;
    ReadProfiles(b);
  }

  /** An append adds exactly its record, at the next index, and the ledger then verifies if and only if it
      verified before or held nothing. */
  lemma AppendKeepsVerdict(h: Hash, b: Text, data: Json, ts: Text)
    requires Appendable(h, b, data, ts)
    ensures var after := b + PendingAt(h, b, data, ts);
      && ReadEntries(b).Some? && Record(h, b, data, ts).Some?
      && ReadEntries(after) == Some(ReadEntries(b).value + [Record(h, b, data, ts).value])
      && Terminated(after) && (FileOk(h, after) <==> Sound(h, b))
  {
    hide ReadEntries, Appendable, Record, PendingAt, Sound, FileOk, Storable, Links, Linked, PrevHash, Print, Profile;
    Parts(h, b, data, ts);
    var es, e := ReadEntries(b).value, Record(h, b, data, ts).value;
    StorableProfile(e);
    var pending := Pending(!Terminated(b), e);
    assert pending[..|pending|] == pending;
    TornReads(b, e, |pending|);
    SoundIsLinked(h, b, es);
    SoundIsLinked(h, b + pending, es + [e]);
    OneMore(h, es, e);
  }

  lemma StorableProfile(e: Json)
    requires Storable(e)
    ensures Profile(e)
  {}

  /** The bytes a writer leaves that dies after k bytes of its write. */
  ghost function Torn(h: Hash, b: Text, data: Json, ts: Text, k: nat): (r: Text)
    requires Appendable(h, b, data, ts) && k <= |PendingAt(h, b, data, ts)|
  {
    b + PendingAt(h, b, data, ts)[..k]
  }

  /** Where a record has begun but not ended, nothing can be appended any more; anywhere else the file reads
      as it did before the write, or as the whole write would have left it. */
  lemma TornTail(h: Hash, b: Text, data: Json, ts: Text, k: nat)
    requires Appendable(h, b, data, ts) && k <= |PendingAt(h, b, data, ts)|
    ensures Record(h, b, data, ts).Some? && ReadEntries(b).Some? && Profile(Record(h, b, data, ts).value)
    ensures var e, u := Record(h, b, data, ts).value, Lead(!Terminated(b));
      var torn := Torn(h, b, data, ts, k);
      && (TailOf(torn).None? <==> u < k < u + |Canonical(e)|)
      && (k <= u ==> ReadEntries(torn) == ReadEntries(b))
      && (u < k < u + |Canonical(e)| ==> ReadEntries(torn) == None)
      && (k >= u + |Canonical(e)| ==> ReadEntries(torn) == Some(ReadEntries(b).value + [e]))
  {
    hide ReadEntries, Appendable, Record, PendingAt, Storable, Links, PrevHash, Print, Profile, Pending, Terminated,
      TailOf, AllChained, Chained;
    Parts(h, b, data, ts);
    var es, e := ReadEntries(b).value, Record(h, b, data, ts).value;
    StorableProfile(e);
    TornPlain(b, es, e, k, Torn(h, b, data, ts, k));
  }

  lemma TornPlain(b: Text, es: seq<Json>, e: Json, k: nat, torn: Text)
    requires ReadEntries(b) == Some(es) && AllChained(es) && Chained(e) && Storable(e)
    requires k <= |Pending(!Terminated(b), e)| && torn == b + Pending(!Terminated(b), e)[..k]
    ensures var u := Lead(!Terminated(b));
      && (TailOf(torn).None? <==> u < k < u + |Canonical(e)|)
      && (k <= u ==> ReadEntries(torn) == Some(es))
      && (u < k < u + |Canonical(e)| ==> ReadEntries(torn) == None)
      && (k >= u + |Canonical(e)| ==> ReadEntries(torn) == Some(es + [e]))
  {
    hide ReadEntries, Print, Profile, Depth, Pending, Terminated, TailOf, AllChained, Chained;
    ObjectStarts(e);
    TornReads(b, e, k);
    TailAfter(torn, es, e);
  }

  lemma TailAfter(b: Text, es: seq<Json>, e: Json)
    requires AllChained(es) && Chained(e)
    ensures ReadEntries(b) == None ==> TailOf(b).None?
    ensures ReadEntries(b) == Some(es) || ReadEntries(b) == Some(es + [e]) ==> TailOf(b).Some?
  {
    hide ReadEntries, Chained;
  }

  lemma TornEntries(h: Hash, b: Text, data: Json, ts: Text, k: nat, torn: Text, es: seq<Json>, e: Json)
    requires Appendable(h, b, data, ts) && k <= |PendingAt(h, b, data, ts)| && torn == Torn(h, b, data, ts, k)
    requires ReadEntries(b) == Some(es) && Record(h, b, data, ts) == Some(e)
    ensures ReadEntries(torn) == None || ReadEntries(torn) == Some(es) || ReadEntries(torn) == Some(es + [e])
  {
    hide ReadEntries, Appendable, Record, PendingAt, Torn, Profile, Print, TailOf;
    TornTail(h, b, data, ts, k);
  }

  /** Crash safety. Whatever prefix of a write is in the file when its writer dies, the next append refuses
      (and by the contract of `Append` leaves the file alone), or it leaves the old records, at most the
      interrupted one, and its own; and the result verifies if the ledger was sound. */
  lemma CrashThenAppend(h: Hash, b: Text, data: Json, ts: Text, k: nat, data': Json, ts': Text)
    requires Appendable(h, b, data, ts) && k <= |PendingAt(h, b, data, ts)|
    requires Appendable(h, Torn(h, b, data, ts, k), data', ts')
    ensures ReadEntries(b).Some? && Record(h, b, data, ts).Some? && Record(h, Torn(h, b, data, ts, k), data', ts').Some?
    ensures var es, e := ReadEntries(b).value, Record(h, b, data, ts).value;
      var torn := Torn(h, b, data, ts, k);
      var e' := Record(h, torn, data', ts').value;
      var after := torn + PendingAt(h, torn, data', ts');
      && (ReadEntries(after) == Some(es + [e']) || ReadEntries(after) == Some(es + [e] + [e']))
      && (Sound(h, b) ==> FileOk(h, after))
  {
    hide *;
    var torn := Torn(h, b, data, ts, k);
    Parts(h, b, data, ts);
    TornEntries(h, b, data, ts, k, torn, ReadEntries(b).value, Record(h, b, data, ts).value);
    AppendKeepsVerdict(h, torn, data', ts');
    if Sound(h, b) { TornSound(h, b, data, ts, k); }
  }

  /** A file that can still be read after a crash is as sound as it was. */
  lemma TornSound(h: Hash, b: Text, data: Json, ts: Text, k: nat)
    requires Appendable(h, b, data, ts) && k <= |PendingAt(h, b, data, ts)|
    requires Sound(h, b)
    ensures ReadEntries(Torn(h, b, data, ts, k)).Some? ==> Sound(h, Torn(h, b, data, ts, k))
  {
    hide ReadEntries, Appendable, Record, PendingAt, Torn, Sound, FileOk, Storable, Links, Linked, PrevHash, Print,
      Profile, Terminated;
    var torn := Torn(h, b, data, ts, k);
    TornTail(h, b, data, ts, k);
    Parts(h, b, data, ts);
    var es, e := ReadEntries(b).value, Record(h, b, data, ts).value;
    SoundIsLinked(h, b, es);
    OneMore(h, es, e);
    if ReadEntries(torn).Some? { SoundIsLinked(h, torn, ReadEntries(torn).value); }
  }
}
