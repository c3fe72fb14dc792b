/** What a seal says and signs, and what `verify` asks of a chain, by the names of the fields. */
module SealContents {
  import opened Texts
  import opened JsonValues
  import opened JsonPrinter
  import opened History
  import opened LongTerm
  import GoCanonical
  import JsonText
  import Producer

  /** The text under a name, where it is one. */
  function TextOf(r: Record, key: string): (t: Option<Text>)
  {
    match Get(r, Lit(key)) case Some(Str(s)) => Some(s) case _ => None
  }

  /** The name of the hash: SHA3-256 where the record gives none. */
  function HashOf(r: Record): (t: Option<Text>)
  {
    if Get(r, Lit("hash")).None? then Some(Lit("sha3-256")) else TextOf(r, "hash")
  }

  lemma FieldNames()
    ensures ALG() == Lit("alg") && EPHEMERAL() == Lit("ephemeral_key") && HASH() == Lit("hash") && PUB() == Lit("pub")
      && REHASH() == Lit("rehash") && SIG() == Lit("sig") && TIME() == Lit("t")
    ensures TOKEN() == Lit("token_b64") && TOKEN_SHA3() == Lit("token_sha3") && SOURCE() == Lit("ts_source")
      && ASSERTED() == Lit("asserted") && DEFAULT_HASH() == Lit("sha3-256")
  {}

  // ---- what is signed ------------------------------------------------------------------------------

  /** The signed text: a list of the evidence digest, the earlier records and the record without its signature. */
  function SignedText(digest: Text, prefix: seq<Record>, own: Record): (t: Text)
    requires Scalars(digest) && Records(prefix) && Profile(Object(own))
  {
    Lit("[") + Quoted(digest) + Lit(",") + RecordsText(prefix) + Lit(",") + Canonical(Object(own)) + Lit("]")
  }

  function RecordsText(rs: seq<Record>): (t: Text)
    requires Records(rs)
  {
    Lit("[") + JsonText.Join(RecordTexts(rs), Lit(",")) + Lit("]")
  }

  function RecordTexts(rs: seq<Record>): (ts: seq<Text>)
    requires Records(rs)
    ensures |ts| == |rs|
  {
    seq(|rs|, i requires 0 <= i < |rs| => Canonical(Object(rs[i])))
  }

  lemma RecordsTextIs(rs: seq<Record>)
    requires Records(rs)
    ensures Profile(Array(Objects(rs))) && Print(Array(Objects(rs)), Compact, 1) == RecordsText(rs)
  {
    hide Profile, JsonText.Join;
    var items := Objects(rs);
    assert Profile(Array(items)) by { ItemsProfile(rs); }
    if rs == [] {
      JsonText.WordsAre(Compact, 1);
      EmptyJoin();
      assert RecordTexts(rs) == [];
      Brackets();
    } else {
      JsonText.PartsProfile(Array(items));
      JsonText.ContainersAre(Array(items), Compact, 1);
      forall i | 0 <= i < |rs| ensures Print(items[i], Compact, 2) == Canonical(Object(rs[i])) {
        GoCanonical.LevelIrrelevant(items[i], 2, 0);
      }
      assert JsonText.ItemTexts(items, Compact, 2) == RecordTexts(rs);
      NoIndent(Lit("["), JsonText.ItemTexts(items, Compact, 2), Lit("]"), 1);
    }
  }

  lemma ItemsProfile(rs: seq<Record>)
    requires Records(rs)
    ensures Profile(Array(Objects(rs)))
  {}

  lemma Brackets()
    ensures Lit("[]") == Lit("[") + [] + Lit("]")
  {}

  lemma EmptyJoin()
    ensures JsonText.Join([], Lit(",")) == []
  {}

  lemma NoIndent(open: Text, parts: seq<Text>, close: Text, level: nat)
    ensures JsonText.Listed(open, parts, close, Compact, level) == open + JsonText.Join(parts, Lit(",")) + close
  {
    assert Lit(",") + [] == Lit(",");
    assert open + [] == open;
    assert open + JsonText.Join(parts, Lit(",")) + [] == open + JsonText.Join(parts, Lit(","));
  }

  lemma JoinThree(a: Text, b: Text, c: Text, comma: Text)
    ensures JsonText.Join([a, b, c], comma) == a + comma + b + comma + c
  {
    assert [a, b, c][1..] == [b, c] && [b, c][1..] == [c];
    assert JsonText.Join([b, c], comma) == b + comma + c;
  }

  /** The message of a record, character by character. */
  lemma MessageIs(digest: Text, prefix: seq<Record>, r: Record)
    requires Scalars(digest) && Records(prefix) && Profile(Object(r))
    ensures Profile(Object(Without(r, Lit("sig"))))
    ensures Message(digest, prefix, r) == SignedText(digest, prefix, Without(r, Lit("sig")))
  {
    hide Profile, JsonText.Join, Objects, Print, RecordsText, Without, Quoted, Lit;
    FieldNames();
    OwnProfile(r);
    RecordSigned(digest, prefix, r);
    var own := Object(Without(r, SIG()));
    var items := [Str(digest), Array(Objects(prefix)), own];
    assert Signed(digest, prefix, r) == Array(items);
    RecordsTextIs(prefix);
    JsonText.PartsProfile(Array(items));
    JsonText.ContainersAre(Array(items), Compact, 0);
    JsonText.AtomsAre(Str(digest), Compact, 1);
    GoCanonical.LevelIrrelevant(own, 1, 0);
    var parts := JsonText.ItemTexts(items, Compact, 1);
    assert parts == [Quoted(digest), RecordsText(prefix), Canonical(own)];
    NoIndent(Lit("["), parts, Lit("]"), 0);
    JoinThree(Quoted(digest), RecordsText(prefix), Canonical(own), Lit(","));
    Flat(Lit("["), Quoted(digest), Lit(","), RecordsText(prefix), Canonical(own), Lit("]"));
  }

  lemma Flat(o: Text, a: Text, comma: Text, b: Text, c: Text, z: Text)
    ensures o + (a + comma + b + comma + c) + z == o + a + comma + b + comma + c + z
  {}

  // ---- what a seal says ----------------------------------------------------------------------------

  predicate Says(r: Record, key: string, v: Json) { Get(r, Lit(key)) == Some(v) }

  lemma OwnFields(call: Call)
    requires Profile(Object(Unsigned(call)))
    ensures var own := Unsigned(call);
      && Says(own, "alg", Str(call.alg)) && Says(own, "hash", Str(call.hash)) && Says(own, "t", Str(call.time))
      && Says(own, "pub", Str(call.pub)) && Says(own, "ts_source", Str(call.source))
      && Says(own, "rehash", Str(call.rehash)) && Says(own, "ephemeral_key", Bool(call.ephemeral))
      && Get(own, Lit("token_b64")) == (if HasToken(call) then Some(Str(call.token.value)) else None)
      && Get(own, Lit("token_sha3")) == (if HasToken(call) then Some(Str(call.tokenSha3)) else None)
      && |own| == if HasToken(call) then 9 else 7
  {
    hide Less, Scalars, ALG, EPHEMERAL, HASH, PUB, REHASH, SIG, TIME, TOKEN, TOKEN_SHA3, SOURCE, Get, Lit;
    FieldNames();
    UnsignedFields(call);
    var own := Unsigned(call);
    assert own[4] == Member(REHASH(), Str(call.rehash)) && own[|own| - 1] == Member(SOURCE(), Str(call.source));
    assert own[4] in own && own[|own| - 1] in own;
    GetIn(own, REHASH());
    GetIn(own, SOURCE());
    if HasToken(call) {
      assert own[6] == Member(TOKEN(), Str(call.token.value)) && own[7] == Member(TOKEN_SHA3(), Str(call.tokenSha3));
      assert own[6] in own && own[7] in own;
    } else {
      NoTokenKeys(call);
    }
    GetIn(own, TOKEN());
    GetIn(own, TOKEN_SHA3());
  }

  lemma NoTokenKeys(call: Call)
    requires !HasToken(call)
    ensures forall m :: m in Unsigned(call) ==> m.key != TOKEN() && m.key != TOKEN_SHA3()
  {
    hide HasToken;
    assert |ALG()| == 3 && |EPHEMERAL()| == 13 && |HASH()| == 4 && |PUB()| == 3 && |REHASH()| == 6 && |TIME()| == 1;
    assert |TOKEN()| == 9 && |TOKEN_SHA3()| == 10 && |SOURCE()| == 9 && TOKEN()[1] == 'o' as int
      && SOURCE()[1] == 's' as int;
  }

  /** What a sealed record says: the fields of the call by their names, the token only with its digest, and the
      signature of its message, taken with the hash it names. */
  lemma SealSays(c: Crypto, digest: Text, rs: seq<Record>, call: Call)
    requires Scalars(digest) && Records(rs) && CallOk(call) && call.hash in c.hashes
    ensures var r := SealedRecord(c, digest, rs, call); var own := Without(r, Lit("sig"));
      && Says(r, "alg", Str(call.alg)) && Says(r, "hash", Str(call.hash)) && Says(r, "t", Str(call.time))
      && Says(r, "pub", Str(call.pub)) && Says(r, "ts_source", Str(call.source))
      && Says(r, "rehash", Str(call.rehash)) && Says(r, "ephemeral_key", Bool(call.ephemeral))
      && Get(r, Lit("token_b64")) == (if HasToken(call) then Some(Str(call.token.value)) else None)
      && Get(r, Lit("token_sha3")) == (if HasToken(call) then Some(Str(call.tokenSha3)) else None)
      && |r| == (if HasToken(call) then 10 else 8)
      && Profile(Object(own)) && Says(r, "sig", Str(call.sign(c.hashes[call.hash](SignedText(digest, rs, own)))))
    ensures HasToken(call) <==> call.token.Some? && call.token.value != []
  {
    hide Less, Scalars, ALG, EPHEMERAL, HASH, PUB, REHASH, SIG, TIME, TOKEN, TOKEN_SHA3, SOURCE, Message, Profile, Put,
      Get, Unsigned, Lit, SignedText, Without;
    FieldNames();
    UnsignedProfile(call);
    NoSignature(call);
    SigIsOther();
    OwnFields(call);
    SealedProfile(c, digest, rs, call);
    var own := Unsigned(call);
    MessageIs(digest, rs, own);
    UnsignedWithout(call);
    var sig := Str(call.sign(c.hashes[call.hash](Message(digest, rs, own))));
    PutMembers(own, SIG(), sig);
    GetAll(own, sig);
  }

  lemma GetAll(own: Record, sig: Json)
    requires !Has(own, SIG())
    ensures forall k :: Get(Put(own, SIG(), sig), k) == if k == SIG() then Some(sig) else Get(own, k)
  {
    forall k ensures Get(Put(own, SIG(), sig), k) == if k == SIG() then Some(sig) else Get(own, k) {
      Producer.GetPut(own, SIG(), sig, k);
    }
  }

  // ---- what is verified ----------------------------------------------------------------------------

  /** The four texts every record must have, the time a number. */
  predicate Shaped(clock: Clock, r: Record)
  {
    && TextOf(r, "alg").Some? && TextOf(r, "pub").Some? && TextOf(r, "sig").Some? && TextOf(r, "t").Some?
    && clock(TextOf(r, "t").value).Some?
  }

  /** Made with a key of the moment: the field is there and is not one of the values Python takes for false. */
  predicate OfTheMoment(r: Record)
  {
    match Get(r, Lit("ephemeral_key"))
    case None => false
    case Some(v) => v !in {Null, Bool(false), Int(0), Str([]), Array([]), Object([])}
  }

  /** The signature holds, by a known algorithm and a known hash, over the text of the record at its place. */
  ghost predicate SignatureHolds(c: Crypto, digest: Text, rs: seq<Record>, i: nat)
    requires Scalars(digest) && Records(rs) && i < |rs|
  {
    exists alg, pub, sig, hash, own ::
      && TextOf(rs[i], "alg") == Some(alg) && TextOf(rs[i], "pub") == Some(pub) && TextOf(rs[i], "sig") == Some(sig)
      && HashOf(rs[i]) == Some(hash) && alg in c.algs && hash in c.hashes
      && own == Without(rs[i], Lit("sig")) && Profile(Object(own))
      && c.algs[alg](pub, sig, c.hashes[hash](SignedText(digest, rs[..i], own)))
  }

  /** A name whose expiry has been reached. */
  predicate Broken(policy: Policy, name: Option<Text>, t: real)
  {
    name.Some? && name.value in policy && policy[name.value] <= t
  }

  predicate Sound(policy: Policy, r: Record, t: real)
  {
    !Broken(policy, TextOf(r, "alg"), t) && !Broken(policy, HashOf(r), t)
  }

  lemma NamesAre(r: Record)
    ensures Field(r, ALG()) == TextOf(r, "alg") && Field(r, PUB()) == TextOf(r, "pub")
    ensures Field(r, SIG()) == TextOf(r, "sig") && Field(r, TIME()) == TextOf(r, "t") && HashName(r) == HashOf(r)
    ensures Ephemeral(r) <==> OfTheMoment(r)
  {
    hide Lit, Get;
    FieldNames();
  }

  lemma ShapeIs(clock: Clock, r: Record)
    ensures WellShaped(clock, r) <==> Shaped(clock, r)
    ensures WellShaped(clock, r) ==> TimeOf(clock, r) == clock(TextOf(r, "t").value).value
  {
    hide TextOf, Field, ALG, PUB, SIG, TIME, HashName, HashOf;
    NamesAre(r);
  }

  lemma SealIs(c: Crypto, digest: Text, rs: seq<Record>, i: nat)
    requires Scalars(digest) && Records(rs) && i < |rs|
    ensures SealValid(c, digest, rs, i) <==> SignatureHolds(c, digest, rs, i)
  {
    hide TextOf, Field, ALG, PUB, SIG, TIME, HashName, HashOf, Profile, Message, SignedText, Lit, Without, Scalars;
    NamesAre(rs[i]);
    MessageIs(digest, rs[..i], rs[i]);
  }

  /** The time a record gives. */
  function TimeSaid(clock: Clock, r: Record): (t: real)
  {
    match TextOf(r, "t") case Some(x) => (match clock(x) case Some(t) => t case None => 0.0) case None => 0.0
  }

  predicate KeyIn(keys: set<Text>, r: Record) { match TextOf(r, "pub") case Some(p) => p in keys case None => false }

  /** What `verify` asks of a chain: some record; each well shaped, with a signature that holds and a time the oracle
      attests, or no renewal where there is no oracle; the pinned key first and none of the moment beside it; times that
      never go back; and each record sound when the next was made, the last one now. */
  ghost predicate Asked(c: Crypto, clock: Clock, digest: Text, rs: seq<Record>, k: Check)
    requires Scalars(digest) && Records(rs)
  {
    && rs != []
    && (forall i :: 0 <= i < |rs| ==> Shaped(clock, rs[i]) && SignatureHolds(c, digest, rs, i))
    && (match k.attests case Some(f) => (forall i :: 0 <= i < |rs| ==> f(rs[i])) case None => |rs| == 1)
    && (match k.pinned
        case Some(keys) => KeyIn(keys, rs[0]) && forall i :: 0 <= i < |rs| ==> !OfTheMoment(rs[i])
        case None => true)
    && (forall i :: 1 <= i < |rs| ==> TimeSaid(clock, rs[i - 1]) <= TimeSaid(clock, rs[i]))
    && (forall i :: 1 <= i < |rs| ==> Sound(k.policy, rs[i - 1], TimeSaid(clock, rs[i])))
    && Sound(k.policy, rs[|rs| - 1], k.now)
  }

  lemma ChainMeans(c: Crypto, clock: Clock, digest: Text, rs: seq<Record>, k: Check)
    requires Scalars(digest) && Records(rs)
    ensures ChainVerifies(c, clock, digest, rs, k) <==> Asked(c, clock, digest, rs, k)
  {
    hide TextOf, Field, ALG, PUB, SIG, TIME, HashName, HashOf, Profile, Message, SignedText, Lit, Without, Scalars,
      SealValid, SignatureHolds, WellShaped, Shaped, TimeOf, TimeSaid, Ephemeral, OfTheMoment, Sound, RenewedInTime,
      OuterTrusted, KeyIn, Said;
    forall i | 0 <= i < |rs|
      ensures WellShaped(clock, rs[i]) <==> Shaped(clock, rs[i])
      ensures SealValid(c, digest, rs, i) <==> SignatureHolds(c, digest, rs, i)
      ensures Ephemeral(rs[i]) <==> OfTheMoment(rs[i])
      ensures WellShaped(clock, rs[i]) ==> Said(clock, rs[i])
    {
      ShapeIs(clock, rs[i]);
      SealIs(c, digest, rs, i);
      NamesAre(rs[i]);
      if WellShaped(clock, rs[i]) { SoundIs(clock, rs[i]); }
    }
    if rs != [] && forall i :: 0 <= i < |rs| ==> WellShaped(clock, rs[i]) {
      if k.pinned.Some? { KeyIs(clock, k.pinned.value, rs[0]); }
      OuterIs(clock, k, rs[|rs| - 1]);
      RenewalsAre(clock, k.policy, rs);
    }
  }

  /** The fields of a well-shaped record, read in either way. */
  ghost predicate Said(clock: Clock, r: Record)
    requires WellShaped(clock, r)
  {
    && Field(r, ALG()).Some? && TimeOf(clock, r) == TimeSaid(clock, r)
    && forall policy, t ::
      (AlgTrustedAt(policy, r, t) && HashTrustedAt(policy, r, t) <==> Sound(policy, r, t))
  }

  lemma SoundIs(clock: Clock, r: Record)
    requires WellShaped(clock, r)
    ensures Said(clock, r)
  {
    hide TextOf, Field, ALG, PUB, SIG, TIME, HashName, HashOf;
    NamesAre(r);
  }

  lemma OuterIs(clock: Clock, k: Check, r: Record)
    requires WellShaped(clock, r) && Said(clock, r)
    ensures Field(r, ALG()).Some? && (OuterTrusted(k.policy, r, k.now) <==> Sound(k.policy, r, k.now))
  {
    hide Field, ALG, Sound, WellShaped, AlgTrustedAt, HashTrustedAt, TimeOf, TimeSaid;
  }

  lemma TimeIs(clock: Clock, r: Record)
    requires WellShaped(clock, r) && Said(clock, r)
    ensures TimeOf(clock, r) == TimeSaid(clock, r)
  {
    hide WellShaped, TimeOf, TimeSaid;
  }

  lemma RenewalIs(clock: Clock, policy: Policy, rs: seq<Record>, i: nat)
    requires 0 < i < |rs| && WellShaped(clock, rs[i]) && WellShaped(clock, rs[i - 1])
    requires Said(clock, rs[i]) && Said(clock, rs[i - 1])
    ensures RenewedInTime(clock, policy, rs, i) <==> Sound(policy, rs[i - 1], TimeSaid(clock, rs[i]))
  {
    hide Field, ALG, Sound, WellShaped, AlgTrustedAt, HashTrustedAt, TimeOf, TimeSaid;
  }

  /** The order of the times and the renewals of a chain, read in either way. */
  lemma RenewalsAre(clock: Clock, policy: Policy, rs: seq<Record>)
    requires forall i :: 0 <= i < |rs| ==> WellShaped(clock, rs[i]) && Said(clock, rs[i])
    ensures (forall i :: 0 < i < |rs| ==> TimeOf(clock, rs[i - 1]) <= TimeOf(clock, rs[i])) <==>
      forall i :: 1 <= i < |rs| ==> TimeSaid(clock, rs[i - 1]) <= TimeSaid(clock, rs[i])
    ensures (forall i :: 0 < i < |rs| ==> RenewedInTime(clock, policy, rs, i)) <==>
      forall i :: 1 <= i < |rs| ==> Sound(policy, rs[i - 1], TimeSaid(clock, rs[i]))
  {
    hide Said, WellShaped, TimeOf, TimeSaid, Sound, RenewedInTime;
    forall i | 0 <= i < |rs| ensures TimeOf(clock, rs[i]) == TimeSaid(clock, rs[i]) { TimeIs(clock, rs[i]); }
    forall i | 0 < i < |rs|
      ensures RenewedInTime(clock, policy, rs, i) <==> Sound(policy, rs[i - 1], TimeSaid(clock, rs[i]))
    {
      RenewalIs(clock, policy, rs, i);
    }
    if forall i :: 1 <= i < |rs| ==> Sound(policy, rs[i - 1], TimeSaid(clock, rs[i])) {
      forall i | 0 < i < |rs| ensures RenewedInTime(clock, policy, rs, i) {
        assert Sound(policy, rs[i - 1], TimeSaid(clock, rs[i]));
      }
    }
  }

  lemma KeyIs(clock: Clock, keys: set<Text>, r: Record)
    requires WellShaped(clock, r)
    ensures Field(r, PUB()).Some? && (Field(r, PUB()).value in keys <==> KeyIn(keys, r))
  {
    hide TextOf, Field, ALG, PUB, SIG, TIME;
    NamesAre(r);
  }

  /** Where `verify` raises: a list or an object stands where the name of a hash belongs. */
  lemma RaisesMeans(rs: seq<Record>)
    ensures AnyUnhashable(rs) <==> exists r, v :: r in rs && Get(r, Lit("hash")) == Some(v) && (v.Array? || v.Object?)
  {
    hide Lit, Get;
    FieldNames();
    if AnyUnhashable(rs) {
      var i :| 0 <= i < |rs| && Unhashable(rs[i]);
      assert rs[i] in rs && Get(rs[i], Lit("hash")) == Some(Get(rs[i], Lit("hash")).value);
    }
  }
}
