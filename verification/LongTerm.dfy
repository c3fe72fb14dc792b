/** The renewable seal chain (cra_evidence/longterm.py): every record signs the evidence digest, all the records
    before it and its own fields. Signature algorithms and hashes are registries of functions. */
module LongTerm {
  import opened Texts
  import opened JsonValues
  import opened JsonPrinter
  import opened JsonStructure
  import opened History
  import LedgerEntries
  import Producer
  import Tip
  import TipCheck
  import Utf8

  /** The registries: signature checks by algorithm name, digests by hash name. */
  datatype Crypto = Crypto(algs: map<Text, (Text, Text, Text) -> bool>, hashes: map<Text, Text -> Text>)

  /** Instants after which a name is considered broken; a name without one is never. */
  type Policy = map<Text, real>

  /** `float(text)`, where it is a number. */
  type Clock = Text -> Option<real>

  function ALG(): (r: Text) { Lit("alg") }
  function EPHEMERAL(): (r: Text) { Lit("ephemeral_key") }
  function HASH(): (r: Text) { Lit("hash") }
  function PUB(): (r: Text) { Lit("pub") }
  function REHASH(): (r: Text) { Lit("rehash") }
  function SIG(): (r: Text) { Lit("sig") }
  function TIME(): (r: Text) { Lit("t") }
  function TOKEN(): (r: Text) { Lit("token_b64") }
  function TOKEN_SHA3(): (r: Text) { Lit("token_sha3") }
  function SOURCE(): (r: Text) { Lit("ts_source") }
  function ASSERTED(): (r: Text) { Lit("asserted") }
  function DEFAULT_HASH(): (r: Text) { Lit("sha3-256") }

  type Record = seq<Member>

  ghost predicate Records(rs: seq<Record>) { forall i :: 0 <= i < |rs| ==> Profile(Object(rs[i])) }

  function Field(r: Record, k: Text): (res: Option<Text>) { TipCheck.StrAt(r, k) }

  /** `rec.get("hash", DEFAULT_HASH)`: None where it is not a string. */
  function HashName(r: Record): (res: Option<Text>)
  {
    if Get(r, HASH()).None? then Some(DEFAULT_HASH()) else Field(r, HASH())
  }

  predicate Truthy(v: Json)
  {
    match v
    case Null => false
    case Bool(b) => b
    case Int(n) => n != 0
    case Str(s) => s != []
    case Array(items) => items != []
    case Object(ms) => ms != []
  }

  predicate Ephemeral(r: Record) { Get(r, EPHEMERAL()).Some? && Truthy(Get(r, EPHEMERAL()).value) }

  // ---- the signed message --------------------------------------------------------------------------

  function Objects(rs: seq<Record>): (r: seq<Json>) { seq(|rs|, i requires 0 <= i < |rs| => Object(rs[i])) }

  /** What a record signs, before it is digested: the evidence digest, every earlier record, its own fields. */
  function Signed(digest: Text, prefix: seq<Record>, r: Record): (res: Json)
  {
    Array([Str(digest), Array(Objects(prefix)), Object(Without(r, SIG()))])
  }

  lemma OwnProfile(r: Record)
    requires Profile(Object(r))
    ensures Profile(Object(Without(r, SIG())))
  {
    hide SIG;
    var own := Without(r, SIG());
    forall k | 0 <= k < |own| ensures Scalars(own[k].key) && Profile(own[k].val) {
      assert own[k] in r;
      var i :| 0 <= i < |r| && r[i] == own[k];
    }
  }

  lemma ThreeProfile(a: Json, b: Json, c: Json)
    requires Profile(a) && Profile(b) && Profile(c)
    ensures Profile(Array([a, b, c]))
  {
    hide Scalars, Sorted;
  }

  lemma RecordSigned(digest: Text, prefix: seq<Record>, r: Record)
    requires Scalars(digest) && Records(prefix) && Profile(Object(r))
    ensures Profile(Signed(digest, prefix, r))
  {
    OwnProfile(r);
    assert Profile(Array(Objects(prefix)));
    ThreeProfile(Str(digest), Array(Objects(prefix)), Object(Without(r, SIG())));
  }

  /** The text that is digested. */
  function Message(digest: Text, prefix: seq<Record>, r: Record): (res: Text)
    requires Scalars(digest) && Records(prefix) && Profile(Object(r))
  {
    RecordSigned(digest, prefix, r);
    Canonical(Signed(digest, prefix, r))
  }

  /** Two messages are the same text only if they are about the same digest, chain and fields. */
  lemma MessageInjective(d: Text, p: seq<Record>, r: Record, d': Text, p': seq<Record>, r': Record)
    requires Scalars(d) && Records(p) && Profile(Object(r)) && Scalars(d') && Records(p') && Profile(Object(r'))
    requires Message(d, p, r) == Message(d', p', r')
    ensures d == d' && p == p' && Without(r, SIG()) == Without(r', SIG())
  {
    hide Print, SIG, Without, Profile;
    RecordSigned(d, p, r);
    RecordSigned(d', p', r');
    CanonicalInjective(Signed(d, p, r), Signed(d', p', r'));
    var x, y := Signed(d, p, r).items, Signed(d', p', r').items;
    assert x[0] == y[0] && x[1] == y[1] && x[2] == y[2];
    SameObjects(p, p');
  }

  lemma SameObjects(a: seq<Record>, b: seq<Record>)
    requires Objects(a) == Objects(b)
    ensures a == b
  {
    assert |Objects(a)| == |a| && |Objects(b)| == |b|;
    forall i | 0 <= i < |a| ensures a[i] == b[i] {
      assert Objects(a)[i] == Object(a[i]) && Objects(b)[i] == Object(b[i]);
    }
  }

  // ---- verification --------------------------------------------------------------------------------

  predicate WellShaped(clock: Clock, r: Record)
  {
    Field(r, ALG()).Some? && Field(r, PUB()).Some? && Field(r, SIG()).Some? && Field(r, TIME()).Some?
      && clock(Field(r, TIME()).value).Some?
  }

  function TimeOf(clock: Clock, r: Record): (res: real)
    requires WellShaped(clock, r)
  {
    clock(Field(r, TIME()).value).value
  }

  /** `trusted_at`. */
  predicate TrustedAt(policy: Policy, name: Text, t: real) { name in policy ==> t < policy[name] }

  /** The name of the hash is trusted; what is not a name has no entry in any policy. */
  predicate HashTrustedAt(policy: Policy, r: Record, t: real)
  {
    HashName(r).Some? ==> TrustedAt(policy, HashName(r).value, t)
  }

  predicate AlgTrustedAt(policy: Policy, r: Record, t: real)
    requires Field(r, ALG()).Some?
  {
    TrustedAt(policy, Field(r, ALG()).value, t)
  }

  /** The record's signature verifies over its place in the chain. */
  ghost predicate SealValid(c: Crypto, digest: Text, rs: seq<Record>, i: nat)
    requires Scalars(digest) && Records(rs) && i < |rs|
  {
    var r := rs[i];
    && Field(r, ALG()).Some? && Field(r, PUB()).Some? && Field(r, SIG()).Some? && HashName(r).Some?
    && Field(r, ALG()).value in c.algs && HashName(r).value in c.hashes
    && c.algs[Field(r, ALG()).value](Field(r, PUB()).value, Field(r, SIG()).value,
                                     c.hashes[HashName(r).value](Message(digest, rs[..i], r)))
  }

  /** What the verifier is given besides the chain. */
  datatype Check = Check(now: real, policy: Policy, attests: Option<Record -> bool>, pinned: Option<set<Text>>)

  /** What a run of `verify` ends in. */
  datatype Verdict = Raised | Judged(ok: bool)

  predicate AllWellShaped(clock: Clock, rs: seq<Record>) { forall i :: 0 <= i < |rs| ==> WellShaped(clock, rs[i]) }

  /** The record names its hash by something that Python can not look up in a table. */
  predicate Unhashable(r: Record)
  {
    Get(r, HASH()).Some? && (Get(r, HASH()).value.Array? || Get(r, HASH()).value.Object?)
  }

  predicate AnyUnhashable(rs: seq<Record>) { exists i :: 0 <= i < |rs| && Unhashable(rs[i]) }

  lemma AnyMore(rs: seq<Record>, i: nat)
    requires i < |rs|
    ensures AnyUnhashable(rs[..i + 1]) <==> AnyUnhashable(rs[..i]) || Unhashable(rs[i])
  {
    hide Unhashable;
    if AnyUnhashable(rs[..i]) {
      var j :| 0 <= j < i && Unhashable(rs[..i][j]);
      assert rs[..i + 1][j] == rs[..i][j];
    }
    assert rs[..i + 1][i] == rs[i];
    assert forall j :: 0 <= j < i ==> rs[..i + 1][j] == rs[..i][j];
  }

  lemma UnhashableFails(c: Crypto, clock: Clock, digest: Text, rs: seq<Record>, k: Check)
    requires Scalars(digest) && Records(rs) && AnyUnhashable(rs)
    ensures !ChainVerifies(c, clock, digest, rs, k)
  {
    hide Message, Profile, WellShaped, RenewedInTime;
    var i :| 0 <= i < |rs| && Unhashable(rs[i]);
    assert HashName(rs[i]).None? && !SealValid(c, digest, rs, i);
  }

  /** What `ok` means. */
  ghost predicate ChainVerifies(c: Crypto, clock: Clock, digest: Text, rs: seq<Record>, k: Check)
    requires Scalars(digest) && Records(rs)
  {
    && rs != []
    && (forall i :: 0 <= i < |rs| ==> WellShaped(clock, rs[i]))
    && (k.pinned.Some? ==> Field(rs[0], PUB()).value in k.pinned.value)
    && (k.pinned.Some? ==> forall i :: 0 <= i < |rs| ==> !Ephemeral(rs[i]))
    && (forall i :: 0 <= i < |rs| ==> SealValid(c, digest, rs, i))
    && (if k.attests.Some? then forall i :: 0 <= i < |rs| ==> k.attests.value(rs[i]) else |rs| == 1)
    && (forall i :: 0 < i < |rs| ==> TimeOf(clock, rs[i - 1]) <= TimeOf(clock, rs[i]))
    && OuterTrusted(k.policy, rs[|rs| - 1], k.now)
    && (forall i :: 0 < i < |rs| ==> RenewedInTime(clock, k.policy, rs, i))
  }

  predicate OuterTrusted(policy: Policy, r: Record, now: real)
    requires Field(r, ALG()).Some?
  {
    AlgTrustedAt(policy, r, now) && HashTrustedAt(policy, r, now)
  }

  /** The record before place i was renewed while its algorithm and its hash were still trusted. */
  predicate RenewedInTime(clock: Clock, policy: Policy, rs: seq<Record>, i: nat)
    requires 0 < i < |rs| && WellShaped(clock, rs[i]) && WellShaped(clock, rs[i - 1])
  {
    AlgTrustedAt(policy, rs[i - 1], TimeOf(clock, rs[i])) && HashTrustedAt(policy, rs[i - 1], TimeOf(clock, rs[i]))
  }

  // ---- sealing -------------------------------------------------------------------------------------

  /** The arguments of one call of `seal`, with the signer's name, key and signing function. */
  datatype Call = Call(alg: Text, pub: Text, sign: Text -> Text, ephemeral: bool, time: Text, source: Text,
                       rehash: Text, hash: Text, token: Option<Text>, tokenSha3: Text)

  /** The record before its signature, its keys in order. */
  function Unsigned(call: Call): (r: Record)
  {
    [Member(ALG(), Str(call.alg)), Member(EPHEMERAL(), Bool(call.ephemeral)), Member(HASH(), Str(call.hash)),
     Member(PUB(), Str(call.pub)),
     Member(REHASH(), Str(call.rehash)), Member(TIME(), Str(call.time))]
    + (if HasToken(call) then
       [Member(TOKEN(), Str(call.token.value)), Member(TOKEN_SHA3(), Str(call.tokenSha3))] else [])
    + [Member(SOURCE(), Str(call.source))]
  }

  predicate HasToken(call: Call) { call.token.Some? && call.token.value != [] }

  /** The texts of a call can stand in a record. */
  ghost predicate CallOk(call: Call)
  {
    && Scalars(call.alg) && Scalars(call.pub) && Scalars(call.time) && Scalars(call.source) && Scalars(call.rehash)
    && Scalars(call.hash)
    && (call.token.Some? ==> Scalars(call.token.value)) && Scalars(call.tokenSha3) && forall m :: Scalars(call.sign(m))
  }

  lemma KeyOrder()
    ensures Less(ALG(), EPHEMERAL()) && Less(EPHEMERAL(), HASH()) && Less(HASH(), PUB()) && Less(PUB(), REHASH())
      && Less(REHASH(), TIME())
    ensures Scalars(ALG()) && Scalars(EPHEMERAL()) && Scalars(HASH()) && Scalars(PUB()) && Scalars(REHASH())
      && Scalars(TIME())
  {
    assert ALG()[0] == 'a' as int && EPHEMERAL()[0] == 'e' as int && HASH()[0] == 'h' as int && PUB()[0] == 'p' as int;
    assert REHASH()[0] == 'r' as int && TIME()[0] == 't' as int;
  }

  lemma TokenOrder()
    ensures Less(TIME(), TOKEN()) && Less(TOKEN(), TOKEN_SHA3()) && Less(TOKEN_SHA3(), SOURCE())
      && Less(TIME(), SOURCE())
    ensures Scalars(TOKEN()) && Scalars(TOKEN_SHA3()) && Scalars(SOURCE()) && Scalars(SIG())
  {
    hide Less;
    var t, a, b, c := TIME(), TOKEN(), TOKEN_SHA3(), SOURCE();
    PrefixLess(t, a[1..]);
    assert t + a[1..] == a;
    PrefixLess(t, c[1..]);
    assert t + c[1..] == c;
    assert a[..6] == b[..6] && a[6] == 'b' as int && b[6] == 's' as int;
    Utf8.LessAtDifference(a, b, 6);
    assert b[..1] == c[..1] && b[1] == 'o' as int && c[1] == 's' as int;
    Utf8.LessAtDifference(b, c, 1);
  }

  lemma PrefixLess(p: Text, x: Text)
    requires x != []
    ensures Less(p, p + x)
  {
    hide Less;
    Utf8.LessAfterPrefix(p, [], x);
    assert p + [] == p;
    EmptyLess(x);
  }

  lemma EmptyLess(x: Text)
    requires x != []
    ensures Less([], x)
  {}

  lemma UnsignedProfile(call: Call)
    requires CallOk(call)
    ensures Profile(Object(Unsigned(call)))
  {
    hide Less, Scalars, ALG, EPHEMERAL, HASH, PUB, REHASH, SIG, TIME, TOKEN, TOKEN_SHA3, SOURCE;
    KeyOrder();
    TokenOrder();
    Tip.InOrder(Unsigned(call));
  }

  lemma NoSignature(call: Call)
    ensures !Has(Unsigned(call), SIG())
  {
    hide Less, ALG, EPHEMERAL, HASH, PUB, REHASH, SIG, TIME, TOKEN, TOKEN_SHA3, SOURCE;
    SigIsOther();
  }

  lemma SigIsOther()
    ensures SIG() != ALG() && SIG() != EPHEMERAL() && SIG() != HASH() && SIG() != PUB() && SIG() != REHASH()
      && SIG() != TIME()
    ensures SIG() != TOKEN() && SIG() != TOKEN_SHA3() && SIG() != SOURCE()
  {
    assert |SIG()| == 3 && SIG()[0] == 's' as int && ALG()[0] == 'a' as int && PUB()[0] == 'p' as int;
    assert |EPHEMERAL()| == 13 && |HASH()| == 4 && |REHASH()| == 6 && |TIME()| == 1 && |TOKEN()| == 9
      && |TOKEN_SHA3()| == 10 && |SOURCE()| == 9;
  }

  /** The signed record. */
  function SealedRecord(c: Crypto, digest: Text, rs: seq<Record>, call: Call): (r: Record)
    requires Scalars(digest) && Records(rs) && CallOk(call) && call.hash in c.hashes
  {
    UnsignedProfile(call);
    Put(Unsigned(call), SIG(), Str(call.sign(c.hashes[call.hash](Message(digest, rs, Unsigned(call))))))
  }

  /** A signer whose signatures verify under its own key. */
  ghost predicate Honest(c: Crypto, call: Call)
  {
    call.alg in c.algs && call.hash in c.hashes && forall m: Text :: c.algs[call.alg](call.pub, call.sign(m), m)
  }

  lemma SealedProfile(c: Crypto, digest: Text, rs: seq<Record>, call: Call)
    requires Scalars(digest) && Records(rs) && CallOk(call) && call.hash in c.hashes
    ensures Profile(Object(SealedRecord(c, digest, rs, call)))
    ensures Without(SealedRecord(c, digest, rs, call), SIG()) == Unsigned(call)
  {
    hide Less, Scalars, SIG, Unsigned, Message;
    UnsignedProfile(call);
    NoSignature(call);
    var own, sig := Unsigned(call), Str(call.sign(c.hashes[call.hash](Message(digest, rs, Unsigned(call)))));
    TokenOrder();
    PutSorted(own, SIG(), sig);
    PutMembers(own, SIG(), sig);
    Producer.GetPut(own, SIG(), sig, SIG());
    var r := Put(own, SIG(), sig);
    forall i | 0 <= i < |r| ensures Scalars(r[i].key) && Profile(r[i].val) { assert r[i] in r; }
  }

  /** The fields a sealed record is read back with. */
  lemma SealedFields(c: Crypto, digest: Text, rs: seq<Record>, call: Call)
    requires Scalars(digest) && Records(rs) && CallOk(call) && call.hash in c.hashes && Profile(Object(Unsigned(call)))
    ensures var r := SealedRecord(c, digest, rs, call);
      && Field(r, ALG()) == Some(call.alg) && Field(r, PUB()) == Some(call.pub) && HashName(r) == Some(call.hash)
      && Field(r, TIME()) == Some(call.time) && Ephemeral(r) == call.ephemeral
      && Field(r, SIG()) == Some(call.sign(c.hashes[call.hash](Message(digest, rs, Unsigned(call)))))
  {
    hide Less, Scalars, ALG, EPHEMERAL, HASH, PUB, REHASH, SIG, TIME, TOKEN, TOKEN_SHA3, SOURCE, Message, Profile, Put,
      Get, Unsigned;
    UnsignedProfile(call);
    NoSignature(call);
    SigIsOther();
    UnsignedFields(call);
    var own, sig := Unsigned(call), Str(call.sign(c.hashes[call.hash](Message(digest, rs, Unsigned(call)))));
    Producer.GetPut(own, SIG(), sig, SIG());
    Producer.GetPut(own, SIG(), sig, ALG());
    Producer.GetPut(own, SIG(), sig, PUB());
    Producer.GetPut(own, SIG(), sig, HASH());
    Producer.GetPut(own, SIG(), sig, TIME());
    Producer.GetPut(own, SIG(), sig, EPHEMERAL());
  }

  lemma UnsignedFields(call: Call)
    requires Profile(Object(Unsigned(call)))
    ensures var own := Unsigned(call);
      && Get(own, ALG()) == Some(Str(call.alg)) && Get(own, PUB()) == Some(Str(call.pub))
      && Get(own, HASH()) == Some(Str(call.hash))
      && Get(own, TIME()) == Some(Str(call.time)) && Get(own, EPHEMERAL()) == Some(Bool(call.ephemeral))
  {
    hide Less, Scalars, ALG, EPHEMERAL, HASH, PUB, REHASH, SIG, TIME, TOKEN, TOKEN_SHA3, SOURCE, Get;
    var own := Unsigned(call);
    assert own[0].key == ALG() && own[1].key == EPHEMERAL() && own[2].key == HASH() && own[3].key == PUB()
      && own[5].key == TIME();
    assert own[0] in own && own[1] in own && own[2] in own && own[3] in own && own[5] in own;
    GetIn(own, ALG());
    GetIn(own, EPHEMERAL());
    GetIn(own, HASH());
    GetIn(own, PUB());
    GetIn(own, TIME());
  }

  // ---- runs ----------------------------------------------------------------------------------------

  ghost predicate CallsOk(c: Crypto, calls: seq<Call>)
  {
    forall i :: 0 <= i < |calls| ==> CallOk(calls[i]) && calls[i].hash in c.hashes
  }

  function OneMoreSeal(c: Crypto, digest: Text, before: seq<Record>, call: Call): (rs: seq<Record>)
    requires Scalars(digest) && Records(before) && CallOk(call) && call.hash in c.hashes
    ensures Records(rs) && |rs| == |before| + 1
  {
    SealedProfile(c, digest, before, call);
    before + [SealedRecord(c, digest, before, call)]
  }

  /** The chain after these calls. */
  function SealAll(c: Crypto, digest: Text, calls: seq<Call>): (rs: seq<Record>)
    requires Scalars(digest) && CallsOk(c, calls)
    ensures Records(rs) && |rs| == |calls|
  {
    if calls == [] then [] else OneMoreSeal(c, digest, SealAll(c, digest, calls[..|calls| - 1]), calls[|calls| - 1])
  }

  ghost predicate IsSealOf(c: Crypto, digest: Text, before: seq<Record>, call: Call, r: Record)
  {
    && Scalars(digest) && Records(before) && CallOk(call) && call.hash in c.hashes
    && r == SealedRecord(c, digest, before, call)
  }

  ghost predicate IsRun(c: Crypto, digest: Text, calls: seq<Call>, rs: seq<Record>)
  {
    Scalars(digest) && CallsOk(c, calls) && rs == SealAll(c, digest, calls)
  }

  /** Record i of a run is the seal of call i over the records before it. */
  lemma {:induction false} RecordOfRun(c: Crypto, digest: Text, calls: seq<Call>, i: nat)
    requires Scalars(digest) && CallsOk(c, calls) && i < |calls|
    ensures var rs := SealAll(c, digest, calls);
      IsRun(c, digest, calls[..i], rs[..i]) && IsSealOf(c, digest, rs[..i], calls[i], rs[i])
    decreases |calls|
  {
    hide SealedRecord, CallOk, Profile;
    var n := |calls| - 1;
    var rs, before := SealAll(c, digest, calls), SealAll(c, digest, calls[..n]);
    assert rs[..n] == before;
    if i < n {
      RecordOfRun(c, digest, calls[..n], i);
      assert rs[..i] == before[..i] && calls[..n][..i] == calls[..i] && calls[..n][i] == calls[i];
    }
  }

  /** The record an honest call made verifies at its place. */
  lemma SealIsValid(c: Crypto, digest: Text, calls: seq<Call>, i: nat)
    requires Scalars(digest) && CallsOk(c, calls) && i < |calls| && Honest(c, calls[i])
    ensures SealValid(c, digest, SealAll(c, digest, calls), i)
  {
    hide SealAll, SealedRecord, Unsigned, ALG, PUB, SIG, HASH, TIME, Get, Without, Print, CallOk, Profile, Scalars;
    var rs := SealAll(c, digest, calls);
    RecordOfRun(c, digest, calls, i);
    CallIsOk(c, calls, i);
    UnsignedProfile(calls[i]);
    SealedProfile(c, digest, rs[..i], calls[i]);
    SealedFields(c, digest, rs[..i], calls[i]);
    UnsignedWithout(calls[i]);
    SameMessage(digest, rs[..i], rs[i], Unsigned(calls[i]));
  }

  lemma UnsignedWithout(call: Call)
    ensures Without(Unsigned(call), SIG()) == Unsigned(call)
  {
    hide SIG, Unsigned, Without;
    NoSignature(call);
    LedgerEntries.WithoutNone(Unsigned(call), SIG());
  }

  lemma CallIsOk(c: Crypto, calls: seq<Call>, i: nat)
    requires CallsOk(c, calls) && i < |calls|
    ensures CallOk(calls[i]) && calls[i].hash in c.hashes
  {}

  /** The signature is not part of what is signed. */
  lemma SameMessage(digest: Text, prefix: seq<Record>, r: Record, own: Record)
    requires Scalars(digest) && Records(prefix) && Profile(Object(r)) && Profile(Object(own))
    requires Without(r, SIG()) == own && Without(own, SIG()) == own
    ensures Message(digest, prefix, r) == Message(digest, prefix, own)
  {
    hide Print, SIG, Without, Profile;
  }

  /** A run of honest calls at times that never go back, each renewed while what it renews was trusted. */
  ghost predicate GoodRun(c: Crypto, clock: Clock, calls: seq<Call>, k: Check)
  {
    && calls != [] && CallsOk(c, calls)
    && (forall i :: 0 <= i < |calls| ==> Honest(c, calls[i]) && clock(calls[i].time).Some?)
    && (forall i :: 0 < i < |calls| ==> Later(clock, k.policy, calls[i - 1], calls[i]))
    && (k.pinned.Some? ==> calls[0].pub in k.pinned.value && forall i :: 0 <= i < |calls| ==> !calls[i].ephemeral)
    && Trusts(k.policy, calls[|calls| - 1], k.now)
  }

  ghost predicate Trusts(policy: Policy, call: Call, t: real)
  {
    TrustedAt(policy, call.alg, t) && TrustedAt(policy, call.hash, t)
  }

  ghost predicate Later(clock: Clock, policy: Policy, a: Call, b: Call)
  {
    clock(a.time).Some? && clock(b.time).Some? && clock(a.time).value <= clock(b.time).value
      && Trusts(policy, a, clock(b.time).value)
  }

  /** What the verifier reads in record i of a run. */
  lemma FieldsOfRun(c: Crypto, digest: Text, calls: seq<Call>, i: nat)
    requires Scalars(digest) && CallsOk(c, calls) && i < |calls|
    ensures var r := SealAll(c, digest, calls)[i];
      && Field(r, ALG()) == Some(calls[i].alg) && Field(r, PUB()) == Some(calls[i].pub)
      && HashName(r) == Some(calls[i].hash)
      && Field(r, TIME()) == Some(calls[i].time) && Ephemeral(r) == calls[i].ephemeral && Field(r, SIG()).Some?
  {
    hide SealAll, SealedRecord, Unsigned, ALG, PUB, SIG, HASH, TIME, Get, Without, Print, CallOk, Profile, Scalars,
      HashName, Ephemeral, Field;
    var rs := SealAll(c, digest, calls);
    RecordOfRun(c, digest, calls, i);
    CallIsOk(c, calls, i);
    UnsignedProfile(calls[i]);
    SealedFields(c, digest, rs[..i], calls[i]);
  }

  /** Any run of seals whose times are attested verifies: a single seal, or any number of renewals. */
  lemma RunVerifies(c: Crypto, clock: Clock, digest: Text, calls: seq<Call>, k: Check)
    requires Scalars(digest) && GoodRun(c, clock, calls, k)
    requires var rs := SealAll(c, digest, calls);
      if k.attests.Some? then forall i :: 0 <= i < |rs| ==> k.attests.value(rs[i]) else |rs| == 1
    ensures ChainVerifies(c, clock, digest, SealAll(c, digest, calls), k)
  {
    hide SealAll, SealedRecord, Unsigned, ALG, PUB, SIG, HASH, TIME, Get, Without, Print, CallOk, Profile, Scalars,
      HashName, Ephemeral, Field, Honest, SealValid, TrustedAt;
    var rs := SealAll(c, digest, calls);
    forall i | 0 <= i < |rs|
      ensures WellShaped(clock, rs[i]) && SealValid(c, digest, rs, i) && Ephemeral(rs[i]) == calls[i].ephemeral
      ensures Field(rs[i], ALG()) == Some(calls[i].alg) && HashName(rs[i]) == Some(calls[i].hash)
        && Field(rs[i], PUB()) == Some(calls[i].pub)
      ensures TimeOf(clock, rs[i]) == clock(calls[i].time).value
    {
      FieldsOfRun(c, digest, calls, i);
      SealIsValid(c, digest, calls, i);
    }
    forall i | 0 < i < |rs| ensures TimeOf(clock, rs[i - 1]) <= TimeOf(clock, rs[i])
      && RenewedInTime(clock, k.policy, rs, i) {
      assert Later(clock, k.policy, calls[i - 1], calls[i]);
    }
  }

  // ---- altered chains ------------------------------------------------------------------------------

  /** A key, by its algorithm, has signed the digest of a text. */
  datatype Signing = Signing(alg: Text, pub: Text, hash: Text, text: Text)

  /** What the record at place i signs. */
  function TextAt(digest: Text, rs: seq<Record>, i: nat): (r: Text)
    requires Scalars(digest) && Records(rs) && i < |rs|
  {
    Message(digest, rs[..i], rs[i])
  }

  ghost predicate ByKeyOf(r: Record, s: Signing) { Field(r, ALG()) == Some(s.alg) && Field(r, PUB()) == Some(s.pub) }

  /** The text of the signing and this text have one digest, each under its own hash. */
  ghost predicate SameDigest(c: Crypto, s: Signing, hash: Option<Text>, text: Text)
  {
    s.hash in c.hashes && hash.Some? && hash.value in c.hashes && c.hashes[s.hash](s.text) == c.hashes[hash.value](text)
  }

  /** The seal at place i is accepted over a digest its key has never signed, in this chain or anywhere else. */
  ghost predicate Forged(c: Crypto, signed: set<Signing>, digest: Text, rs: seq<Record>, i: nat)
    requires Scalars(digest) && Records(rs) && i < |rs|
  {
    SealValid(c, digest, rs, i) &&
    forall s :: s in signed && ByKeyOf(rs[i], s) ==> !SameDigest(c, s, HashName(rs[i]), TextAt(digest, rs, i))
  }

  /** The message at place i has the digest of another text that its key has signed. */
  ghost predicate Coincides(c: Crypto, signed: set<Signing>, digest: Text, rs: seq<Record>, i: nat)
    requires Scalars(digest) && Records(rs) && i < |rs|
  {
    var text := TextAt(digest, rs, i);
    exists s :: s in signed && ByKeyOf(rs[i], s) && s.text != text && SameDigest(c, s, HashName(rs[i]), text)
  }

  /** The key of the record at place i has signed that very message. */
  ghost predicate Endorsed(c: Crypto, signed: set<Signing>, digest: Text, rs: seq<Record>, i: nat)
    requires Scalars(digest) && Records(rs) && i < |rs|
  {
    var text := TextAt(digest, rs, i);
    exists s :: s in signed && ByKeyOf(rs[i], s) && s.text == text && SameDigest(c, s, HashName(rs[i]), text)
  }

  /** One signature of one key is accepted for the messages of both chains at place i, whose digests differ. */
  ghost predicate Ambiguous(c: Crypto, digest: Text, rs: seq<Record>, other: seq<Record>, i: nat)
    requires Scalars(digest) && Records(rs) && Records(other) && i < |rs| && i < |other|
  {
    && rs[i] == other[i] && SealValid(c, digest, rs, i) && SealValid(c, digest, other, i)
    && var hash := HashName(rs[i]).value;
       c.hashes[hash](TextAt(digest, rs, i)) != c.hashes[hash](TextAt(digest, other, i))
  }

  ghost predicate AllValid(c: Crypto, digest: Text, rs: seq<Record>)
    requires Scalars(digest) && Records(rs)
  {
    forall i :: 0 <= i < |rs| ==> SealValid(c, digest, rs, i)
  }

  /** A chain whose seals their keys have made. */
  ghost predicate Genuine(c: Crypto, signed: set<Signing>, digest: Text, rs: seq<Record>)
    requires Scalars(digest) && Records(rs)
  {
    AllValid(c, digest, rs) && forall i :: 0 <= i < |rs| ==> Endorsed(c, signed, digest, rs, i)
  }

  /** No message of the first chain is the one at this place of the second. */
  ghost predicate Outside(digest: Text, rs: seq<Record>, digest': Text, rs': seq<Record>, i: nat)
    requires Scalars(digest) && Records(rs) && Scalars(digest') && Records(rs') && i < |rs'|
  {
    forall j :: 0 <= j < |rs| ==> TextAt(digest, rs, j) != TextAt(digest', rs', i)
  }

  /** Any chain that is not the first one up to and with this place, or is about another digest: if its seal there
      verifies, then it was forged, or its key has signed another text with that digest, or its key has signed that
      very message, which is none of the first chain. */
  lemma AlteredSeal(c: Crypto, signed: set<Signing>, digest: Text, rs: seq<Record>, digest': Text, rs': seq<Record>,
                    i: nat)
    requires Scalars(digest) && Records(rs) && Scalars(digest') && Records(rs') && i < |rs| && i < |rs'|
    requires SealValid(c, digest', rs', i)
    requires digest != digest' || rs[..i] != rs'[..i] || Without(rs[i], SIG()) != Without(rs'[i], SIG())
    ensures Outside(digest, rs, digest', rs', i)
    ensures Forged(c, signed, digest', rs', i) || Coincides(c, signed, digest', rs', i)
      || Endorsed(c, signed, digest', rs', i)
  {
    hide Message, HashName, Field, Profile, Without, SIG, ByKeyOf, SameDigest;
    forall j | 0 <= j < |rs| ensures TextAt(digest, rs, j) != TextAt(digest', rs', i) {
      TextsDiffer(digest, rs, j, digest', rs', i);
    }
  }

  /** A message names its place, so an altered one is no message of the chain, of this record or of another. */
  lemma TextsDiffer(digest: Text, rs: seq<Record>, j: nat, digest': Text, rs': seq<Record>, i: nat)
    requires Scalars(digest) && Records(rs) && Scalars(digest') && Records(rs') && i < |rs| && i < |rs'| && j < |rs|
    requires digest != digest' || rs[..i] != rs'[..i] || Without(rs[i], SIG()) != Without(rs'[i], SIG())
    ensures TextAt(digest, rs, j) != TextAt(digest', rs', i)
  {
    hide Message, Profile, Without, SIG;
    var a, b := rs[..j], rs'[..i];
    assert |a| == j && |b| == i;
    if Message(digest, a, rs[j]) == Message(digest', b, rs'[i]) {
      MessageInjective(digest, a, rs[j], digest', b, rs'[i]);
    }
  }

  /** A chain with one record altered, in any field but its signature, whose seals all verify. An earlier record than
      the last: at the next record a seal was forged, or texts coincide, or one signature stands for two digests. The
      last record: forged, or coinciding, or its key, the old one or another, has signed that very message elsewhere. */
  lemma AlteredChain(c: Crypto, signed: set<Signing>, digest: Text, rs: seq<Record>, i: nat, altered: seq<Record>)
    requires Scalars(digest) && Records(rs) && Records(altered) && i < |rs| == |altered|
    requires altered == rs[i := altered[i]] && Without(altered[i], SIG()) != Without(rs[i], SIG())
    requires Genuine(c, signed, digest, rs) && AllValid(c, digest, altered)
    ensures i + 1 < |rs| ==>
      Forged(c, signed, digest, altered, i + 1) || Coincides(c, signed, digest, altered, i + 1)
        || Ambiguous(c, digest, rs, altered, i + 1)
    ensures i + 1 == |rs| ==>
      Forged(c, signed, digest, altered, i) || Coincides(c, signed, digest, altered, i)
      || (Endorsed(c, signed, digest, altered, i) && Outside(digest, rs, digest, altered, i))
  {
    hide TextAt, Profile, Without, SIG, Coincides, Forged, SealValid, Outside, ByKeyOf, SameDigest;
    if i + 1 == |rs| {
      AlteredSeal(c, signed, digest, rs, digest, altered, i);
    } else {
      assert rs[..i + 1][i] == rs[i] && altered[..i + 1][i] == altered[i];
      AlteredSeal(c, signed, digest, rs, digest, altered, i + 1);
      TextsDiffer(digest, rs, i + 1, digest, altered, i + 1);
      NextIsFixed(c, signed, digest, rs, altered, i + 1);
    }
  }

  /** The same record over two different messages: its one signature is accepted for both. */
  lemma NextIsFixed(c: Crypto, signed: set<Signing>, digest: Text, rs: seq<Record>, altered: seq<Record>, i: nat)
    requires Scalars(digest) && Records(rs) && Records(altered) && i < |rs| && i < |altered| && rs[i] == altered[i]
    requires SealValid(c, digest, rs, i) && SealValid(c, digest, altered, i) && Endorsed(c, signed, digest, rs, i)
    requires TextAt(digest, rs, i) != TextAt(digest, altered, i)
    ensures Coincides(c, signed, digest, altered, i) || Ambiguous(c, digest, rs, altered, i)
  {
    hide Message, HashName, Field, Profile;
    var s :| s in signed && ByKeyOf(rs[i], s) && s.text == TextAt(digest, rs, i)
      && SameDigest(c, s, HashName(rs[i]), s.text);
  }

  /** A chain that honest calls made is genuine, for every set of signings that holds theirs. */
  lemma RunIsGenuine(c: Crypto, signed: set<Signing>, digest: Text, calls: seq<Call>)
    requires Scalars(digest) && CallsOk(c, calls) && forall i :: 0 <= i < |calls| ==> Honest(c, calls[i])
    requires var rs := SealAll(c, digest, calls);
      forall i :: 0 <= i < |rs| ==> Signing(calls[i].alg, calls[i].pub, calls[i].hash, TextAt(digest, rs, i)) in signed
    ensures Genuine(c, signed, digest, SealAll(c, digest, calls))
  {
    hide SealAll, SealValid, CallOk, Scalars, HashName, Field, TextAt, Profile, ALG, PUB, SIG, TIME, Ephemeral;
    var rs := SealAll(c, digest, calls);
    forall i | 0 <= i < |rs| ensures SealValid(c, digest, rs, i) && Endorsed(c, signed, digest, rs, i) {
      SealIsValid(c, digest, calls, i);
      FieldsOfRun(c, digest, calls, i);
      var s := Signing(calls[i].alg, calls[i].pub, calls[i].hash, TextAt(digest, rs, i));
      assert s in signed && ByKeyOf(rs[i], s) && SameDigest(c, s, HashName(rs[i]), s.text);
    }
  }

  /** The chain with its last record exchanged for these fields under this signature. */
  function Exchanged(rs: seq<Record>, own: Record, sig: Text): (r: seq<Record>)
    requires rs != []
  {
    rs[..|rs| - 1] + [Put(own, SIG(), Str(sig))]
  }

  /** Fields a record can have before it is signed. */
  ghost predicate Signable(c: Crypto, own: Record)
  {
    && Profile(Object(own)) && !Has(own, SIG()) && Field(own, ALG()).Some? && Field(own, ALG()).value in c.algs
    && Field(own, PUB()).Some? && HashName(own).Some? && HashName(own).value in c.hashes
  }

  /** The key these fields name has signed a text with this digest: this one, or one that coincides with it. */
  ghost predicate KeySigned(c: Crypto, signed: set<Signing>, own: Record, text: Text)
  {
    exists s :: s in signed && ByKeyOf(own, s) && SameDigest(c, s, HashName(own), text)
  }

  /** Who has signed has a signature to show. */
  ghost predicate Answered(c: Crypto, signed: set<Signing>)
  {
    forall s :: s in signed && s.alg in c.algs && s.hash in c.hashes ==>
      exists sig :: Scalars(sig) && c.algs[s.alg](s.pub, sig, c.hashes[s.hash](s.text))
  }

  lemma PutSignature(own: Record, sig: Text)
    requires Profile(Object(own)) && !Has(own, SIG()) && Scalars(sig)
    ensures var r := Put(own, SIG(), Str(sig));
      && Profile(Object(r)) && Without(r, SIG()) == own && Field(r, SIG()) == Some(sig) && HashName(r) == HashName(own)
      && Field(r, ALG()) == Field(own, ALG()) && Field(r, PUB()) == Field(own, PUB())
  {
    hide Less, ALG, EPHEMERAL, HASH, PUB, REHASH, SIG, TIME, TOKEN, TOKEN_SHA3, SOURCE, Get;
    SigIsOther();
    TokenOrder();
    var r := Put(own, SIG(), Str(sig));
    PutSorted(own, SIG(), Str(sig));
    PutMembers(own, SIG(), Str(sig));
    Producer.GetPut(own, SIG(), Str(sig), SIG());
    Producer.GetPut(own, SIG(), Str(sig), ALG());
    Producer.GetPut(own, SIG(), Str(sig), PUB());
    Producer.GetPut(own, SIG(), Str(sig), HASH());
    forall i | 0 <= i < |r| ensures Scalars(r[i].key) && Profile(r[i].val) { assert r[i] in r; }
  }

  ghost predicate ExchangeStands(c: Crypto, signed: set<Signing>, digest: Text, rs: seq<Record>, own: Record, sig: Text)
    requires Scalars(digest) && Records(rs) && rs != [] && Signable(c, own)
  {
    && Scalars(sig) && Records(Exchanged(rs, own, sig)) && AllValid(c, digest, Exchanged(rs, own, sig))
    && !Forged(c, signed, digest, Exchanged(rs, own, sig), |rs| - 1)
  }

  /** The exact condition: the last record of a valid chain can be exchanged for other fields, with nothing forged and
      every seal valid, if and only if the key they name has signed their message, or one with the same digest. */
  lemma LastSealExactly(c: Crypto, signed: set<Signing>, digest: Text, rs: seq<Record>, own: Record)
    requires Scalars(digest) && Records(rs) && rs != [] && AllValid(c, digest, rs) && Signable(c, own)
      && Answered(c, signed)
    ensures (exists sig :: ExchangeStands(c, signed, digest, rs, own, sig))
      <==> KeySigned(c, signed, own, Message(digest, rs[..|rs| - 1], own))
  {
    hide Message, HashName, Field, Profile, Without, SIG, ALG, PUB, Put, Has, Scalars;
    var n := |rs| - 1;
    var text := Message(digest, rs[..n], own);
    if sig :| ExchangeStands(c, signed, digest, rs, own, sig) {
      LastOf(c, digest, rs, own, sig);
    }
    if KeySigned(c, signed, own, text) {
      var s :| s in signed && ByKeyOf(own, s) && SameDigest(c, s, HashName(own), text);
      var sig :| Scalars(sig) && c.algs[s.alg](s.pub, sig, c.hashes[s.hash](s.text));
      LastOf(c, digest, rs, own, sig);
      assert ExchangeStands(c, signed, digest, rs, own, sig);
    }
  }

  /** The exchanged chain, read record by record. */
  lemma LastOf(c: Crypto, digest: Text, rs: seq<Record>, own: Record, sig: Text)
    requires Scalars(digest) && Records(rs) && rs != [] && AllValid(c, digest, rs) && Signable(c, own) && Scalars(sig)
    ensures var n, e := |rs| - 1, Exchanged(rs, own, sig);
      && Records(e) && |e| == |rs| && TextAt(digest, e, n) == Message(digest, rs[..n], own)
      && HashName(e[n]) == HashName(own)
      && (forall s :: ByKeyOf(e[n], s) <==> ByKeyOf(own, s))
      && (AllValid(c, digest, e) <==>
          c.algs[Field(own, ALG()).value](Field(own, PUB()).value, sig,
                                          c.hashes[HashName(own).value](TextAt(digest, e, n))))
  {
    hide Message, HashName, Field, Profile, Without, SIG, ALG, PUB, Put, Has, Scalars;
    var n, e := |rs| - 1, Exchanged(rs, own, sig);
    PutSignature(own, sig);
    assert e[..n] == rs[..n];
    SignedFieldsOnly(digest, rs[..n], e[n], own);
    assert SealValid(c, digest, e, n) <==>
      c.algs[Field(own, ALG()).value](Field(own, PUB()).value, sig,
                                      c.hashes[HashName(own).value](TextAt(digest, e, n)));
    forall i | 0 <= i < n ensures SealValid(c, digest, e, i) {
      assert SealValid(c, digest, rs, i) && e[..i] == rs[..i] && e[i] == rs[i];
    }
  }

  lemma SignedFieldsOnly(digest: Text, prefix: seq<Record>, r: Record, own: Record)
    requires Scalars(digest) && Records(prefix) && Profile(Object(r)) && Profile(Object(own))
      && Without(r, SIG()) == own && !Has(own, SIG())
    ensures Message(digest, prefix, r) == Message(digest, prefix, own)
  {
    hide Message, Profile, SIG, Without, Scalars;
    LedgerEntries.WithoutNone(own, SIG());
    SameMessage(digest, prefix, r, own);
  }

  /** The oracle attests every time; without one, there is a single seal. */
  ghost predicate Attested(k: Check, rs: seq<Record>)
  {
    if k.attests.Some? then forall i :: 0 <= i < |rs| ==> k.attests.value(rs[i]) else |rs| == 1
  }

  /** The exception is real, and `verify` answers ok on it. Take a chain that verifies, and replace its last seal by
      another honest one, of its own key or of any other. The new chain verifies too, unless the seal replaced was the
      only one and the new key is not pinned: the pin is on the first record, so it closes that case and no other. */
  lemma LastSealCanBeReplaced(c: Crypto, clock: Clock, digest: Text, calls: seq<Call>, other: seq<Call>, k: Check)
    requires Scalars(digest) && GoodRun(c, clock, calls, k) && GoodRun(c, clock, other, k.(pinned := None))
    requires |other| == |calls| && other[..|calls| - 1] == calls[..|calls| - 1]
    requires Unsigned(other[|calls| - 1]) != Unsigned(calls[|calls| - 1])
    requires Attested(k, SealAll(c, digest, calls)) && Attested(k, SealAll(c, digest, other))
    requires k.pinned.Some? ==> !other[|calls| - 1].ephemeral
    ensures ChainVerifies(c, clock, digest, SealAll(c, digest, calls), k)
    ensures SealAll(c, digest, other)[..|calls| - 1] == SealAll(c, digest, calls)[..|calls| - 1]
    ensures Without(SealAll(c, digest, other)[|calls| - 1], SIG())
      != Without(SealAll(c, digest, calls)[|calls| - 1], SIG())
    ensures ChainVerifies(c, clock, digest, SealAll(c, digest, other), k)
      <==> k.pinned.None? || |calls| > 1 || other[0].pub in k.pinned.value
  {
    hide SealAll, SealValid, CallOk, Scalars, Honest, SealedRecord, Profile, Unsigned, WellShaped, Later, Field,
      HashName, Ephemeral, Trusts, Without, SIG, ALG, PUB, TIME;
    var n := |calls| - 1;
    RunVerifies(c, clock, digest, calls, k);
    RecordOfRun(c, digest, calls, n);
    RecordOfRun(c, digest, other, n);
    SealedProfile(c, digest, SealAll(c, digest, calls)[..n], calls[n]);
    SealedProfile(c, digest, SealAll(c, digest, other)[..n], other[n]);
    FieldsOfRun(c, digest, other, 0);
    if k.pinned.None? || n > 0 || other[0].pub in k.pinned.value {
      assert n > 0 ==> other[..n][0] == calls[..n][0];
      forall i | 0 <= i < n ensures other[i] == calls[i] { assert other[..n][i] == calls[..n][i]; }
      RunVerifies(c, clock, digest, other, k);
    }
  }

  // ---- renewal -------------------------------------------------------------------------------------

  function Expiry(policy: Policy, name: Text): (r: Option<real>) { if name in policy then Some(policy[name]) else None }

  /** `renewal_due`: the earlier of the two expiries, where the names are not empty. What is not a name has none. */
  predicate RenewalDue(policy: Policy, alg: Text, hash: Option<Text>, now: real, margin: real)
  {
    var a := if alg != [] then Expiry(policy, alg) else None;
    var b := if hash.Some? && hash.value != [] then Expiry(policy, hash.value) else None;
    if a.None? && b.None? then false
    else
      var breaks := if a.None? then b.value else if b.None? || a.value <= b.value then a.value else b.value;
      now + margin >= breaks
  }

  /** Of the two names the empty one is past its expiry, and no other is. */
  predicate OnlyEmptyIsBroken(policy: Policy, alg: Text, hash: Option<Text>, now: real)
  {
    && (alg == [] || hash == Some([])) && !TrustedAt(policy, [], now)
    && (alg != [] ==> TrustedAt(policy, alg, now))
    && (hash.Some? && hash.value != [] ==> TrustedAt(policy, hash.value, now))
  }

  /** With no margin, renewal is due exactly when `verify` calls the outer algorithm or hash broken, except where the
      name that broke is empty: `renewal_due` skips an empty name and `verify` does not. */
  lemma RenewalDueExactly(policy: Policy, r: Record, now: real)
    requires Field(r, ALG()).Some?
    ensures var alg, hash := Field(r, ALG()).value, HashName(r);
      (RenewalDue(policy, alg, hash, now, 0.0) <==> !OuterTrusted(policy, r, now))
      <==> !OnlyEmptyIsBroken(policy, alg, hash, now)
  {
    hide Field, HashName, ALG;
  }

  /** With a margin it is due exactly when one of the two names, not empty, has an expiry that is reached by then:
      a longer margin only asks for the renewal sooner. */
  lemma RenewalDueBy(policy: Policy, alg: Text, hash: Option<Text>, now: real, margin: real)
    ensures RenewalDue(policy, alg, hash, now, margin) <==>
      exists name :: name in policy && name != [] && (name == alg || hash == Some(name)) && policy[name] - margin <= now
    ensures RenewalDue(policy, alg, hash, now, margin) <==>
      (alg != [] && !TrustedAt(policy, alg, now + margin))
      || (hash.Some? && hash.value != [] && !TrustedAt(policy, hash.value, now + margin))
    ensures forall longer: real :: margin <= longer && RenewalDue(policy, alg, hash, now, margin) ==>
      RenewalDue(policy, alg, hash, now, longer)
  {
    if alg in policy && alg != [] && policy[alg] - margin <= now {
      assert RenewalDue(policy, alg, hash, now, margin);
    }
    if hash.Some? && hash.value in policy && hash.value != [] && policy[hash.value] - margin <= now {
      assert RenewalDue(policy, alg, hash, now, margin);
    }
  }

  /** The exception is real: a policy with an expiry for the empty name. */
  lemma EmptyNameIsNeverDue(now: real)
    ensures var policy := map[[] := now];
      !RenewalDue(policy, [], Some([]), now, 0.0) && !TrustedAt(policy, [], now)
  {}

  // ---- the object ----------------------------------------------------------------------------------

  class LongTermEvidence {
    const digest: Text
    var records: seq<Record>

    ghost predicate Valid() reads this { Scalars(digest) && Records(records) }

    constructor (d: Text, rs: seq<Record>)
      requires Scalars(d) && Records(rs)
      ensures Valid() && digest == d && records == rs
    {
      digest, records := d, rs;
    }

    /** `seal`: refused where the time is not the prover's own claim and there is no token, or the hash is unknown. */
    method Seal(c: Crypto, call: Call) returns (sealed: Option<Record>)
      requires Valid() && CallOk(call)
      modifies this
      ensures Valid()
      ensures sealed.Some? <==> (call.source == ASSERTED() || HasToken(call)) && call.hash in c.hashes
      ensures sealed.Some? ==>
        sealed.value == SealedRecord(c, digest, old(records), call) && records == old(records) + [sealed.value]
      ensures sealed.None? ==> records == old(records)
    {
      hide SealedRecord, CallOk, Profile, ASSERTED, Scalars;
      if call.source != ASSERTED() && !HasToken(call) { return None; }
      if call.hash !in c.hashes { return None; }
      var r := SealedRecord(c, digest, records, call);
      SealedProfile(c, digest, records, call);
      records := records + [r];
      return Some(r);
    }

    /** `verify`: the shape of every record first, then every reason there is; ok when there is none. It raises where a
        well-shaped chain has a hash that can not be looked up. */
    method Verify(c: Crypto, clock: Clock, k: Check) returns (v: Verdict)
      requires Valid()
      ensures v.Raised? <==> AllWellShaped(clock, records) && AnyUnhashable(records)
      ensures v == Judged(true) <==> ChainVerifies(c, clock, digest, records, k)
    {
      hide Field, HashName, Ephemeral, Message, ALG, PUB, SIG, TIME, Profile, Scalars, SealValid, RenewedInTime,
        Unhashable;
      if records == [] { return Judged(false); }
      for i := 0 to |records|
        invariant forall j :: 0 <= j < i ==> WellShaped(clock, records[j])
      {
        if !WellShaped(clock, records[i]) { return Judged(false); }
      }
      var raises := CheckHashes();
      if raises {
        UnhashableFails(c, clock, digest, records, k);
        return Raised;
      }
      var identity := CheckIdentity(k);
      var seals := CheckSeals(c);
      var attested := CheckTimes(k);
      var order := CheckRenewals(clock, k.policy);
      var outer := if OuterTrusted(k.policy, records[|records| - 1], k.now) then 0 else 1;
      v := Judged(identity + seals + attested + order + outer == 0);
    }

    /** A list or an object where the name of a hash belongs: some lookup of the run raises on it. */
    method CheckHashes() returns (raises: bool)
      requires Valid()
      ensures raises <==> AnyUnhashable(records)
    {
      hide Unhashable, Profile, Scalars;
      raises := false;
      for i := 0 to |records|
        invariant raises <==> AnyUnhashable(records[..i])
      {
        AnyMore(records, i);
        if Unhashable(records[i]) { raises := true; }
      }
      assert records[..|records|] == records;
    }

    /** The pinned key, and no ephemeral one beside it. */
    method CheckIdentity(k: Check) returns (reasons: nat)
      requires Valid() && records != [] && Field(records[0], PUB()).Some?
      ensures reasons == 0 <==> (k.pinned.Some? ==>
        Field(records[0], PUB()).value in k.pinned.value && forall i :: 0 <= i < |records| ==> !Ephemeral(records[i]))
    {
      hide Field, Ephemeral, PUB, Profile;
      reasons := 0;
      if k.pinned.None? { return; }
      if Field(records[0], PUB()).value !in k.pinned.value { reasons := 1; }
      var ephemeral := false;
      for i := 0 to |records|
        invariant ephemeral <==> exists j :: 0 <= j < i && Ephemeral(records[j])
      {
        if Ephemeral(records[i]) { ephemeral := true; }
      }
      if ephemeral { reasons := reasons + 1; }
    }

    /** The signature of one record over its message. */
    method CheckSeal(c: Crypto, i: nat) returns (ok: bool)
      requires Valid() && i < |records|
      requires Field(records[i], ALG()).Some? && Field(records[i], PUB()).Some? && Field(records[i], SIG()).Some?
      ensures ok <==> SealValid(c, digest, records, i)
    {
      hide Field, HashName, Message, ALG, PUB, SIG, Profile, Scalars;
      var r := records[i];
      var alg, hash := Field(r, ALG()).value, HashName(r);
      if alg !in c.algs { return false; }
      if hash.None? || hash.value !in c.hashes { return false; }
      var verify := c.algs[alg];
      ok := verify(Field(r, PUB()).value, Field(r, SIG()).value,
                   c.hashes[hash.value](Message(digest, records[..i], r)));
    }

    /** Every record's. */
    method CheckSeals(c: Crypto) returns (reasons: nat)
      requires Valid()
        && forall i :: 0 <= i < |records| ==>
          Field(records[i], ALG()).Some? && Field(records[i], PUB()).Some? && Field(records[i], SIG()).Some?
      ensures reasons == 0 <==> forall i :: 0 <= i < |records| ==> SealValid(c, digest, records, i)
    {
      hide Field, ALG, PUB, SIG, Profile, SealValid, Scalars;
      reasons := 0;
      for i := 0 to |records|
        invariant reasons == 0 <==> forall j :: 0 <= j < i ==> SealValid(c, digest, records, j)
      {
        var ok := CheckSeal(c, i);
        if !ok { reasons := reasons + 1; }
      }
    }

    /** The oracle on every record, or, without one, no renewal to rest on unverified times. */
    method CheckTimes(k: Check) returns (reasons: nat)
      requires Valid() && records != []
      ensures reasons == 0 <==>
        if k.attests.Some? then forall i :: 0 <= i < |records| ==> k.attests.value(records[i]) else |records| == 1
    {
      reasons := 0;
      if k.attests.None? { return if |records| > 1 then 1 else 0; }
      var attests := k.attests.value;
      for i := 0 to |records|
        invariant reasons == 0 <==> forall j :: 0 <= j < i ==> k.attests.value(records[j])
      {
        if !attests(records[i]) { reasons := reasons + 1; }
      }
    }

    /** Times that never go back, and no renewal after what it renews was broken. */
    method CheckRenewals(clock: Clock, policy: Policy) returns (reasons: nat)
      requires Valid() && forall i :: 0 <= i < |records| ==> WellShaped(clock, records[i])
      ensures reasons == 0 <==>
        (forall i :: 0 < i < |records| ==> TimeOf(clock, records[i - 1]) <= TimeOf(clock, records[i]))
        && (forall i :: 0 < i < |records| ==> RenewedInTime(clock, policy, records, i))
    {
      hide TimeOf, RenewedInTime, WellShaped, Profile;
      var late, back := 0, 0;
      if records == [] { return 0; }
      for i := 1 to |records|
        invariant 0 <= late && 0 <= back
        invariant back == 0 <==> forall j :: 0 < j < i ==> TimeOf(clock, records[j - 1]) <= TimeOf(clock, records[j])
        invariant late == 0 <==> forall j :: 0 < j < i ==> RenewedInTime(clock, policy, records, j)
      {
        if TimeOf(clock, records[i]) < TimeOf(clock, records[i - 1]) { back := back + 1; }
        if !RenewedInTime(clock, policy, records, i) { late := late + 1; }
      }
      reasons := late + back;
    }
  }
}
