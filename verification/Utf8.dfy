/** UTF-8 (RFC 3629): the encoding files are read and written in, and in whose byte order Go sorts keys. */
module Utf8 {
  import opened Texts

  function EncodeOne(c: int): (b: Text)
    requires IsScalar(c)
    ensures 1 <= |b| <= 4
  {
    if c < 0x80 then [c]
    else if c < 0x800 then [0xC0 + c / 64, 0x80 + c % 64]
    else if c < 0x10000 then [0xE0 + c / 4096, 0x80 + c / 64 % 64, 0x80 + c % 64]
    else [0xF0 + c / 262144, 0x80 + c / 4096 % 64, 0x80 + c / 64 % 64, 0x80 + c % 64]
  }

  function Encode(t: Text): (r: Text)
    requires Scalars(t)
  {
    if t == [] then [] else EncodeOne(t[0]) + Encode(t[1..])
  }

  predicate IsTail(b: int) { 0x80 <= b < 0xC0 }

  /** The code point a byte string starts with and the bytes it takes; overlong forms, surrogates and
      numbers above 0x10FFFF are refused (RFC 3629 section 3). */
  function DecodeOne(b: Text): (r: Option<(int, nat)>)
    ensures r.Some? ==> IsScalar(r.value.0) && 0 < r.value.1 <= |b|
  {
    if b == [] then None
    else if 0 <= b[0] < 0x80 then Some((b[0], 1))
    else if 0xC0 <= b[0] < 0xE0 && |b| >= 2 && IsTail(b[1]) then
      var c := (b[0] - 0xC0) * 64 + (b[1] - 0x80);
      if c >= 0x80 then Some((c, 2)) else None
    else if 0xE0 <= b[0] < 0xF0 && |b| >= 3 && IsTail(b[1]) && IsTail(b[2]) then
      var c := ((b[0] - 0xE0) * 64 + (b[1] - 0x80)) * 64 + (b[2] - 0x80);
      if c >= 0x800 && !IsSurrogate(c) then Some((c, 3)) else None
    else if 0xF0 <= b[0] < 0xF8 && |b| >= 4 && IsTail(b[1]) && IsTail(b[2]) && IsTail(b[3]) then
      var c := (((b[0] - 0xF0) * 64 + (b[1] - 0x80)) * 64 + (b[2] - 0x80)) * 64 + (b[3] - 0x80);
      if 0x10000 <= c <= 0x10FFFF then Some((c, 4)) else None
    else None
  }

  function Decode(b: Text): (r: Option<Text>)
    decreases |b|
  {
    if b == [] then Some([])
    else
      match DecodeOne(b)
      case None => None
      case Some((c, n)) =>
        match Decode(b[n..])
        case None => None
        case Some(t) => Some([c] + t)
  }

  // ---- round trips ---------------------------------------------------------------------------

  lemma Sextets(c: int)
    requires 0 <= c
    ensures c / 64 == c / 4096 * 64 + c / 64 % 64
    ensures c / 4096 == c / 262144 * 64 + c / 4096 % 64
    ensures c == c / 64 * 64 + c % 64
  {}

  lemma OneRound(c: int, rest: Text)
    requires IsScalar(c)
    ensures DecodeOne(EncodeOne(c) + rest) == Some((c, |EncodeOne(c)|))
  {
    Sextets(c);
  }

  lemma OneBack(b: Text)
    requires DecodeOne(b).Some?
    ensures EncodeOne(DecodeOne(b).value.0) == b[..DecodeOne(b).value.1]
  {
    var (c, n) := DecodeOne(b).value;
    if n == 2 {
      assert c / 64 == b[0] - 0xC0 && c % 64 == b[1] - 0x80;
    } else if n == 3 {
      assert c / 64 == (b[0] - 0xE0) * 64 + (b[1] - 0x80) && c % 64 == b[2] - 0x80;
      assert c / 4096 == b[0] - 0xE0 && c / 64 % 64 == b[1] - 0x80;
    } else if n == 4 {
      FourBack(b, c);
    }
  }

  lemma FourBack(b: Text, c: int)
    requires DecodeOne(b) == Some((c, 4))
    ensures EncodeOne(c) == b[..4]
  {
    assert c / 64 == ((b[0] - 0xF0) * 64 + (b[1] - 0x80)) * 64 + (b[2] - 0x80) && c % 64 == b[3] - 0x80;
    assert c / 4096 == (b[0] - 0xF0) * 64 + (b[1] - 0x80) && c / 64 % 64 == b[2] - 0x80;
    assert c / 262144 == b[0] - 0xF0 && c / 4096 % 64 == b[1] - 0x80;
  }

  lemma {:induction false} EncodeDecode(t: Text)
    requires Scalars(t)
    ensures Decode(Encode(t)) == Some(t)
  {
    hide EncodeOne, DecodeOne;
    if t != [] {
      var b := Encode(t);
      OneRound(t[0], Encode(t[1..]));
      assert b[|EncodeOne(t[0])|..] == Encode(t[1..]);
      EncodeDecode(t[1..]);
      assert t == [t[0]] + t[1..];
    }
  }

  /** Decoding is undone by encoding, so a byte string has one reading at most and no second spelling. */
  lemma {:induction false} DecodeEncode(b: Text)
    requires Decode(b).Some?
    ensures Scalars(Decode(b).value) && Encode(Decode(b).value) == b
    decreases |b|
  {
    hide EncodeOne, DecodeOne;
    if b != [] {
      var (c, n) := DecodeOne(b).value;
      OneBack(b);
      DecodeEncode(b[n..]);
      var t := Decode(b[n..]).value;
      assert ([c] + t)[1..] == t;
      assert b == b[..n] + b[n..];
    }
  }

  lemma {:induction false} AsciiDecodes(t: Text)
    requires forall k :: 0 <= k < |t| ==> 0 <= t[k] < 0x80
    ensures Decode(t) == Some(t)
  {
    if t != [] {
      AsciiDecodes(t[1..]);
      assert t == [t[0]] + t[1..];
    }
  }

  // ---- order ---------------------------------------------------------------------------------

  /** Two sequences that agree before k and are ordered at k are ordered, whatever follows. */
  lemma {:induction false} LessAtDifference(a: Text, b: Text, k: nat)
    requires k < |a| && k < |b| && a[..k] == b[..k] && a[k] < b[k]
    ensures Less(a, b)
  {
    if k > 0 {
      assert a[0] == a[..k][0] == b[..k][0] == b[0];
      assert a[1..][..k - 1] == a[..k][1..] && b[1..][..k - 1] == b[..k][1..];
      LessAtDifference(a[1..], b[1..], k - 1);
    }
  }

  lemma {:induction false} LessAfterPrefix(p: Text, a: Text, b: Text)
    ensures Less(p + a, p + b) == Less(a, b)
  {
    if p == [] {
      assert p + a == a && p + b == b;
    } else {
      assert (p + a)[1..] == p[1..] + a && (p + b)[1..] == p[1..] + b;
      LessAfterPrefix(p[1..], a, b);
    }
  }

  /** The first place where the encodings of two code points differ, and the order there. */
  lemma OneOrder(c: int, d: int) returns (k: nat)
    requires IsScalar(c) && IsScalar(d) && c < d
    ensures k < |EncodeOne(c)| && k < |EncodeOne(d)|
    ensures EncodeOne(c)[..k] == EncodeOne(d)[..k] && EncodeOne(c)[k] < EncodeOne(d)[k]
  {
    var x, y := EncodeOne(c), EncodeOne(d);
    k := 0;
    if x[0] >= y[0] { k := SameLeadOrder(c, d); }
  }

  lemma SameLeadOrder(c: int, d: int) returns (k: nat)
    requires IsScalar(c) && IsScalar(d) && c < d && EncodeOne(c)[0] >= EncodeOne(d)[0]
    ensures k < |EncodeOne(c)| == |EncodeOne(d)|
    ensures EncodeOne(c)[..k] == EncodeOne(d)[..k] && EncodeOne(c)[k] < EncodeOne(d)[k]
  {
    Sextets(c);
    Sextets(d);
    var x, y := EncodeOne(c), EncodeOne(d);
    assert |x| == |y| && x[0] == y[0];
    k := if x[1] < y[1] then 1 else if x[2] < y[2] then 2 else 3;
  }

  lemma {:induction false} EncodeKeepsLess(a: Text, b: Text)
    requires Scalars(a) && Scalars(b) && Less(a, b)
    ensures Less(Encode(a), Encode(b))
  {
    hide EncodeOne;
    if a != [] {
      if a[0] == b[0] {
        EncodeKeepsLess(a[1..], b[1..]);
        LessAfterPrefix(EncodeOne(a[0]), Encode(a[1..]), Encode(b[1..]));
      } else {
        var k := OneOrder(a[0], b[0]);
        var x, y := EncodeOne(a[0]), EncodeOne(b[0]);
        assert (x + Encode(a[1..]))[..k] == x[..k] && (y + Encode(b[1..]))[..k] == y[..k];
        LessAtDifference(x + Encode(a[1..]), y + Encode(b[1..]), k);
      }
    }
  }

  lemma {:induction false} LessAsymmetric(a: Text, b: Text)
    requires Less(a, b)
    ensures !Less(b, a)
  {
    if a != [] && a[0] == b[0] { LessAsymmetric(a[1..], b[1..]); }
  }

  /** Sorting keys by UTF-8 bytes and by code points gives the same order. */
  lemma ByteOrderIsCodePointOrder(a: Text, b: Text)
    requires Scalars(a) && Scalars(b)
    ensures Less(Encode(a), Encode(b)) <==> Less(a, b)
  {
    LessTotal(a, b);
    if Less(a, b) {
      EncodeKeepsLess(a, b);
    } else if a == b {
      LessIrreflexive(Encode(a));
    } else {
      EncodeKeepsLess(b, a);
      LessAsymmetric(Encode(b), Encode(a));
    }
  }
}
