/** SHA-256 as verifiers/rust/src/sha256.rs computes it: padding, message schedule and compression loop, against
    the recurrences of FIPS 180-4 (sections 5.1.1 and 6.2.2). */
module Sha256 {
  import opened Texts
  import opened JsonPrinter
  import opened Bits32
  import WeakKeys

  const BLOCK := 64

  // ---- padding -------------------------------------------------------------------------------------

  /** to_be_bytes of a k-byte word. */
  function BigEndian(n: nat, k: nat): (t: Text)
    ensures |t| == k && Bytes(t)
    decreases k
  {
    if k == 0 then [] else BigEndian(n / 256, k - 1) + [n % 256]
  }

  lemma {:induction false} BigEndianInjective(n: nat, m: nat, k: nat)
    requires n < WeakKeys.Pow256(k) && m < WeakKeys.Pow256(k) && BigEndian(n, k) == BigEndian(m, k)
    ensures n == m
    decreases k
  {
    if k > 0 {
      var a, b := BigEndian(n / 256, k - 1), BigEndian(m / 256, k - 1);
      assert (a + [n % 256])[..k - 1] == a && (b + [m % 256])[..k - 1] == b;
      assert (a + [n % 256])[k - 1] == n % 256 && (b + [m % 256])[k - 1] == m % 256;
      BigEndianInjective(n / 256, m / 256, k - 1);
    }
  }

  /** Zeros up to eight bytes before a block boundary. */
  function Fill(n: nat): (r: nat) { (55 - n) % BLOCK }

  /** The number of bits in the message as a 64-bit word: multiplied with wrap-around. */
  function BitLength(n: nat): (r: nat) { n * 8 % WORD64() }

  function WORD64(): (r: nat) { 18_446_744_073_709_551_616 }

  function Padded(data: Text): (p: Text)
    ensures |p| == |data| + 1 + Fill(|data|) + 8
  {
    data + [0x80] + Repeat(0, Fill(|data|)) + BigEndian(BitLength(|data|), 8)
  }

  lemma FillReaches(n: nat, k: nat)
    ensures (n + 1 + Fill(n)) % BLOCK == 56
    ensures k < Fill(n) ==> (n + 1 + k) % BLOCK != 56
  {
    var q, r := n / BLOCK, n % BLOCK;
    assert n == BLOCK * q + r;
  }

  method Pad(data: Text) returns (msg: Text)
    ensures msg == Padded(data)
  {
    hide BigEndian, BitLength;
    var bitlen := BitLength(|data|);
    msg := data + [0x80];
    ghost var k := 0;
    assert Repeat(0, 0) == [];
    while |msg| % BLOCK != 56
      invariant k <= Fill(|data|) && msg == data + [0x80] + Repeat(0, k)
      decreases Fill(|data|) - k
    {
      FillReaches(|data|, k);
      RepeatMore(0, k);
      k := k + 1;
      msg := msg + [0];
    }
    FillReaches(|data|, k);
    msg := msg + BigEndian(bitlen, 8);
  }

  /** The padded message is whole blocks, at least one. */
  lemma PaddedIsBlocks(data: Text)
    ensures |Padded(data)| % BLOCK == 0 && |Padded(data)| >= BLOCK
  {
    hide Padded, Fill;
    FillReaches(|data|, 0);
    WholeBlocks(|data| + 1 + Fill(|data|));
  }

  lemma WholeBlocks(n: nat)
    requires n % BLOCK == 56
    ensures (n + 8) % BLOCK == 0 && n + 8 >= BLOCK
  {}

  lemma PaddedEnds(data: Text)
    ensures var p := Padded(data);
      p[|p| - 8..] == BigEndian(BitLength(|data|), 8) && p[..|data|] == data
  {}

  lemma WordIsEightBytes(k: nat)
    requires k == 8
    ensures WeakKeys.Pow256(k) == WORD64()
  {
    assert WeakKeys.Pow256(k - 8) == 1;
    assert WeakKeys.Pow256(k - 6) == 65536;
    assert WeakKeys.Pow256(k - 4) == 4294967296;
    assert WeakKeys.Pow256(k - 2) == 281474976710656;
  }

  /** Two messages below 2^61 bytes with the same padding are the same. */
  lemma PaddingInjective(a: Text, b: Text)
    requires |a| < WORD64() / 8 && |b| < WORD64() / 8 && Padded(a) == Padded(b)
    ensures a == b
  {
    hide Padded, BigEndian, WeakKeys.Pow256;
    PaddedEnds(a);
    PaddedEnds(b);
    var k := 8;
    WordIsEightBytes(k);
    BigEndianInjective(BitLength(|a|), BitLength(|b|), k);
  }

  // ---- FIPS 180-4, sections 4.1.2 and 6.2.2 ----------------------------------------------------------

  const WORD32 := 4_294_967_296

  /** A 32-bit word. */
  type Word32 = x: int | 0 <= x < WORD32

  function Bits(x: Word32): (r: bv32) { x as bv32 }

  function FromBits(v: bv32): (r: Word32) { v as Word32 }

  /** wrapping_add. */
  function Add(x: Word32, y: Word32): (r: Word32) { (x + y) % WORD32 }

  function Sigma0(x: Word32): (r: Word32) { FromBits(BvSigma0(Bits(x))) }

  function Sigma1(x: Word32): (r: Word32) { FromBits(BvSigma1(Bits(x))) }

  function Small0(x: Word32): (r: Word32) { FromBits(BvSmall0(Bits(x))) }

  function Small1(x: Word32): (r: Word32) { FromBits(BvSmall1(Bits(x))) }

  function Ch(x: Word32, y: Word32, z: Word32): (r: Word32) { FromBits(BvCh(Bits(x), Bits(y), Bits(z))) }

  function Maj(x: Word32, y: Word32, z: Word32): (r: Word32) { FromBits(BvMaj(Bits(x), Bits(y), Bits(z))) }

  /** The constants of section 4.2.2, eight to a row. */
  function ConstantRow(n: nat): (r: seq<Word32>)
    requires n < 8
    ensures |r| == 8
  {
    if n == 0 then [0x428a2f98, 0x71374491, 0xb5c0fbcf, 0xe9b5dba5, 0x3956c25b, 0x59f111f1, 0x923f82a4, 0xab1c5ed5]
    else if n == 1 then [0xd807aa98, 0x12835b01, 0x243185be, 0x550c7dc3, 0x72be5d74, 0x80deb1fe, 0x9bdc06a7, 0xc19bf174]
    else if n == 2 then [0xe49b69c1, 0xefbe4786, 0x0fc19dc6, 0x240ca1cc, 0x2de92c6f, 0x4a7484aa, 0x5cb0a9dc, 0x76f988da]
    else if n == 3 then [0x983e5152, 0xa831c66d, 0xb00327c8, 0xbf597fc7, 0xc6e00bf3, 0xd5a79147, 0x06ca6351, 0x14292967]
    else if n == 4 then [0x27b70a85, 0x2e1b2138, 0x4d2c6dfc, 0x53380d13, 0x650a7354, 0x766a0abb, 0x81c2c92e, 0x92722c85]
    else if n == 5 then [0xa2bfe8a1, 0xa81a664b, 0xc24b8b70, 0xc76c51a3, 0xd192e819, 0xd6990624, 0xf40e3585, 0x106aa070]
    else if n == 6 then [0x19a4c116, 0x1e376c08, 0x2748774c, 0x34b0bcb5, 0x391c0cb3, 0x4ed8aa4a, 0x5b9cca4f, 0x682e6ff3]
    else [0x748f82ee, 0x78a5636f, 0x84c87814, 0x8cc70208, 0x90befffa, 0xa4506ceb, 0xbef9a3f7, 0xc67178f2]
  }

  function K(i: nat): (r: Word32)
    requires i < 64
  {
    ConstantRow(i / 8)[i % 8]
  }

  function INITIAL(): (r: seq<Word32>)
  {
    [0x6a09e667, 0xbb67ae85, 0x3c6ef372, 0xa54ff53a, 0x510e527f, 0x9b05688c, 0x1f83d9ab, 0x5be0cd19]
  }

  /** from_be_bytes. */
  function Word(b: Text, i: nat): (r: Word32)
    requires |b| == BLOCK && Bytes(b) && i < 16
  {
    ((b[4 * i] * 256 + b[4 * i + 1]) * 256 + b[4 * i + 2]) * 256 + b[4 * i + 3]
  }

  /** W_t of the standard. */
  function W(b: Text, t: nat): (r: Word32)
    requires |b| == BLOCK && Bytes(b) && t < 64
  {
    if t < 16 then Word(b, t) else Add(Add(Add(Small1(W(b, t - 2)), W(b, t - 7)), Small0(W(b, t - 15))), W(b, t - 16))
  }

  /** The eight working variables. */
  datatype Vars = Vars(a: Word32, b: Word32, c: Word32, d: Word32, e: Word32, f: Word32, g: Word32, h: Word32)

  function T1(v: Vars, k: Word32, w: Word32): (r: Word32)
  {
    Add(Add(Add(Add(v.h, Sigma1(v.e)), Ch(v.e, v.f, v.g)), k), w)
  }

  function T2(v: Vars): (r: Word32) { Add(Sigma0(v.a), Maj(v.a, v.b, v.c)) }

  function Step(v: Vars, k: Word32, w: Word32): (r: Vars)
  {
    Vars(Add(T1(v, k, w), T2(v)), v.a, v.b, v.c, Add(v.d, T1(v, k, w)), v.e, v.f, v.g)
  }

  /** The working variables after t steps over a block. */
  function Work(v: Vars, b: Text, t: nat): (r: Vars)
    requires |b| == BLOCK && Bytes(b) && t <= 64
  {
    if t == 0 then v else Step(Work(v, b, t - 1), K(t - 1), W(b, t - 1))
  }

  function VarsOf(h: seq<Word32>): (r: Vars)
    requires |h| == 8
  {
    Vars(h[0], h[1], h[2], h[3], h[4], h[5], h[6], h[7])
  }

  /** The intermediate hash value after a block. */
  function Compress(h: seq<Word32>, b: Text): (r: seq<Word32>)
    requires |h| == 8 && |b| == BLOCK && Bytes(b)
    ensures |r| == 8
  {
    var v := Work(VarsOf(h), b, 64);
    [Add(h[0], v.a), Add(h[1], v.b), Add(h[2], v.c), Add(h[3], v.d), Add(h[4], v.e), Add(h[5], v.f), Add(h[6], v.g),
     Add(h[7], v.h)]
  }

  function HashBlocks(p: Text): (r: seq<Word32>)
    requires Bytes(p) && |p| % BLOCK == 0
    ensures |r| == 8
    decreases |p|
  {
    if |p| < BLOCK then INITIAL() else Compress(HashBlocks(p[..|p| - BLOCK]), p[|p| - BLOCK..])
  }

  // ---- the loops -----------------------------------------------------------------------------------

  lemma AddOrder(a: Word32, b: Word32, c: Word32, d: Word32)
    ensures Add(Add(Add(a, b), c), d) == Add(Add(Add(d, c), b), a)
  {
    hide Add;
    AddCommutes(a, b);
    AddCommutes(Add(a, b), c);
    AddCommutes(Add(Add(a, b), c), d);
    AddAssociates(Add(d, c), b, a);
    AddAssociates(d, c, Add(b, a));
  }

  lemma AddCommutes(x: Word32, y: Word32)
    ensures Add(x, y) == Add(y, x)
  {}

  lemma AddAssociates(x: Word32, y: Word32, z: Word32)
    ensures Add(Add(x, y), z) == Add(x, Add(y, z))
  {}

  lemma Recurrence(b: Text, t: nat)
    requires |b| == BLOCK && Bytes(b) && t < 64
    ensures W(b, t) == if t < 16 then Word(b, t)
      else Add(Add(Add(Small1(W(b, t - 2)), W(b, t - 7)), Small0(W(b, t - 15))), W(b, t - 16))
  {
    hide Word, Small0, Small1, Add;
  }

  /** The message schedule: sixteen words of the block, then each from four before it. */
  method Schedule(b: Text) returns (w: array<Word32>)
    requires |b| == BLOCK && Bytes(b)
    ensures fresh(w) && w.Length == 64 && forall t :: 0 <= t < 64 ==> w[t] == W(b, t)
  {
    hide Word, Small0, Small1, W, Add;
    w := new Word32[64](i => 0);
    for i := 0 to 16
      invariant forall t :: 0 <= t < i ==> w[t] == W(b, t)
    {
      Recurrence(b, i);
      w[i] := Word(b, i);
    }
    for i := 16 to 64
      invariant forall t :: 0 <= t < i ==> w[t] == W(b, t)
    {
      var s0, s1 := Small0(w[i - 15]), Small1(w[i - 2]);
      Recurrence(b, i);
      AddOrder(W(b, i - 16), s0, W(b, i - 7), s1);
      w[i] := Add(Add(Add(w[i - 16], s0), w[i - 7]), s1);
    }
  }

  /** The compression loop: the eight variables move down by one in each of 64 steps. */
  method Rounds(v: Vars, b: Text, w: array<Word32>) returns (r: Vars)
    requires |b| == BLOCK && Bytes(b) && w.Length == 64 && forall t :: 0 <= t < 64 ==> w[t] == W(b, t)
    ensures r == Work(v, b, 64)
  {
    hide Sigma0, Sigma1, Ch, Maj, K, W, Add;
    var a, bb, c, d, e, f, g, hh := v.a, v.b, v.c, v.d, v.e, v.f, v.g, v.h;
    for i := 0 to 64
      invariant Vars(a, bb, c, d, e, f, g, hh) == Work(v, b, i)
    {
      var t1 := Add(Add(Add(Add(hh, Sigma1(e)), Ch(e, f, g)), K(i)), w[i]);
      var t2 := Add(Sigma0(a), Maj(a, bb, c));
      hh := g;
      g := f;
      f := e;
      e := Add(d, t1);
      d := c;
      c := bb;
      bb := a;
      a := Add(t1, t2);
    }
    r := Vars(a, bb, c, d, e, f, g, hh);
  }

  method CompressBlock(h: array<Word32>, b: Text)
    requires h.Length == 8 && |b| == BLOCK && Bytes(b)
    modifies h
    ensures h[..] == Compress(old(h[..]), b)
  {
    hide Work, W, Add;
    var w := Schedule(b);
    var v := Rounds(VarsOf(h[..]), b, w);
    h[0] := Add(h[0], v.a);
    h[1] := Add(h[1], v.b);
    h[2] := Add(h[2], v.c);
    h[3] := Add(h[3], v.d);
    h[4] := Add(h[4], v.e);
    h[5] := Add(h[5], v.f);
    h[6] := Add(h[6], v.g);
    h[7] := Add(h[7], v.h);
  }

  /** The eight hexadecimal digits of a word. */
  function WordHex(n: nat, k: nat): (t: Text)
    ensures IsHexN(t, k)
    decreases k
  {
    if k == 0 then [] else WordHex(n / 16, k - 1) + [HexChar(n % 16)]
  }

  function HashText(h: seq<Word32>): (t: Text)
    ensures IsHexN(t, 8 * |h|)
  {
    if h == [] then [] else HashText(h[..|h| - 1]) + WordHex(h[|h| - 1], 8)
  }

  lemma PaddedBytes(data: Text)
    requires Bytes(data)
    ensures Bytes(Padded(data))
  {
    var a, z, e := data + [0x80], Repeat(0, Fill(|data|)), BigEndian(BitLength(|data|), 8);
    forall k | 0 <= k < |a| ensures IsByte(a[k]) {}
    forall k | 0 <= k < |a + z + e| ensures IsByte((a + z + e)[k]) {
      assert k >= |a| + |z| ==> (a + z + e)[k] == e[k - |a| - |z|];
      assert |a| <= k < |a| + |z| ==> (a + z + e)[k] == z[k - |a|];
    }
  }

  lemma SliceBytes(t: Text, i: nat, j: nat)
    requires Bytes(t) && i <= j <= |t|
    ensures Bytes(t[i..j])
  {}

  /** sha256.rs `hex`. */
  method Hex(data: Text) returns (out: Text)
    requires Bytes(data)
    ensures Bytes(Padded(data)) && |Padded(data)| % BLOCK == 0 && out == HashText(HashBlocks(Padded(data)))
    ensures IsHexN(out, 64)
  {
    hide Padded, Compress, WordHex;
    var msg := Pad(data);
    PaddedIsBlocks(data);
    PaddedBytes(data);
    var h := new Word32[8];
    h[0], h[1], h[2], h[3], h[4], h[5], h[6], h[7] :=
      0x6a09e667, 0xbb67ae85, 0x3c6ef372, 0xa54ff53a, 0x510e527f, 0x9b05688c, 0x1f83d9ab, 0x5be0cd19;
    assert h[..] == INITIAL();
    var at := 0;
    SliceBytes(msg, 0, 0);
    while at < |msg|
      invariant at <= |msg| && at % BLOCK == 0 && Bytes(msg[..at]) && h[..] == HashBlocks(msg[..at])
    {
      NextBlock(msg, at);
      CompressBlock(h, msg[at..at + BLOCK]);
      at := at + BLOCK;
    }
    assert msg[..at] == msg;
    out := [];
    ghost var final := h[..];
    for i := 0 to 8
      invariant h[..] == final && out == HashText(final[..i])
    {
      assert final[..i + 1][..i] == final[..i];
      out := out + WordHex(h[i], 8);
    }
    assert final[..8] == final;
  }

  lemma NextBlock(msg: Text, at: nat)
    requires Bytes(msg) && |msg| % BLOCK == 0 && at < |msg| && at % BLOCK == 0
    ensures at + BLOCK <= |msg| && (at + BLOCK) % BLOCK == 0
    ensures Bytes(msg[..at]) && Bytes(msg[at..at + BLOCK]) && Bytes(msg[..at + BLOCK])
    ensures HashBlocks(msg[..at + BLOCK]) == Compress(HashBlocks(msg[..at]), msg[at..at + BLOCK])
  {
    hide Compress;
    var n, k := |msg| / BLOCK, at / BLOCK;
    assert |msg| == BLOCK * n && at == BLOCK * k && k < n;
    SliceBytes(msg, 0, at);
    SliceBytes(msg, at, at + BLOCK);
    SliceBytes(msg, 0, at + BLOCK);
    assert msg[0..at] == msg[..at] && msg[0..at + BLOCK] == msg[..at + BLOCK];
    var p := msg[..at + BLOCK];
    assert p[..at] == msg[..at] && p[at..] == msg[at..at + BLOCK];
  }
}
