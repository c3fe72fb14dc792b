/** SHA-256 against its standard (FIPS 180-4): the constants are the roots of primes, the functions are given bit by
    bit, the sums are sums modulo 2^32, and words are read and written big-endian. */
module Sha256Standard {
  import opened Texts
  import opened JsonGrammar
  import opened JsonPrinter
  import opened Sha256
  import opened Primes
  import Arithmetic
  import opened Bits32
  import WeakKeys

  // ---- the constants -------------------------------------------------------------------------------

  /** The integer part of the cube root, for numbers up to 342. */
  function CubeRoot(p: int): (n: int)
    requires 1 <= p < 343
    ensures n * n * n <= p < (n + 1) * (n + 1) * (n + 1)
  {
    if p < 8 then 1 else if p < 27 then 2 else if p < 64 then 3 else if p < 125 then 4 else if p < 216 then 5 else 6
  }

  /** The integer part of the square root, for numbers up to 24. */
  function SquareRoot(p: int): (n: int)
    requires 1 <= p < 25
    ensures n * n <= p < (n + 1) * (n + 1)
  {
    if p < 4 then 1 else if p < 9 then 2 else if p < 16 then 3 else 4
  }

  const TWO32 := 0x1_0000_0000
  const TWO64 := 0x1_0000_0000_0000_0000
  const TWO96 := 0x1_0000_0000_0000_0000_0000_0000

  /** The first 32 bits of the fractional part of the cube root of p are k. */
  predicate CubeBits(p: int, k: int)
  {
    1 <= p < 343 && 0 <= k < TWO32
    && var r := CubeRoot(p) * TWO32 + k; r * r * r <= p * TWO96 < (r + 1) * (r + 1) * (r + 1)
  }

  /** The first 32 bits of the fractional part of the square root of p are k. */
  predicate SquareBits(p: int, k: int)
  {
    1 <= p < 25 && 0 <= k < TWO32 && var r := SquareRoot(p) * TWO32 + k; r * r <= p * TWO64 < (r + 1) * (r + 1)
  }

  lemma ConstantsOfRow0(n: nat)
    requires n == 0
    ensures var k, p := ConstantRow(n), PrimeRow(n); forall i :: 0 <= i < 8 ==> CubeBits(p[i], k[i])
  {
    hide CubeBits;
    var k, p := ConstantRow(0), PrimeRow(0);
    Cubes0a();
    Cubes0b();
  }

  lemma Cubes0a()
    ensures CubeBits(2, 0x428a2f98) && CubeBits(3, 0x71374491) && CubeBits(5, 0xb5c0fbcf) && CubeBits(7, 0xe9b5dba5)
  {}

  lemma Cubes0b()
    ensures CubeBits(11, 0x3956c25b) && CubeBits(13, 0x59f111f1) && CubeBits(17, 0x923f82a4) && CubeBits(19, 0xab1c5ed5)
  {}

  lemma ConstantsOfRow1(n: nat)
    requires n == 1
    ensures var k, p := ConstantRow(n), PrimeRow(n); forall i :: 0 <= i < 8 ==> CubeBits(p[i], k[i])
  {
    hide CubeBits;
    var k, p := ConstantRow(1), PrimeRow(1);
    Cubes1a();
    Cubes1b();
  }

  lemma Cubes1a()
    ensures CubeBits(23, 0xd807aa98) && CubeBits(29, 0x12835b01) && CubeBits(31, 0x243185be) && CubeBits(37, 0x550c7dc3)
  {}

  lemma Cubes1b()
    ensures CubeBits(41, 0x72be5d74) && CubeBits(43, 0x80deb1fe) && CubeBits(47, 0x9bdc06a7) && CubeBits(53, 0xc19bf174)
  {}

  lemma ConstantsOfRow2(n: nat)
    requires n == 2
    ensures var k, p := ConstantRow(n), PrimeRow(n); forall i :: 0 <= i < 8 ==> CubeBits(p[i], k[i])
  {
    hide CubeBits;
    var k, p := ConstantRow(2), PrimeRow(2);
    Cubes2a();
    Cubes2b();
  }

  lemma Cubes2a()
    ensures CubeBits(59, 0xe49b69c1) && CubeBits(61, 0xefbe4786) && CubeBits(67, 0x0fc19dc6) && CubeBits(71, 0x240ca1cc)
  {}

  lemma Cubes2b()
    ensures CubeBits(73, 0x2de92c6f) && CubeBits(79, 0x4a7484aa) && CubeBits(83, 0x5cb0a9dc) && CubeBits(89, 0x76f988da)
  {}

  lemma ConstantsOfRow3(n: nat)
    requires n == 3
    ensures var k, p := ConstantRow(n), PrimeRow(n); forall i :: 0 <= i < 8 ==> CubeBits(p[i], k[i])
  {
    hide CubeBits;
    var k, p := ConstantRow(3), PrimeRow(3);
    Cubes3a();
    Cubes3b();
  }

  lemma Cubes3a()
    ensures CubeBits(97, 0x983e5152) && CubeBits(101, 0xa831c66d) && CubeBits(103, 0xb00327c8)
      && CubeBits(107, 0xbf597fc7)
  {}

  lemma Cubes3b()
    ensures CubeBits(109, 0xc6e00bf3) && CubeBits(113, 0xd5a79147) && CubeBits(127, 0x06ca6351)
      && CubeBits(131, 0x14292967)
  {}

  lemma ConstantsOfRow4(n: nat)
    requires n == 4
    ensures var k, p := ConstantRow(n), PrimeRow(n); forall i :: 0 <= i < 8 ==> CubeBits(p[i], k[i])
  {
    hide CubeBits;
    var k, p := ConstantRow(4), PrimeRow(4);
    Cubes4a();
    Cubes4b();
  }

  lemma Cubes4a()
    ensures CubeBits(137, 0x27b70a85) && CubeBits(139, 0x2e1b2138) && CubeBits(149, 0x4d2c6dfc)
      && CubeBits(151, 0x53380d13)
  {}

  lemma Cubes4b()
    ensures CubeBits(157, 0x650a7354) && CubeBits(163, 0x766a0abb) && CubeBits(167, 0x81c2c92e)
      && CubeBits(173, 0x92722c85)
  {}

  lemma ConstantsOfRow5(n: nat)
    requires n == 5
    ensures var k, p := ConstantRow(n), PrimeRow(n); forall i :: 0 <= i < 8 ==> CubeBits(p[i], k[i])
  {
    hide CubeBits;
    var k, p := ConstantRow(5), PrimeRow(5);
    Cubes5a();
    Cubes5b();
  }

  lemma Cubes5a()
    ensures CubeBits(179, 0xa2bfe8a1) && CubeBits(181, 0xa81a664b) && CubeBits(191, 0xc24b8b70)
      && CubeBits(193, 0xc76c51a3)
  {}

  lemma Cubes5b()
    ensures CubeBits(197, 0xd192e819) && CubeBits(199, 0xd6990624) && CubeBits(211, 0xf40e3585)
      && CubeBits(223, 0x106aa070)
  {}

  lemma ConstantsOfRow6(n: nat)
    requires n == 6
    ensures var k, p := ConstantRow(n), PrimeRow(n); forall i :: 0 <= i < 8 ==> CubeBits(p[i], k[i])
  {
    hide CubeBits;
    var k, p := ConstantRow(6), PrimeRow(6);
    Cubes6a();
    Cubes6b();
  }

  lemma Cubes6a()
    ensures CubeBits(227, 0x19a4c116) && CubeBits(229, 0x1e376c08) && CubeBits(233, 0x2748774c)
      && CubeBits(239, 0x34b0bcb5)
  {}

  lemma Cubes6b()
    ensures CubeBits(241, 0x391c0cb3) && CubeBits(251, 0x4ed8aa4a) && CubeBits(257, 0x5b9cca4f)
      && CubeBits(263, 0x682e6ff3)
  {}

  lemma ConstantsOfRow7(n: nat)
    requires n == 7
    ensures var k, p := ConstantRow(n), PrimeRow(n); forall i :: 0 <= i < 8 ==> CubeBits(p[i], k[i])
  {
    hide CubeBits;
    var k, p := ConstantRow(7), PrimeRow(7);
    Cubes7a();
    Cubes7b();
  }

  lemma Cubes7a()
    ensures CubeBits(269, 0x748f82ee) && CubeBits(271, 0x78a5636f) && CubeBits(277, 0x84c87814)
      && CubeBits(281, 0x8cc70208)
  {}

  lemma Cubes7b()
    ensures CubeBits(283, 0x90befffa) && CubeBits(293, 0xa4506ceb) && CubeBits(307, 0xbef9a3f7)
      && CubeBits(311, 0xc67178f2)
  {}

  /** Section 4.2.2: the constants are the first 32 bits of the fractional parts of the cube roots of the first 64
      primes (see Primes.FirstPrimes). */
  lemma ConstantsAreStandard(i: nat)
    requires i < 64
    ensures CubeBits(PrimeAt(i), K(i))
  {
    hide CubeBits, ConstantRow, PrimeRow;
    RowIsStandard(i / 8);
    var k, p := ConstantRow(i / 8), PrimeRow(i / 8);
    assert CubeBits(p[i % 8], k[i % 8]);
  }

  lemma RowIsStandard(n: nat)
    requires n < 8
    ensures var k, p := ConstantRow(n), PrimeRow(n); forall i :: 0 <= i < 8 ==> CubeBits(p[i], k[i])
  {
    hide CubeBits, ConstantRow, PrimeRow;
    forall i | 0 <= i < 8 ensures CubeBits(PrimeRow(n)[i], ConstantRow(n)[i]) {
      match n {
        case 0 => ConstantsOfRow0(n);
        case 1 => ConstantsOfRow1(n);
        case 2 => ConstantsOfRow2(n);
        case 3 => ConstantsOfRow3(n);
        case 4 => ConstantsOfRow4(n);
        case 5 => ConstantsOfRow5(n);
        case 6 => ConstantsOfRow6(n);
        case 7 => ConstantsOfRow7(n);
      }
    }
  }

  /** Section 5.3.3: the initial words are those of the square roots of the first eight primes. */
  lemma InitialIsStandard()
    ensures |INITIAL()| == 8 && forall i :: 0 <= i < 8 ==> SquareBits(PrimeRow(0)[i], INITIAL()[i])
  {
    var h, p := INITIAL(), PrimeRow(0);
    assert SquareBits(p[0], h[0]) && SquareBits(p[1], h[1]) && SquareBits(p[2], h[2]) && SquareBits(p[3], h[3]);
    assert SquareBits(p[4], h[4]) && SquareBits(p[5], h[5]) && SquareBits(p[6], h[6]) && SquareBits(p[7], h[7]);
  }

  // ---- padding, section 5.1.1 ------------------------------------------------------------------------

  /** The integer some bytes stand for, the highest first. */
  function BytesNumber(t: Text): (n: int)
  {
    if t == [] then 0 else 256 * BytesNumber(t[..|t| - 1]) + t[|t| - 1]
  }

  lemma {:induction false} BigEndianReads(n: nat, k: nat)
    ensures BytesNumber(BigEndian(n, k)) == n % WeakKeys.Pow256(k)
    decreases k
  {
    if k > 0 {
      var t := BigEndian(n / 256, k - 1);
      assert (t + [n % 256])[..k - 1] == t;
      BigEndianReads(n / 256, k - 1);
      Digits(n, WeakKeys.Pow256(k - 1));
    }
  }

  lemma Digits(n: nat, p: int)
    requires p > 0
    ensures 256 * (n / 256 % p) + n % 256 == n % (256 * p)
  {
    var q := n / 256;
    var a, r := q / p, q % p;
    assert q == p * a + r && n == 256 * q + n % 256;
    assert 256 * (p * a + r) == (256 * p) * a + 256 * r by { Distribute(p * a, r); Regroup(p, a); }
    Arithmetic.Divides(256 * p, a, 256 * r + n % 256);
  }

  lemma Distribute(x: int, y: int)
    ensures 256 * (x + y) == 256 * x + 256 * y
  {}

  lemma Regroup(p: int, a: int)
    ensures 256 * (p * a) == (256 * p) * a
  {}

  /** The message, a one bit, as few zeros as reach a block but for eight bytes, and the number of bits. */
  lemma PaddingIsStandard(data: Text)
    requires |data| < WORD64() / 8
    ensures var n, p := |data|, Padded(data);
      && |p| % 64 == 0 && n + 9 <= |p| < n + 9 + 64
      && p[..n] == data && p[n] == 0x80 && (forall k :: n < k < |p| - 8 ==> p[k] == 0)
      && BytesNumber(p[|p| - 8..]) == 8 * n
  {
    hide BigEndian, BytesNumber, WeakKeys.Pow256;
    var n, p, k := |data|, Padded(data), 8;
    PaddedIsBlocks(data);
    PaddedEnds(data);
    BigEndianReads(BitLength(n), k);
    WordIsEightBytes(k);
    ZerosBetween(data);
  }

  lemma ZerosBetween(data: Text)
    ensures var n, p := |data|, Padded(data);
      p[n] == 0x80 && forall k :: n < k < |p| - 8 ==> p[k] == 0
  {
    hide BigEndian;
    var n, z := |data|, Repeat(0, Fill(|data|));
    var p := Padded(data);
    forall k | n < k < |p| - 8 ensures p[k] == 0 { assert p[k] == z[k - n - 1]; }
  }

  // ---- the functions, bit by bit -------------------------------------------------------------------

  /** Bit k of a word. */
  predicate Bit(x: Word32, k: bv5) { BitOf(Bits(x), k) }

  lemma WordOfBits(v: bv32)
    ensures Bits(FromBits(v)) == v
  {}

  /** Section 4.1.2: rotations to the right by 2, 13 and 22. */
  lemma Sigma0IsStandard(x: Word32, k: bv5)
    ensures Bit(Sigma0(x), k) == (Bit(x, k + 2) != (Bit(x, k + 13) != Bit(x, k + 22)))
  {
    hide BitOf, Bits, FromBits, BvSigma0;
    WordOfBits(BvSigma0(Bits(x)));
    BigSigma0(Bits(x), k);
  }

  /** Rotations by 6, 11 and 25. */
  lemma Sigma1IsStandard(x: Word32, k: bv5)
    ensures Bit(Sigma1(x), k) == (Bit(x, k + 6) != (Bit(x, k + 11) != Bit(x, k + 25)))
  {
    hide BitOf, Bits, FromBits, BvSigma1;
    WordOfBits(BvSigma1(Bits(x)));
    BigSigma1(Bits(x), k);
  }

  /** Rotations by 7 and 18, and a shift by 3. */
  lemma Small0IsStandard(x: Word32, k: bv5)
    ensures Bit(Small0(x), k) == (Bit(x, k + 7) != (Bit(x, k + 18) != (k < 29 && Bit(x, k + 3))))
  {
    hide BitOf, Bits, FromBits, BvSmall0;
    WordOfBits(BvSmall0(Bits(x)));
    SmallSigma0(Bits(x), k);
  }

  /** Rotations by 17 and 19, and a shift by 10. */
  lemma Small1IsStandard(x: Word32, k: bv5)
    ensures Bit(Small1(x), k) == (Bit(x, k + 17) != (Bit(x, k + 19) != (k < 22 && Bit(x, k + 10))))
  {
    hide BitOf, Bits, FromBits, BvSmall1;
    WordOfBits(BvSmall1(Bits(x)));
    SmallSigma1(Bits(x), k);
  }

  /** The first word chooses between the other two. */
  lemma ChIsStandard(x: Word32, y: Word32, z: Word32, k: bv5)
    ensures Bit(Ch(x, y, z), k) == if Bit(x, k) then Bit(y, k) else Bit(z, k)
  {
    hide BitOf, Bits, FromBits, BvCh;
    WordOfBits(BvCh(Bits(x), Bits(y), Bits(z)));
    Choice(Bits(x), Bits(y), Bits(z), k);
  }

  /** The majority of the three. */
  lemma MajIsStandard(x: Word32, y: Word32, z: Word32, k: bv5)
    ensures Bit(Maj(x, y, z), k) ==
      ((Bit(x, k) && Bit(y, k)) || (Bit(x, k) && Bit(z, k)) || (Bit(y, k) && Bit(z, k)))
  {
    hide BitOf, Bits, FromBits, BvMaj;
    WordOfBits(BvMaj(Bits(x), Bits(y), Bits(z)));
    Majority(Bits(x), Bits(y), Bits(z), k);
  }

  // ---- the sums ------------------------------------------------------------------------------------

  lemma ModSum(a: int, b: int)
    ensures (a % TWO32 + b) % TWO32 == (a + b) % TWO32
  {
    var q, r := a / TWO32, a % TWO32;
    assert a == TWO32 * q + r;
    Shift(r + b, q);
  }

  lemma Shift(x: int, q: int)
    ensures (x + TWO32 * q) % TWO32 == x % TWO32
  {
    var k, r := x / TWO32, x % TWO32;
    Arithmetic.Divides(TWO32, k + q, r);
    assert x + TWO32 * q == TWO32 * (k + q) + r;
  }

  /** Section 6.2.2, step 1: the message schedule. */
  lemma ScheduleIsStandard(b: Text, t: nat)
    requires |b| == BLOCK && Bytes(b) && t < 64
    ensures W(b, t) ==
      if t < 16 then ((b[4 * t] * 0x100 + b[4 * t + 1]) * 0x100 + b[4 * t + 2]) * 0x100 + b[4 * t + 3]
      else (Small1(W(b, t - 2)) + W(b, t - 7) + Small0(W(b, t - 15)) + W(b, t - 16)) % TWO32
  {
    hide Small0, Small1;
    Recurrence(b, t);
    if t >= 16 {
      hide W;
      var s1: int, w7: int, s0: int := Small1(W(b, t - 2)), W(b, t - 7), Small0(W(b, t - 15));
      ModSum(s1 + w7, s0);
      ModSum(s1 + w7 + s0, W(b, t - 16));
    }
  }

  lemma T1IsStandard(v: Vars, k: Word32, w: Word32)
    ensures T1(v, k, w) == (v.h + Sigma1(v.e) + Ch(v.e, v.f, v.g) + k + w) % TWO32
  {
    hide Sigma1, Ch;
    var s1: int, ch: int := Sigma1(v.e), Ch(v.e, v.f, v.g);
    ModSum(v.h + s1, ch);
    ModSum(v.h + s1 + ch, k);
    ModSum(v.h + s1 + ch + k, w);
  }

  lemma SumOfTwo(a: int, b: int)
    ensures (a % TWO32 + b % TWO32) % TWO32 == (a + b) % TWO32
  {
    ModSum(a, b % TWO32);
    ModSum(b, a);
  }

  /** Step 3: one turn of the compression loop. */
  lemma StepIsStandard(v: Vars, k: Word32, w: Word32)
    ensures var t1 := v.h + Sigma1(v.e) + Ch(v.e, v.f, v.g) + k + w;
      var t2 := Sigma0(v.a) + Maj(v.a, v.b, v.c);
      Step(v, k, w) == Vars((t1 + t2) % TWO32, v.a, v.b, v.c, (v.d + t1) % TWO32, v.e, v.f, v.g)
  {
    hide Sigma0, Sigma1, Ch, Maj, T1;
    var t1: int := v.h + Sigma1(v.e) + Ch(v.e, v.f, v.g) + k + w;
    var t2: int := Sigma0(v.a) + Maj(v.a, v.b, v.c);
    T1IsStandard(v, k, w);
    SumOfTwo(t1, t2);
    ModSum(t1, v.d);
  }

  /** Steps 2 and 4: the working variables start as the hash value, in order, and are added to it. */
  lemma CompressIsStandard(h: seq<Word32>, b: Text)
    requires |h| == 8 && |b| == BLOCK && Bytes(b)
    ensures var start := Vars(h[0], h[1], h[2], h[3], h[4], h[5], h[6], h[7]);
      Work(start, b, 0) == start
      && (forall t :: 0 <= t < 64 ==> Work(start, b, t + 1) == Step(Work(start, b, t), K(t), W(b, t)))
      && var v := Work(start, b, 64);
         Compress(h, b) == [(h[0] + v.a) % TWO32, (h[1] + v.b) % TWO32, (h[2] + v.c) % TWO32, (h[3] + v.d) % TWO32,
                            (h[4] + v.e) % TWO32, (h[5] + v.f) % TWO32, (h[6] + v.g) % TWO32, (h[7] + v.h) % TWO32]
  {
    hide Step, K, W;
    var start := Vars(h[0], h[1], h[2], h[3], h[4], h[5], h[6], h[7]);
    forall t | 0 <= t < 64 ensures Work(start, b, t + 1) == Step(Work(start, b, t), K(t), W(b, t)) {
      OneTurn(start, b, t);
    }
    hide Work;
  }

  lemma OneTurn(v: Vars, b: Text, t: nat)
    requires |b| == BLOCK && Bytes(b) && t < 64
    ensures Work(v, b, t + 1) == Step(Work(v, b, t), K(t), W(b, t))
  {
    hide Step, K, W;
  }

  /** Section 6.2: the hash of a padded message is the initial value, compressed with each block in turn. */
  lemma BlocksInTurn(p: Text, block: Text)
    requires Bytes(p) && |p| % BLOCK == 0 && Bytes(block) && |block| == BLOCK
    ensures HashBlocks([]) == INITIAL()
    ensures Bytes(p + block) && |p + block| % BLOCK == 0
      && HashBlocks(p + block) == Compress(HashBlocks(p), block)
  {
    hide Compress, INITIAL;
    assert (p + block)[..|p|] == p && (p + block)[|p|..] == block;
  }

  // ---- words as text -------------------------------------------------------------------------------

  /** The digits of a word read back as the word: eight, most significant first. */
  lemma {:induction false} WordHexReads(n: nat, k: nat)
    ensures HexNumber(WordHex(n, k)) == n % Pow16(k)
    decreases k
  {
    if k > 0 {
      var less := WordHex(n / 16, k - 1);
      WordHexReads(n / 16, k - 1);
      var t := less + [HexChar(n % 16)];
      assert t[..|t| - 1] == less;
      LowDigit(n, k);
    }
  }

  function Pow16(k: nat): (p: nat)
    ensures p > 0
  {
    if k == 0 then 1 else 16 * Pow16(k - 1)
  }

  function HexNumber(t: Text): (n: int)
    requires forall i :: 0 <= i < |t| ==> IsLowerHex(t[i])
  {
    if t == [] then 0
    else
      assert IsLowerHex(t[|t| - 1]);
      16 * HexNumber(t[..|t| - 1]) + HexDigit(t[|t| - 1])
  }

  lemma LowDigit(n: nat, k: nat)
    requires k > 0
    ensures 16 * (n / 16 % Pow16(k - 1)) + n % 16 == n % Pow16(k)
  {
    var p := Pow16(k - 1);
    var q, r := n / 16 / p, n / 16 % p;
    assert n / 16 == p * q + r;
    assert n == 16 * (p * q + r) + n % 16;
    assert 16 * (p * q) == (16 * p) * q;
    Arithmetic.Divides(16 * p, q, 16 * r + n % 16);
  }

  /** A hash value as text: its words in order, eight digits each. */
  lemma {:induction false} HashTextIs(h: seq<Word32>, i: nat)
    requires i < |h|
    ensures |HashText(h)| == 8 * |h| && HashText(h)[8 * i..8 * i + 8] == WordHex(h[i], 8)
    ensures HexNumber(WordHex(h[i], 8)) == h[i]
    decreases |h|
  {
    hide WordHex, HexNumber;
    var n := |h| - 1;
    var less := HashText(h[..n]);
    if i < n {
      HashTextIs(h[..n], i);
      assert HashText(h)[8 * i..8 * i + 8] == less[8 * i..8 * i + 8];
    } else {
      assert |less| == 8 * n;
      assert HashText(h)[8 * n..8 * n + 8] == WordHex(h[n], 8);
    }
    WordReads(h[i]);
  }

  lemma WordReads(w: Word32)
    ensures HexNumber(WordHex(w, 8)) == w
  {
    hide WordHex, HexNumber;
    var k := 8;
    WordHexReads(w, k);
    EightDigits();
  }

  lemma EightDigits()
    ensures Pow16(8) == TWO32
  {}
}
