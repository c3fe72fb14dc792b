/** SHA3-256 around the permutation, against FIPS 202: which bit of a message goes where, the parameters, and the round
    constants as bits of a lane. */
module Sha3Standard {
  import opened Texts
  import opened Keccak
  import opened Sha3

  /** SHA3-256: a capacity of twice the digest, and 256 bits of digest (section 6.1). */
  lemma Parameters(a: Sheet)
    ensures 8 * RATE == 1600 - 2 * 256 && 8 * |Squeeze(a)| == 256
  {}

  /** The padding is the shortest that ends on a block: at least one byte, at most a block. */
  lemma ShortestPadding(data: Text)
    ensures |Padded(data)| % RATE == 0 && |data| < |Padded(data)| <= |data| + RATE
  {
    PaddedIsBlocks(data);
  }

  /** Bit i of a message, lowest bit of a byte first (appendix B.1). */
  predicate MessageBit(t: Text, i: nat)
    requires i < 8 * |t|
  {
    t[i / 8] / Pow2(i % 8) % 2 == 1
  }

  /** Section 3.1.2 and 4: bit 64 (5 y + x) + z of a block is added to the state at (x, y, z), and nothing else is
      changed. */
  lemma AbsorbIsStandard(a: Sheet, block: Text, x: nat, y: nat, z: nat)
    requires |block| == RATE && x < 5 && y < 5 && z < 64
    ensures var i := 64 * (5 * y + x) + z;
      Bit(XorBlock(a, block), x, y, z) ==
        if i < 8 * RATE then Bit(a, x, y, z) != MessageBit(block, i) else Bit(a, x, y, z)
  {
    hide Xor, ByteBit, XorBlock, BlockLane, MessageBit;
    var l := x + 5 * y;
    Place(x, y);
    XoredLane(a, block, l);
    if l < 17 { LaneBit(block, l, z); }
  }

  lemma XoredLane(a: Sheet, block: Text, l: nat)
    requires |block| == RATE && l < 25
    ensures XorBlock(a, block)[l] == if l < 17 then Xor(a[l], BlockLane(block, l)) else a[l]
  {
    hide Xor, BlockLane;
  }

  lemma LaneBit(block: Text, l: nat, z: nat)
    requires |block| == RATE && l < 17 && z < 64
    ensures BlockLane(block, l)[z] == MessageBit(block, 64 * l + z)
  {
    hide ByteBit, Pow2;
    var i, b := 64 * l + z, block[8 * l..8 * l + 8];
    assert i / 8 == 8 * l + z / 8 && i % 8 == z % 8;
    assert b[z / 8] == block[i / 8];
    BitIs(block[i / 8], i % 8);
  }

  lemma BitIs(b: int, z: nat)
    ensures ByteBit(b, z) <==> b / Pow2(z) % 2 == 1
  {}

  /** Section 4: the state starts as zeros, and takes one block and one permutation at a time. */
  lemma SpongeInTurn(p: Text, block: Text)
    requires |p| % RATE == 0 && |block| == RATE
    ensures forall x, y, z :: 0 <= x < 5 && 0 <= y < 5 && 0 <= z < 64 ==> !Bit(Sponge([]), x, y, z)
    ensures Sponge(p + block) == Rounds(XorBlock(Sponge(p), block), 24)
  {
    hide Rounds, XorBlock;
    assert (p + block)[..|p|] == p && (p + block)[|p|..] == block;
    assert Sponge([]) == EMPTY_SHEET();
  }

  /** Bit i of the digest is bit i of the state, by the same numbering. */
  lemma SqueezeIsStandard(a: Sheet, i: nat)
    requires i < 256
    ensures MessageBit(Squeeze(a), i) == a[i / 64][i % 64]
  {
    hide LaneBytes;
    var l, z := i / 64, i % 64;
    var t := Squeeze(a);
    assert t[8 * l..8 * l + 8] == LaneBytes(a[l]) by { LaneOfDigest(a, l); }
    LaneRoundTrip(a[l]);
    assert LaneOfBytes(LaneBytes(a[l]))[z] == ByteBit(LaneBytes(a[l])[z / 8], z % 8);
    assert t[8 * l..8 * l + 8][z / 8] == t[8 * l + z / 8];
    assert i / 8 == 8 * l + z / 8 && i % 8 == z % 8;
    BitIs(t[i / 8], i % 8);
  }

  lemma LaneOfDigest(a: Sheet, l: nat)
    requires l < 4
    ensures Squeeze(a)[8 * l..8 * l + 8] == LaneBytes(a[l])
  {
    hide LaneBytes;
  }

  // ---- the round constants as lanes ----------------------------------------------------------------

  function Off(n: nat): (r: seq<bool>)
    ensures |r| == n
  {
    seq(n, i => false)
  }

  /** Bits that are off only shift what follows. */
  lemma {:induction false} OffShifts(n: nat, rest: seq<bool>)
    ensures BitsValue(Off(n) + rest) == Pow2(n) * BitsValue(rest)
    decreases n
  {
    if n == 0 {
      assert Off(0) + rest == rest;
    } else {
      var bits := Off(n) + rest;
      assert bits[1..] == Off(n - 1) + rest;
      FirstBit(bits);
      OffShifts(n - 1, rest);
      Twice(Pow2(n - 1), BitsValue(rest));
    }
  }

  lemma Twice(p: int, v: int)
    ensures 2 * (p * v) == (2 * p) * v
  {}

  lemma OneShifts(b: bool, n: nat, p: int, rest: seq<bool>, v: int)
    requires p == Pow2(n) && v == BitsValue(rest)
    ensures BitsValue([b] + (Off(n) + rest)) == (if b then 1 else 0) + 2 * (p * v)
  {
    hide BitsValue, Pow2, Off;
    var bits := [b] + (Off(n) + rest);
    assert bits[1..] == Off(n) + rest;
    FirstBit(bits);
    OffShifts(n, rest);
  }

  /** Seven bits at the places 2^j - 1 of a lane. */
  function SevenPlaces(b: seq<bool>): (r: Lane)
    requires |b| == 7
  {
    seq(64, z requires 0 <= z < 64 =>
      if z == 0 then b[0] else if z == 1 then b[1] else if z == 3 then b[2] else if z == 7 then b[3]
      else if z == 15 then b[4] else if z == 31 then b[5] else if z == 63 then b[6] else false)
  }

  /** The bits of a lane from the place of bit j on. */
  function From(b: seq<bool>, j: nat): (r: seq<bool>)
    requires |b| == 7 && j < 7
    decreases 7 - j
  {
    if j == 6 then [b[6]] else [b[j]] + (Off(Gap(j)) + From(b, j + 1))
  }

  /** The places between one bit and the next. */
  function Gap(j: nat): (n: nat)
    requires j < 6
  {
    [0, 1, 3, 7, 15, 31][j]
  }

  lemma PlacesAreSum(b: seq<bool>)
    requires |b| == 7
    ensures BitsValue(SevenPlaces(b)) ==
      (if b[0] then 1 else 0) + (if b[1] then 2 else 0) + (if b[2] then 8 else 0) + (if b[3] then 128 else 0)
      + (if b[4] then 32768 else 0) + (if b[5] then 2147483648 else 0) + (if b[6] then 9223372036854775808 else 0)
  {
    hide BitsValue, Off, SevenPlaces, From;
    assert SevenPlaces(b) == From(b, 0) by { PlacesApart(b); }
    var j := 0;
    ValueFrom(b, j);
    SumOfSeven(b);
  }

  /** What bit j is worth. */
  function Weight(j: nat): (w: int)
    requires j < 7
  {
    [1, 2, 8, 128, 32768, 2147483648, 9223372036854775808][j]
  }

  function SumFrom(b: seq<bool>, j: nat): (n: int)
    requires |b| == 7 && j <= 7
    decreases 7 - j
  {
    if j == 7 then 0 else (if b[j] then Weight(j) else 0) + SumFrom(b, j + 1)
  }

  lemma SumOfSeven(b: seq<bool>)
    requires |b| == 7
    ensures SumFrom(b, 0) ==
      (if b[0] then 1 else 0) + (if b[1] then 2 else 0) + (if b[2] then 8 else 0) + (if b[3] then 128 else 0)
      + (if b[4] then 32768 else 0) + (if b[5] then 2147483648 else 0) + (if b[6] then 9223372036854775808 else 0)
  {}

  lemma WeightStep(j: nat)
    requires j < 6
    ensures Weight(j + 1) == Weight(j) * (2 * Pow2(Gap(j)))
  {
    hide Pow2;
    Powers();
    if j == 0 {} else if j == 1 {} else if j == 2 {} else if j == 3 {} else if j == 4 {} else { assert j == 5; }
  }

  /** The value from a bit on, at the place of the bit. */
  lemma {:induction false} ValueFrom(b: seq<bool>, j: nat)
    requires |b| == 7 && j < 7
    ensures Weight(j) * BitsValue(From(b, j)) == SumFrom(b, j)
    decreases 7 - j
  {
    hide BitsValue, Off, Pow2, Gap, Weight;
    if j == 6 {
      LastBit(b[6]);
      assert SumFrom(b, j + 1) == 0;
    } else {
      var rest, p := From(b, j + 1), Pow2(Gap(j));
      OneShifts(b[j], Gap(j), p, rest, BitsValue(rest));
      ValueFrom(b, j + 1);
      WeightStep(j);
      Carried(Weight(j), if b[j] then 1 else 0, p, BitsValue(rest));
    }
  }

  lemma Carried(w: int, o: int, p: int, v: int)
    ensures w * (o + 2 * (p * v)) == w * o + w * (2 * p) * v
  {}

  lemma Steps(b: seq<bool>)
    requires |b| == 7
    ensures From(b, 6) == [b[6]] && From(b, 5) == [b[5]] + (Off(31) + From(b, 6))
    ensures From(b, 4) == [b[4]] + (Off(15) + From(b, 5)) && From(b, 3) == [b[3]] + (Off(7) + From(b, 4))
    ensures From(b, 2) == [b[2]] + (Off(3) + From(b, 3)) && From(b, 1) == [b[1]] + (Off(1) + From(b, 2))
    ensures From(b, 0) == [b[0]] + (Off(0) + From(b, 1))
  {
    hide Off;
  }

  lemma LastBit(b: bool)
    ensures BitsValue([b]) == if b then 1 else 0
  {
    FirstBit([b]);
  }

  lemma PlacesApart(b: seq<bool>)
    requires |b| == 7
    ensures SevenPlaces(b) == From(b, 0)
  {
    hide From;
    Steps(b);
    assert SevenPlaces(b) == [b[0]] + (Off(0) + ([b[1]] + (Off(1) + ([b[2]] + (Off(3) + ([b[3]] + (Off(7) + ([b[4]]
      + (Off(15) + ([b[5]] + (Off(31) + [b[6]])))))))))));
  }

  lemma Powers()
    ensures Pow2(0) == 1 && Pow2(1) == 2 && Pow2(3) == 8 && Pow2(7) == 128 && Pow2(15) == 32768
    ensures Pow2(31) == 2147483648
  {
    assert Pow2(7) == 128;
    assert Pow2(11) == 2048;
    assert Pow2(15) == 32768;
    assert Pow2(19) == 524288;
    assert Pow2(23) == 8388608;
    assert Pow2(27) == 134217728;
  }

  /** rc(t) of algorithm 5 in section 3.2.5: the first bit of the register after t steps. */
  predicate RcBit(t: nat) { Register(t).r0 }

  /** Algorithm 6: the constant of round i is the lane with rc(j + 7 i) at bit 2^j - 1 for j from 0 to 6, and no other
      bit; and the rounds use them in order. */
  lemma RoundConstantBits(i: nat, a: Sheet)
    requires i < 24
    ensures var n := 7 * i;
      LaneOfInt(RC(i)) == SevenPlaces([RcBit(n), RcBit(n + 1), RcBit(n + 2), RcBit(n + 3), RcBit(n + 4), RcBit(n + 5),
                                       RcBit(n + 6)])
    ensures Rounds(a, i + 1) == Iota(Chi(Pi(Rho(Theta(Rounds(a, i))))), LaneOfInt(RC(i)))
  {
    hide RC, SevenPlaces, Theta, Rho, Pi, Chi, Iota, ConstantFrom;
    var n := 7 * i;
    var b := [RcBit(n), RcBit(n + 1), RcBit(n + 2), RcBit(n + 3), RcBit(n + 4), RcBit(n + 5), RcBit(n + 6)];
    RoundConstantsAreStandard(i);
    ConstantIsSum(n);
    PlacesAreSum(b);
    LaneOfBits(SevenPlaces(b));
  }

  lemma ConstantIsSum(n: nat)
    ensures ConstantFrom(Register(n)) ==
      (if RcBit(n) then 1 else 0) + (if RcBit(n + 1) then 2 else 0) + (if RcBit(n + 2) then 8 else 0)
      + (if RcBit(n + 3) then 128 else 0) + (if RcBit(n + 4) then 32768 else 0)
      + (if RcBit(n + 5) then 2147483648 else 0) + (if RcBit(n + 6) then 9223372036854775808 else 0)
  {
    hide Shift;
    var r := Register(n);
    assert Register(n + 1) == Shift(r) && Register(n + 2) == Shift(Register(n + 1));
    assert Register(n + 3) == Shift(Register(n + 2)) && Register(n + 4) == Shift(Register(n + 3));
    assert Register(n + 5) == Shift(Register(n + 4)) && Register(n + 6) == Shift(Register(n + 5));
  }

  lemma LaneOfBits(v: Lane)
    ensures BitsValue(v) >= 0 && LaneOfInt(BitsValue(v)) == v
  {
    hide BitsValue, Pow2;
    forall z | 0 <= z < 64 ensures LaneOfInt(BitsValue(v))[z] == v[z] {
      BitOfValue(v, z);
      BitIs(BitsValue(v), z);
    }
  }
}
