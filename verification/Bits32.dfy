/** The bits of a 32-bit word under rotations, shifts and the logical functions of SHA-256. Bit numbers are counted
    modulo 32, the lowest bit being bit 0. */
module Bits32 {

  predicate BitOf(v: bv32, k: bv5) { (v >> k) & 1 == 1 }

  function BvSigma0(v: bv32): (r: bv32) { v.RotateRight(2) ^ v.RotateRight(13) ^ v.RotateRight(22) }

  function BvSigma1(v: bv32): (r: bv32) { v.RotateRight(6) ^ v.RotateRight(11) ^ v.RotateRight(25) }

  function BvSmall0(v: bv32): (r: bv32) { v.RotateRight(7) ^ v.RotateRight(18) ^ (v >> 3) }

  function BvSmall1(v: bv32): (r: bv32) { v.RotateRight(17) ^ v.RotateRight(19) ^ (v >> 10) }

  function BvCh(a: bv32, b: bv32, c: bv32): (r: bv32) { (a & b) ^ (!a & c) }

  function BvMaj(a: bv32, b: bv32, c: bv32): (r: bv32) { (a & b) ^ (a & c) ^ (b & c) }

  lemma Parity(a: bv32, b: bv32, c: bv32, k: bv5)
    ensures BitOf(a ^ b ^ c, k) == (BitOf(a, k) != (BitOf(b, k) != BitOf(c, k)))
  {}

  lemma BigSigma0(v: bv32, k: bv5)
    ensures BitOf(BvSigma0(v), k) ==
      (BitOf(v, k + 2) != (BitOf(v, k + 13) != BitOf(v, k + 22)))
  {
    BigSigma0Of(v, k, BitOf(v, k + 2), BitOf(v, k + 13), BitOf(v, k + 22));
  }

  lemma BigSigma0Of(v: bv32, k: bv5, x: bool, y: bool, z: bool)
    requires x == BitOf(v, k + 2) && y == BitOf(v, k + 13) && z == BitOf(v, k + 22)
    ensures BitOf(v.RotateRight(2) ^ v.RotateRight(13) ^ v.RotateRight(22), k) == (x != (y != z))
  {
    Parity(v.RotateRight(2), v.RotateRight(13), v.RotateRight(22), k);
  }

  lemma BigSigma1(v: bv32, k: bv5)
    ensures BitOf(BvSigma1(v), k) ==
      (BitOf(v, k + 6) != (BitOf(v, k + 11) != BitOf(v, k + 25)))
  {
    BigSigma1Of(v, k, BitOf(v, k + 6), BitOf(v, k + 11), BitOf(v, k + 25));
  }

  lemma BigSigma1Of(v: bv32, k: bv5, x: bool, y: bool, z: bool)
    requires x == BitOf(v, k + 6) && y == BitOf(v, k + 11) && z == BitOf(v, k + 25)
    ensures BitOf(v.RotateRight(6) ^ v.RotateRight(11) ^ v.RotateRight(25), k) == (x != (y != z))
  {
    Parity(v.RotateRight(6), v.RotateRight(11), v.RotateRight(25), k);
  }

  lemma SmallSigma0(v: bv32, k: bv5)
    ensures BitOf(BvSmall0(v), k) ==
      (BitOf(v, k + 7) != (BitOf(v, k + 18) != (k < 29 && BitOf(v, k + 3))))
  {
    SmallSigma0Of(v, k, BitOf(v, k + 7), BitOf(v, k + 18), k < 29 && BitOf(v, k + 3));
  }

  lemma SmallSigma0Of(v: bv32, k: bv5, x: bool, y: bool, z: bool)
    requires x == BitOf(v, k + 7) && y == BitOf(v, k + 18) && z == (k < 29 && BitOf(v, k + 3))
    ensures BitOf(v.RotateRight(7) ^ v.RotateRight(18) ^ (v >> 3), k) == (x != (y != z))
  {
    Parity(v.RotateRight(7), v.RotateRight(18), v >> 3, k);
  }

  lemma SmallSigma1(v: bv32, k: bv5)
    ensures BitOf(BvSmall1(v), k) ==
      (BitOf(v, k + 17) != (BitOf(v, k + 19) != (k < 22 && BitOf(v, k + 10))))
  {
    SmallSigma1Of(v, k, BitOf(v, k + 17), BitOf(v, k + 19), k < 22 && BitOf(v, k + 10));
  }

  lemma SmallSigma1Of(v: bv32, k: bv5, x: bool, y: bool, z: bool)
    requires x == BitOf(v, k + 17) && y == BitOf(v, k + 19) && z == (k < 22 && BitOf(v, k + 10))
    ensures BitOf(v.RotateRight(17) ^ v.RotateRight(19) ^ (v >> 10), k) == (x != (y != z))
  {
    Parity(v.RotateRight(17), v.RotateRight(19), v >> 10, k);
  }

  lemma Choice(a: bv32, b: bv32, c: bv32, k: bv5)
    ensures BitOf(BvCh(a, b, c), k) == if BitOf(a, k) then BitOf(b, k) else BitOf(c, k)
  {
    ChoiceOf(a, b, c, k);
  }

  lemma ChoiceOf(a: bv32, b: bv32, c: bv32, k: bv5)
    ensures BitOf((a & b) ^ (!a & c), k) == if BitOf(a, k) then BitOf(b, k) else BitOf(c, k)
  {}

  lemma Majority(a: bv32, b: bv32, c: bv32, k: bv5)
    ensures BitOf(BvMaj(a, b, c), k) ==
      ((BitOf(a, k) && BitOf(b, k)) || (BitOf(a, k) && BitOf(c, k)) || (BitOf(b, k) && BitOf(c, k)))
  {
    MajorityOf(a, b, c, k);
  }

  lemma MajorityOf(a: bv32, b: bv32, c: bv32, k: bv5)
    ensures BitOf((a & b) ^ (a & c) ^ (b & c), k) ==
      ((BitOf(a, k) && BitOf(b, k)) || (BitOf(a, k) && BitOf(c, k)) || (BitOf(b, k) && BitOf(c, k)))
  {}
}
