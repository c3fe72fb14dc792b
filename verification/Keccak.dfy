/** The permutation of verifiers/rust/src/keccak.rs, in place on an array of 25 lanes, and the step mappings of
    FIPS 202 (sections 3.2.1 to 3.2.5) it computes, bit by bit. */
module Keccak {

  /** A 64-bit word, bit 0 first. */
  type Lane = v: seq<bool> | |v| == 64 witness seq(64, z => false)

  type Sheet = a: seq<Lane> | |a| == 25 witness seq(25, i => seq(64, z => false))

  function Xor(a: Lane, b: Lane): (r: Lane)
    ensures forall z :: 0 <= z < 64 ==> r[z] == (a[z] != b[z])
  {
    seq(64, z requires 0 <= z < 64 => a[z] != b[z])
  }

  function And(a: Lane, b: Lane): (r: Lane)
    ensures forall z :: 0 <= z < 64 ==> r[z] == (a[z] && b[z])
  {
    seq(64, z requires 0 <= z < 64 => a[z] && b[z])
  }

  function Not(a: Lane): (r: Lane)
    ensures forall z :: 0 <= z < 64 ==> r[z] == !a[z]
  {
    seq(64, z requires 0 <= z < 64 => !a[z])
  }

  /** rotate_left: the bit at z comes from n places below. */
  function Rotl(a: Lane, n: nat): (r: Lane)
    ensures forall z :: 0 <= z < 64 ==> r[z] == a[(z - n) % 64]
  {
    seq(64, z requires 0 <= z < 64 => a[(z - n) % 64])
  }

  function ZERO_LANE(): (r: Lane) { seq(64, z => false) }

  // ---- constants -----------------------------------------------------------------------------------

  /** The rotation offsets of the code, at x + 5y. */
  function ROT(i: nat): (r: nat)
    requires i < 25
  {
    [0, 1, 62, 28, 27, 36, 44, 6, 55, 20, 3, 10, 43, 25, 39, 41, 45, 15, 21, 8, 18, 2, 61, 56, 14][i]
  }

  /** The round constants of the code. */
  function RC(i: nat): (r: nat)
    requires i < 24
  {
    [0x0000000000000001, 0x0000000000008082, 0x800000000000808A, 0x8000000080008000, 0x000000000000808B,
     0x0000000080000001, 0x8000000080008081, 0x8000000000008009, 0x000000000000008A, 0x0000000000000088,
     0x0000000080008009, 0x000000008000000A, 0x000000008000808B, 0x800000000000008B, 0x8000000000008089,
     0x8000000000008003, 0x8000000000008002, 0x8000000000000080, 0x000000000000800A, 0x800000008000000A,
     0x8000000080008081, 0x8000000000008080, 0x0000000080000001, 0x8000000080008008][i]
  }

  function Pow2(n: nat): (p: nat)
    ensures p > 0
  {
    if n == 0 then 1 else 2 * Pow2(n - 1)
  }

  function LaneOfInt(v: nat): (r: Lane) { seq(64, z requires 0 <= z < 64 => v / Pow2(z) % 2 == 1) }

  // ---- the steps on lanes --------------------------------------------------------------------------

  function Column(a: Sheet, x: nat): (r: Lane)
    requires x < 5
  {
    Xor(Xor(Xor(Xor(a[x], a[x + 5]), a[x + 10]), a[x + 15]), a[x + 20])
  }

  function ThetaMask(a: Sheet, x: nat): (r: Lane)
    requires x < 5
  {
    Xor(Column(a, (x + 4) % 5), Rotl(Column(a, (x + 1) % 5), 1))
  }

  function Theta(a: Sheet): (r: Sheet)
  {
    seq(25, i requires 0 <= i < 25 => Xor(a[i], ThetaMask(a, i % 5)))
  }

  function Rho(a: Sheet): (r: Sheet)
  {
    seq(25, i requires 0 <= i < 25 => Rotl(a[i], ROT(i)))
  }

  /** The lane that pi brings to place i. */
  function PiSource(i: nat): (j: nat)
    requires i < 25
    ensures j < 25
  {
    (i % 5 + 3 * (i / 5)) % 5 + 5 * (i % 5)
  }

  function Pi(a: Sheet): (r: Sheet)
  {
    seq(25, i requires 0 <= i < 25 => a[PiSource(i)])
  }

  function Chi(a: Sheet): (r: Sheet)
  {
    seq(25, i requires 0 <= i < 25 => ChiLane(a, i))
  }

  function ChiLane(a: Sheet, i: nat): (r: Lane)
    requires i < 25
  {
    Xor(a[i], And(Not(a[(i % 5 + 1) % 5 + 5 * (i / 5)]), a[(i % 5 + 2) % 5 + 5 * (i / 5)]))
  }

  function Iota(a: Sheet, rc: Lane): (r: Sheet) { a[0 := Xor(a[0], rc)] }

  function Round(a: Sheet, rc: Lane): (r: Sheet) { Iota(Chi(Pi(Rho(Theta(a)))), rc) }

  /** The first n rounds. */
  function Rounds(a: Sheet, n: nat): (r: Sheet)
    requires n <= 24
  {
    if n == 0 then a else Round(Rounds(a, n - 1), LaneOfInt(RC(n - 1)))
  }

  // ---- FIPS 202 ------------------------------------------------------------------------------------

  /** A[x, y, z] of section 3.1.2. */
  predicate Bit(a: Sheet, x: nat, y: nat, z: nat)
    requires x < 5 && y < 5 && z < 64
  {
    a[x + 5 * y][z]
  }

  /** The parity C[x, z] of a column. */
  predicate Parity(a: Sheet, x: nat, z: nat)
    requires x < 5 && z < 64
  {
    Bit(a, x, 0, z) != (Bit(a, x, 1, z) != (Bit(a, x, 2, z) != (Bit(a, x, 3, z) != Bit(a, x, 4, z))))
  }

  lemma ColumnParity(a: Sheet, x: nat, z: nat)
    requires x < 5 && z < 64
    ensures Column(a, x)[z] == Parity(a, x, z)
  {}

  lemma Place(x: nat, y: nat)
    requires x < 5 && y < 5
    ensures (x + 5 * y) % 5 == x && (x + 5 * y) / 5 == y
  {}

  /** Section 3.2.1: each bit is combined with the parities of two columns. */
  lemma ThetaIsStandard(a: Sheet, x: nat, y: nat, z: nat)
    requires x < 5 && y < 5 && z < 64
    ensures Bit(Theta(a), x, y, z)
      == (Bit(a, x, y, z) != (Parity(a, (x + 4) % 5, z) != Parity(a, (x + 1) % 5, (z + 63) % 64)))
  {
    hide Column, Parity;
    Place(x, y);
    ColumnParity(a, (x + 4) % 5, z);
    ColumnParity(a, (x + 1) % 5, (z + 63) % 64);
    assert (z - 1) % 64 == (z + 63) % 64;
    assert Theta(a)[x + 5 * y] == Xor(a[x + 5 * y], ThetaMask(a, x));
  }

  /** The walk of section 3.2.2: from (1, 0), to (y, 2x + 3y). */
  function Walk(t: nat): (p: (nat, nat))
    ensures p.0 < 5 && p.1 < 5
  {
    if t == 0 then (1, 0) else var p := Walk(t - 1); (p.1, (2 * p.0 + 3 * p.1) % 5)
  }

  /** The first twelve places of the walk, and the last twelve. */
  lemma WalkFirst()
    ensures Walk(0) == (1, 0) && Walk(1) == (0, 2) && Walk(2) == (2, 1) && Walk(3) == (1, 2)
    ensures Walk(4) == (2, 3) && Walk(5) == (3, 3) && Walk(6) == (3, 0) && Walk(7) == (0, 1)
    ensures Walk(8) == (1, 3) && Walk(9) == (3, 1) && Walk(10) == (1, 4) && Walk(11) == (4, 4)
  {}

  lemma WalkLast()
    ensures Walk(12) == (4, 0) && Walk(13) == (0, 3) && Walk(14) == (3, 4) && Walk(15) == (4, 3)
    ensures Walk(16) == (3, 2) && Walk(17) == (2, 2) && Walk(18) == (2, 0) && Walk(19) == (0, 4)
    ensures Walk(20) == (4, 2) && Walk(21) == (2, 4) && Walk(22) == (4, 1) && Walk(23) == (1, 1)
  {
    WalkFirst();
  }

  /** Both tables, along the walk. */
  lemma OffsetTable()
    ensures ROT(1) == 1 && ROT(10) == 3 && ROT(7) == 6 && ROT(11) == 10 && ROT(17) == 15 && ROT(18) == 21
    ensures ROT(3) == 28 && ROT(5) == 36 && ROT(16) == 45 && ROT(8) == 55 && ROT(21) == 2 && ROT(24) == 14
    ensures ROT(4) == 27 && ROT(15) == 41 && ROT(23) == 56 && ROT(19) == 8 && ROT(13) == 25 && ROT(12) == 43
    ensures ROT(2) == 62 && ROT(20) == 18 && ROT(14) == 39 && ROT(22) == 61 && ROT(9) == 20 && ROT(6) == 44
    ensures ROT(0) == 0
  {}

  lemma TriangleTable()
    ensures Triangle(0) % 64 == 1 && Triangle(1) % 64 == 3 && Triangle(2) % 64 == 6 && Triangle(3) % 64 == 10
      && Triangle(4) % 64 == 15 && Triangle(5) % 64 == 21
    ensures Triangle(6) % 64 == 28 && Triangle(7) % 64 == 36 && Triangle(8) % 64 == 45 && Triangle(9) % 64 == 55
      && Triangle(10) % 64 == 2 && Triangle(11) % 64 == 14
    ensures Triangle(12) % 64 == 27 && Triangle(13) % 64 == 41 && Triangle(14) % 64 == 56 && Triangle(15) % 64 == 8
      && Triangle(16) % 64 == 25 && Triangle(17) % 64 == 43
    ensures Triangle(18) % 64 == 62 && Triangle(19) % 64 == 18 && Triangle(20) % 64 == 39 && Triangle(21) % 64 == 61
      && Triangle(22) % 64 == 20 && Triangle(23) % 64 == 44
  {}

  /** The offsets of the code are the triangular numbers of the standard, along the walk. */
  lemma OffsetsAreTriangular(t: nat)
    requires t < 24
    ensures var p := Walk(t); ROT(p.0 + 5 * p.1) == Triangle(t) % 64
    ensures ROT(0) == 0
  {
    hide Walk, ROT, Triangle;
    WalkFirst();
    WalkLast();
    OffsetTable();
    TriangleTable();
  }

  function Triangle(t: nat): (r: nat) { (t + 1) * (t + 2) / 2 }

  /** The walk reaches every place but the origin. */
  lemma WalkCovers(x: nat, y: nat) returns (t: nat)
    requires x < 5 && y < 5 && (x, y) != (0, 0)
    ensures t < 24 && Walk(t) == (x, y)
  {
    hide Walk;
    WalkFirst();
    WalkLast();
    if y == 0 { t := [0, 0, 18, 6, 12][x]; }
    else if y == 1 { t := [7, 23, 2, 9, 22][x]; }
    else if y == 2 { t := [1, 3, 17, 16, 20][x]; }
    else if y == 3 { t := [13, 8, 4, 5, 15][x]; }
    else { t := [19, 10, 21, 14, 11][x]; }
  }

  /** Section 3.2.2: the lane at step t of the walk is rotated by (t + 1)(t + 2)/2, the origin stays. */
  lemma RhoIsStandard(a: Sheet, t: nat, z: nat)
    requires t < 24 && z < 64
    ensures var p := Walk(t); Bit(Rho(a), p.0, p.1, z) == Bit(a, p.0, p.1, (z - (t + 1) * (t + 2) / 2) % 64)
    ensures Bit(Rho(a), 0, 0, z) == Bit(a, 0, 0, z)
  {
    hide Walk, ROT, Rotl;
    OffsetsAreTriangular(t);
    var p := Walk(t);
    RotatedBit(a[p.0 + 5 * p.1], Triangle(t), z);
    RotatedBit(a[0], 0, z);
  }

  lemma RotatedBit(a: Lane, n: nat, z: nat)
    requires z < 64
    ensures Rotl(a, n % 64)[z] == a[(z - n) % 64]
  {
    assert (z - n % 64) % 64 == (z - n) % 64;
  }

  /** Section 3.2.3. */
  lemma PiIsStandard(a: Sheet, x: nat, y: nat, z: nat)
    requires x < 5 && y < 5 && z < 64
    ensures Bit(Pi(a), x, y, z) == Bit(a, (x + 3 * y) % 5, x, z)
  {
    Place(x, y);
  }

  /** Where the code writes the lane (x, y). */
  function PiTarget(x: nat, y: nat): (j: nat)
    requires x < 5 && y < 5
    ensures j < 25
  {
    y + 5 * ((2 * x + 3 * y) % 5)
  }

  /** The index map of the code is a permutation of the 25 places: it is undone by the map of the standard, from
      both sides. */
  lemma PiMapsInvert(x: nat, y: nat, i: nat)
    requires x < 5 && y < 5 && i < 25
    ensures PiSource(PiTarget(x, y)) == x + 5 * y
    ensures PiTarget(PiSource(i) % 5, PiSource(i) / 5) == i
  {
    PiBack(x, y);
    PiForth(i);
  }

  lemma PiBack(x: nat, y: nat)
    requires x < 5 && y < 5
    ensures PiSource(PiTarget(x, y)) == x + 5 * y
  {
    Place(y, (2 * x + 3 * y) % 5);
    Fifths(x, y);
  }

  lemma PiForth(i: nat)
    requires i < 25
    ensures PiTarget(PiSource(i) % 5, PiSource(i) / 5) == i
  {
    var u, w := i % 5, i / 5;
    Place((u + 3 * w) % 5, u);
    Fifths5(u, w);
  }

  lemma Fifths(x: nat, y: nat)
    requires x < 5 && y < 5
    ensures (y + 3 * ((2 * x + 3 * y) % 5)) % 5 == x
  {}

  lemma Fifths5(u: nat, w: nat)
    requires u < 5 && w < 5
    ensures (2 * ((u + 3 * w) % 5) + 3 * u) % 5 == w
  {}

  /** Section 3.2.4. */
  lemma ChiIsStandard(a: Sheet, x: nat, y: nat, z: nat)
    requires x < 5 && y < 5 && z < 64
    ensures Bit(Chi(a), x, y, z) == (Bit(a, x, y, z) != (!Bit(a, (x + 1) % 5, y, z) && Bit(a, (x + 2) % 5, y, z)))
  {
    Place(x, y);
    assert Chi(a)[x + 5 * y] == ChiLane(a, x + 5 * y);
  }

  /** Section 3.2.5: only the origin lane changes. */
  lemma IotaIsStandard(a: Sheet, rc: Lane, x: nat, y: nat, z: nat)
    requires x < 5 && y < 5 && z < 64
    ensures Bit(Iota(a, rc), x, y, z) == (if (x, y) == (0, 0) then Bit(a, 0, 0, z) != rc[z] else Bit(a, x, y, z))
  {}

  // ---- the round constants -------------------------------------------------------------------------

  /** The register of algorithm 5 in section 3.2.5. */
  datatype Reg = Reg(r0: bool, r1: bool, r2: bool, r3: bool, r4: bool, r5: bool, r6: bool, r7: bool)

  function Shift(r: Reg): (res: Reg)
  {
    Reg(r.r7, r.r0, r.r1, r.r2, r.r3 != r.r7, r.r4 != r.r7, r.r5 != r.r7, r.r6)
  }

  /** The register after n steps from 10000000; rc(n) is its first bit (n stays below 255 here). */
  function Register(n: nat): (r: Reg)
  {
    if n == 0 then Reg(true, false, false, false, false, false, false, false) else Shift(Register(n - 1))
  }

  /** The constant of a round whose seven bits start at this register: rc(j + 7 ir) at place 2^j - 1. */
  function ConstantFrom(r: Reg): (res: nat)
  {
    var a := Shift(r);
    var b := Shift(a);
    var c := Shift(b);
    var d := Shift(c);
    var e := Shift(d);
    var f := Shift(e);
    (if r.r0 then 1 else 0) + (if a.r0 then 2 else 0) + (if b.r0 then 8 else 0) + (if c.r0 then 128 else 0)
      + (if d.r0 then 32768 else 0)
    + (if e.r0 then 2147483648 else 0) + (if f.r0 then 9223372036854775808 else 0)
  }

  /** The registers at the start of each round. */
  function RoundRegister(i: nat): (r: Reg)
    requires i <= 24
  {
    if i == 0 then Reg(true, false, false, false, false, false, false, false)
    else if i == 1 then Reg(false, false, false, false, false, false, false, true)
    else if i == 2 then Reg(false, false, false, true, true, false, true, true)
    else if i == 3 then Reg(false, true, false, true, true, false, false, false)
    else if i == 4 then Reg(true, true, true, true, true, false, true, true)
    else if i == 5 then Reg(true, false, false, true, false, false, false, false)
    else if i == 6 then Reg(true, false, true, false, true, true, false, false)
    else if i == 7 then Reg(true, true, true, true, false, false, true, false)
    else if i == 8 then Reg(false, true, false, true, false, false, true, true)
    else if i == 9 then Reg(false, false, false, false, true, true, true, false)
    else if i == 10 then Reg(true, false, false, false, false, false, true, false)
    else if i == 11 then Reg(false, false, true, true, false, true, true, true)
    else if i == 12 then Reg(true, false, true, false, true, false, true, true)
    else if i == 13 then Reg(true, false, true, true, false, false, true, true)
    else if i == 14 then Reg(true, true, false, false, false, true, true, false)
    else if i == 15 then Reg(true, true, false, true, false, true, false, true)
    else if i == 16 then Reg(false, true, false, true, false, true, false, true)
    else if i == 17 then Reg(false, true, false, true, false, true, false, false)
    else if i == 18 then Reg(false, true, false, false, true, true, true, true)
    else if i == 19 then Reg(false, false, false, true, false, true, true, true)
    else if i == 20 then Reg(true, true, true, false, true, true, false, false)
    else if i == 21 then Reg(false, true, true, true, true, true, false, false)
    else if i == 22 then Reg(true, true, false, true, false, false, false, false)
    else if i == 23 then Reg(false, false, true, false, false, false, true, false)
    else Reg(false, true, true, true, false, false, false, true)
  }

  /** Seven steps at once. */
  lemma SevenAtOnce(r: Reg)
    ensures Shift(Shift(Shift(Shift(Shift(Shift(Shift(r))))))) == Seven(r)
  {}

  function Seven(r: Reg): (res: Reg)
  {
    Reg((r.r1 != (r.r3 != r.r4)), (r.r2 != (r.r4 != r.r5)), (r.r3 != (r.r5 != r.r6)), (r.r4 != (r.r6 != r.r7)),
        (r.r1 != (r.r3 != (r.r4 != (r.r5 != r.r7)))), (r.r1 != (r.r2 != (r.r3 != (r.r5 != r.r6)))),
        (r.r1 != (r.r2 != (r.r6 != r.r7))), (r.r0 != (r.r2 != (r.r3 != r.r7))))
  }

  lemma SevenTable1(i: nat)
    requires 0 <= i < 3
    ensures Seven(RoundRegister(i)) == RoundRegister(i + 1)
  {}

  lemma SevenTable2(i: nat)
    requires 3 <= i < 6
    ensures Seven(RoundRegister(i)) == RoundRegister(i + 1)
  {}

  lemma SevenTable3(i: nat)
    requires 6 <= i < 9
    ensures Seven(RoundRegister(i)) == RoundRegister(i + 1)
  {}

  lemma SevenTable4(i: nat)
    requires 9 <= i < 12
    ensures Seven(RoundRegister(i)) == RoundRegister(i + 1)
  {}

  lemma SevenTable5(i: nat)
    requires 12 <= i < 15
    ensures Seven(RoundRegister(i)) == RoundRegister(i + 1)
  {}

  lemma SevenTable6(i: nat)
    requires 15 <= i < 18
    ensures Seven(RoundRegister(i)) == RoundRegister(i + 1)
  {}

  lemma SevenTable7(i: nat)
    requires 18 <= i < 21
    ensures Seven(RoundRegister(i)) == RoundRegister(i + 1)
  {}

  lemma SevenTable8(i: nat)
    requires 21 <= i < 24
    ensures Seven(RoundRegister(i)) == RoundRegister(i + 1)
  {}

  lemma SevenTable(i: nat)
    requires i < 24
    ensures Seven(RoundRegister(i)) == RoundRegister(i + 1)
  {
    hide Seven, RoundRegister;
    if i < 3 {
      SevenTable1(i);
    } else if i < 6 {
      SevenTable2(i);
    } else if i < 9 {
      SevenTable3(i);
    } else if i < 12 {
      SevenTable4(i);
    } else if i < 15 {
      SevenTable5(i);
    } else if i < 18 {
      SevenTable6(i);
    } else if i < 21 {
      SevenTable7(i);
    } else {
      SevenTable8(i);
    }
  }

  lemma SevenShifts(i: nat)
    requires i < 24
    ensures Shift(Shift(Shift(Shift(Shift(Shift(Shift(RoundRegister(i)))))))) == RoundRegister(i + 1)
  {
    hide Shift, Seven, RoundRegister;
    SevenAtOnce(RoundRegister(i));
    SevenTable(i);
  }

  /** The bits of the constant, read off the register. */
  lemma SixShifts(r: Reg)
    ensures ConstantFrom(r) == (if r.r0 then 1 else 0) + (if r.r7 then 2 else 0) + (if r.r6 then 8 else 0)
      + (if r.r5 != r.r7 then 128 else 0) + (if r.r4 != (r.r7 != r.r6) then 32768 else 0)
      + (if r.r3 != (r.r7 != (r.r6 != (r.r5 != r.r7))) then 2147483648 else 0)
      + (if r.r2 != (r.r6 != (r.r5 != (r.r7 != (r.r4 != (r.r7 != r.r6))))) then 9223372036854775808 else 0)
  {}

  lemma ConstantTable1(i: nat)
    requires 0 <= i < 6
    ensures ConstantFrom(RoundRegister(i)) == RC(i)
  {
    hide ConstantFrom;
    SixShifts(RoundRegister(i));
  }

  lemma ConstantTable2(i: nat)
    requires 6 <= i < 12
    ensures ConstantFrom(RoundRegister(i)) == RC(i)
  {
    hide ConstantFrom;
    SixShifts(RoundRegister(i));
  }

  lemma ConstantTable3(i: nat)
    requires 12 <= i < 18
    ensures ConstantFrom(RoundRegister(i)) == RC(i)
  {
    hide ConstantFrom;
    SixShifts(RoundRegister(i));
  }

  lemma ConstantTable4(i: nat)
    requires 18 <= i < 24
    ensures ConstantFrom(RoundRegister(i)) == RC(i)
  {
    hide ConstantFrom;
    SixShifts(RoundRegister(i));
  }

  lemma ConstantTable(i: nat)
    requires i < 24
    ensures ConstantFrom(RoundRegister(i)) == RC(i)
  {
    hide ConstantFrom, RoundRegister, RC;
    if i < 6 {
      ConstantTable1(i);
    } else if i < 12 {
      ConstantTable2(i);
    } else if i < 18 {
      ConstantTable3(i);
    } else {
      ConstantTable4(i);
    }
  }

  lemma FirstRegister()
    ensures RoundRegister(0) == Register(0)
  {}

  lemma {:induction false} RegisterAtRound(i: nat)
    requires i <= 24
    ensures Register(7 * i) == RoundRegister(i)
  {
    hide RoundRegister, Shift;
    FirstRegister();
    if i > 0 {
      var n := 7 * (i - 1);
      RegisterAtRound(i - 1);
      SevenShifts(i - 1);
      assert Register(n + 1) == Shift(Register(n)) && Register(n + 2) == Shift(Register(n + 1));
      assert Register(n + 3) == Shift(Register(n + 2)) && Register(n + 4) == Shift(Register(n + 3));
      assert Register(n + 5) == Shift(Register(n + 4)) && Register(n + 6) == Shift(Register(n + 5));
      assert Register(n + 7) == Shift(Register(n + 6));
    }
  }

  /** The constants in the code are the ones the standard's shift register generates. */
  lemma RoundConstantsAreStandard(i: nat)
    requires i < 24
    ensures RC(i) == ConstantFrom(Register(7 * i))
  {
    hide RoundRegister, Shift, ConstantFrom, RC, Register;
    RegisterAtRound(i);
    ConstantTable(i);
  }

  // ---- the loops, in place -------------------------------------------------------------------------

  /** `c`: the parity of every column. */
  method Columns(s: array<Lane>) returns (c: array<Lane>)
    requires s.Length == 25
    ensures fresh(c) && c.Length == 5 && forall k :: 0 <= k < 5 ==> c[k] == Column(s[..], k)
  {
    hide Column, Xor;
    c := new Lane[5](i => ZERO_LANE());
    for x := 0 to 5
      invariant s[..] == old(s[..]) && forall k :: 0 <= k < x ==> c[k] == Column(s[..], k)
    {
      ColumnIs(s[..], x);
      c[x] := Xor(Xor(Xor(Xor(s[x], s[x + 5]), s[x + 10]), s[x + 15]), s[x + 20]);
    }
  }

  /** The mask of one column, on its five lanes. */
  method MaskColumn(s: array<Lane>, x: nat, d: Lane)
    requires s.Length == 25 && x < 5
    modifies s
    ensures forall i :: 0 <= i < 25 ==> s[i] == if i % 5 == x then Xor(old(s[i]), d) else old(s[i])
  {
    hide Xor;
    var y := 0;
    while y < 25
      invariant y <= 25 && y % 5 == 0
      invariant forall i :: 0 <= i < 25 ==> s[i] == if i % 5 == x && i < x + y then Xor(old(s[i]), d) else old(s[i])
    {
      s[x + y] := Xor(s[x + y], d);
      y := y + 5;
    }
  }

  method ThetaInPlace(s: array<Lane>)
    requires s.Length == 25
    modifies s
    ensures s[..] == Theta(old(s[..]))
  {
    hide Column, ThetaMask, Xor, Rotl;
    ghost var a: Sheet := s[..];
    var c := Columns(s);
    for x := 0 to 5
      invariant forall k :: 0 <= k < 5 ==> c[k] == Column(a, k)
      invariant forall i :: 0 <= i < 25 ==> s[i] == if i % 5 < x then Xor(a[i], ThetaMask(a, i % 5)) else a[i]
    {
      var d := Xor(c[(x + 4) % 5], Rotl(c[(x + 1) % 5], 1));
      MaskIs(a, x);
      MaskColumn(s, x, d);
    }
    assert s[..] == Theta(a);
  }

  lemma ColumnIs(a: Sheet, x: nat)
    requires x < 5
    ensures Column(a, x) == Xor(Xor(Xor(Xor(a[x], a[x + 5]), a[x + 10]), a[x + 15]), a[x + 20])
  {}

  lemma MaskIs(a: Sheet, x: nat)
    requires x < 5
    ensures ThetaMask(a, x) == Xor(Column(a, (x + 4) % 5), Rotl(Column(a, (x + 1) % 5), 1))
  {}

  /** The lane (x, y) has been moved before (u, w) in the order of the two loops. */
  predicate Moved(i: nat, u: nat, w: nat)
    requires i < 25
  {
    PiSource(i) % 5 < u || (PiSource(i) % 5 == u && PiSource(i) / 5 < w)
  }

  /** The rotated lanes, each at its new place: the index map being a permutation, none is overwritten. */
  method RhoPi(s: array<Lane>) returns (b: array<Lane>)
    requires s.Length == 25
    ensures fresh(b) && b.Length == 25 && b[..] == Pi(Rho(s[..]))
  {
    hide Rotl, ROT, Moved, PiTarget, PiSource;
    ghost var a: Sheet := s[..];
    b := new Lane[25](i => ZERO_LANE());
    forall i | 0 <= i < 25 ensures !Moved(i, 0, 0) { NoneMoved(i); }
    for x := 0 to 5
      invariant s[..] == a && forall i :: 0 <= i < 25 && Moved(i, x, 0) ==> b[i] == Rho(a)[PiSource(i)]
    {
      for y := 0 to 5
        invariant s[..] == a && forall i :: 0 <= i < 25 && Moved(i, x, y) ==> b[i] == Rho(a)[PiSource(i)]
      {
        TargetIs(x, y);
        b[y + 5 * ((2 * x + 3 * y) % 5)] := Rotl(s[x + 5 * y], ROT(x + 5 * y));
        forall i | 0 <= i < 25 && Moved(i, x, y + 1) ensures b[i] == Rho(a)[PiSource(i)] { MovedNext(i, x, y); }
      }
      forall i | 0 <= i < 25 && Moved(i, x + 1, 0) ensures Moved(i, x, 5) { MovedRow(i, x); }
    }
    forall i | 0 <= i < 25 ensures b[i] == Rho(a)[PiSource(i)] { MovedAll(i); }
  }

  lemma TargetIs(x: nat, y: nat)
    requires x < 5 && y < 5
    ensures y + 5 * ((2 * x + 3 * y) % 5) == PiTarget(x, y) && PiSource(PiTarget(x, y)) == x + 5 * y
  {
    PiBack(x, y);
  }

  lemma NoneMoved(i: nat)
    requires i < 25
    ensures !Moved(i, 0, 0)
  {}

  lemma MovedNext(i: nat, x: nat, y: nat)
    requires i < 25 && x < 5 && y < 5 && Moved(i, x, y + 1)
    ensures i != PiTarget(x, y) ==> Moved(i, x, y)
  {
    PiForth(i);
    Place(x, y);
  }

  lemma MovedRow(i: nat, x: nat)
    requires i < 25 && Moved(i, x + 1, 0)
    ensures Moved(i, x, 5)
  {}

  lemma MovedAll(i: nat)
    requires i < 25
    ensures Moved(i, 5, 0)
  {}

  method ChiInPlace(s: array<Lane>, b: array<Lane>)
    requires s.Length == 25 && b.Length == 25 && s != b
    modifies s
    ensures s[..] == Chi(b[..])
  {
    hide Xor, And, Not;
    ghost var a: Sheet := b[..];
    for x := 0 to 5
      invariant b[..] == a && forall i :: 0 <= i < 25 && i % 5 < x ==> s[i] == ChiLane(a, i)
    {
      for y := 0 to 5
        invariant b[..] == a
          && forall i :: 0 <= i < 25 && (i % 5 < x || (i % 5 == x && i / 5 < y)) ==> s[i] == ChiLane(a, i)
      {
        Place(x, y);
        s[x + 5 * y] := Xor(b[x + 5 * y], And(Not(b[(x + 1) % 5 + 5 * y]), b[(x + 2) % 5 + 5 * y]));
      }
    }
    assert s[..] == Chi(a);
  }

  /** keccak.rs `keccak_f`: 24 rounds of the step mappings, on the caller's array. */
  method KeccakF(s: array<Lane>)
    requires s.Length == 25
    modifies s
    ensures s[..] == Rounds(old(s[..]), 24)
  {
    hide Theta, Rho, Pi, Chi, RC, LaneOfInt;
    ghost var a: Sheet := s[..];
    for n := 0 to 24
      invariant s[..] == Rounds(a, n)
    {
      ghost var before: Sheet := s[..];
      ThetaInPlace(s);
      var b := RhoPi(s);
      ChiInPlace(s, b);
      s[0] := Xor(s[0], LaneOfInt(RC(n)));
      assert s[..] == Round(before, LaneOfInt(RC(n)));
    }
  }
}
