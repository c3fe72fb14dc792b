/** SHA3-256 around the permutation (verifiers/rust/src/keccak.rs `hex`): padding, absorbing, squeezing. */
module Sha3 {
  import opened Arithmetic
  import opened Texts
  import opened Keccak
  import WeakKeys

  const RATE := 136

  /** Bit z of a byte, lowest first. */
  predicate ByteBit(b: int, z: nat) { b / Pow2(z) % 2 == 1 }

  // ---- padding -------------------------------------------------------------------------------------

  /** The zeros between the first and the last byte of the padding. */
  function Fill(n: nat): (r: nat) { (RATE - (n + 1) % RATE) % RATE }

  /** `^= 0x80` on a byte. */
  function FlipTop(b: int): (r: int) { if b >= 128 then b - 128 else b + 128 }

  function Padded(data: Text): (p: Text)
    ensures |p| == |data| + 1 + Fill(|data|)
  {
    var m := data + [6] + Repeat(0, Fill(|data|));
    m[|m| - 1 := FlipTop(m[|m| - 1])]
  }

  lemma FillReaches(n: nat, k: nat)
    ensures (n + 1 + Fill(n)) % RATE == 0
    ensures k < Fill(n) ==> (n + 1 + k) % RATE != 0
  {
    var q, r := (n + 1) / RATE, (n + 1) % RATE;
    assert n + 1 == RATE * q + r;
    if r == 0 {
      assert n + 1 + Fill(n) == RATE * q;
    } else {
      assert n + 1 + Fill(n) == RATE * (q + 1);
      if k < Fill(n) { assert n + 1 + k == RATE * q + (r + k) && 0 < r + k < RATE; }
    }
  }

  /** The push loop. */
  method Pad(data: Text) returns (msg: Text)
    ensures msg == Padded(data)
  {
    msg := data + [6];
    ghost var k := 0;
    assert Repeat(0, 0) == [];
    while |msg| % RATE != 0
      invariant k <= Fill(|data|) && msg == data + [6] + Repeat(0, k)
      decreases Fill(|data|) - k
    {
      FillReaches(|data|, k);
      RepeatMore(0, k);
      k := k + 1;
      msg := msg + [0];
    }
    FillReaches(|data|, k);
    var last := |msg| - 1;
    msg := msg[last := FlipTop(msg[last])];
  }

  /** The padded message is whole blocks, at least one. */
  lemma PaddedIsBlocks(data: Text)
    ensures |Padded(data)| % RATE == 0 && |Padded(data)| >= RATE
  {
    FillReaches(|data|, 0);
    var n := |Padded(data)|;
    assert n == RATE * (n / RATE);
  }

  /** What stands at each place of the padding. */
  lemma PaddingAt(data: Text, k: nat)
    requires k < |Padded(data)|
    ensures var p := Padded(data);
      p[k] == if k < |data| then data[k]
              else (if k == |data| then 6 else 0) + if k == |p| - 1 then 128 else 0
  {
    var m := data + [6] + Repeat(0, Fill(|data|));
    assert k > |data| ==> m[k] == Repeat(0, Fill(|data|))[k - |data| - 1];
  }

  /** No two messages have the same padding, however long they are. */
  lemma PaddingInjective(a: Text, b: Text)
    requires Padded(a) == Padded(b)
    ensures a == b
  {
    hide Padded;
    if |a| < |b| {
      PaddingAt(a, |b|);
      PaddingAt(b, |b|);
    } else if |b| < |a| {
      PaddingAt(a, |a|);
      PaddingAt(b, |a|);
    } else {
      forall k | 0 <= k < |a| ensures a[k] == b[k] {
        PaddingAt(a, k);
        PaddingAt(b, k);
      }
    }
  }

  /** Section 6.1 and 5.1 of FIPS 202, on bits: the suffix 01, then a one, zeros, and a one at the end of a block. */
  lemma PaddingIsStandard(data: Text, k: nat, z: nat)
    requires k < |Padded(data)| && z < 8
    ensures var p := Padded(data); var at := 8 * k + z; var m := 8 * |data|;
      ByteBit(p[k], z) ==
        if at < m then ByteBit(data[k], z)
        else at == m + 1 || at == m + 2 || at == 8 * |p| - 1
  {
    hide Padded;
    PaddingAt(data, k);
    PadBytes(z);
  }

  lemma PadBytes(z: nat)
    requires z < 8
    ensures ByteBit(6, z) == (z == 1 || z == 2) && ByteBit(0, z) == false
    ensures ByteBit(128, z) == (z == 7) && ByteBit(134, z) == (z == 1 || z == 2 || z == 7)
  {
    assert Pow2(0) == 1 && Pow2(1) == 2 && Pow2(2) == 4 && Pow2(3) == 8;
    assert Pow2(4) == 16 && Pow2(5) == 32 && Pow2(6) == 64 && Pow2(7) == 128;
  }

  // ---- absorbing -----------------------------------------------------------------------------------

  /** `v << 8`. */
  function Shl8(v: Lane): (r: Lane)
    ensures forall z :: 0 <= z < 64 ==> r[z] == (z >= 8 && v[z - 8])
  {
    seq(64, z requires 0 <= z < 64 => z >= 8 && v[z - 8])
  }

  /** `b as u64`, or-ed into a word. */
  function OrByte(v: Lane, b: int): (r: Lane)
    ensures forall z :: 0 <= z < 64 ==> r[z] == (v[z] || (z < 8 && ByteBit(b, z)))
  {
    seq(64, z requires 0 <= z < 64 => v[z] || (z < 8 && ByteBit(b, z)))
  }

  /** The lane of eight bytes: byte k holds the bits from 8k on. */
  function LaneOfBytes(t: Text): (r: Lane)
    requires |t| == 8
    ensures forall z :: 0 <= z < 64 ==> r[z] == ByteBit(t[z / 8], z % 8)
  {
    seq(64, z requires 0 <= z < 64 => ByteBit(t[z / 8], z % 8))
  }

  /** The inner loop: from the last byte to the first. */
  method ReadLane(t: Text) returns (v: Lane)
    requires |t| == 8
    ensures v == LaneOfBytes(t)
  {
    hide ByteBit;
    v := ZERO_LANE();
    var j := 8;
    while j > 0
      invariant 0 <= j <= 8
      invariant forall z :: 0 <= z < 64 ==> v[z] == (z < 8 * (8 - j) && ByteBit(t[j + z / 8], z % 8))
    {
      j := j - 1;
      ghost var before := v;
      v := OrByte(Shl8(v), t[j]);
      forall z | 0 <= z < 64 ensures v[z] == (z < 8 * (8 - j) && ByteBit(t[j + z / 8], z % 8)) {
        Shifted(t, before, j, z);
      }
    }
  }

  lemma Shifted(t: Text, v: Lane, j: nat, z: nat)
    requires |t| == 8 && j < 8 && z < 64
    requires forall y :: 0 <= y < 64 ==> v[y] == (y < 8 * (7 - j) && ByteBit(t[j + 1 + y / 8], y % 8))
    ensures OrByte(Shl8(v), t[j])[z] == (z < 8 * (8 - j) && ByteBit(t[j + z / 8], z % 8))
  {
    hide ByteBit;
    if z >= 8 {
      var y := z - 8;
      assert y / 8 == z / 8 - 1 && y % 8 == z % 8;
    } else {
      assert z / 8 == 0 && z % 8 == z;
    }
  }

  function BlockLane(block: Text, i: nat): (r: Lane)
    requires |block| == RATE && i < 17
  {
    LaneOfBytes(block[8 * i..8 * i + 8])
  }

  function XorBlock(a: Sheet, block: Text): (r: Sheet)
    requires |block| == RATE
  {
    seq(25, i requires 0 <= i < 25 => if i < 17 then Xor(a[i], BlockLane(block, i)) else a[i])
  }

  function EMPTY_SHEET(): (r: Sheet) { seq(25, i => ZERO_LANE()) }

  /** The sponge over whole blocks. */
  function Sponge(p: Text): (r: Sheet)
    requires |p| % RATE == 0
    decreases |p|
  {
    if |p| < RATE then EMPTY_SHEET()
    else Rounds(XorBlock(Sponge(p[..|p| - RATE]), p[|p| - RATE..]), 24)
  }

  method AbsorbBlock(s: array<Lane>, block: Text)
    requires s.Length == 25 && |block| == RATE
    modifies s
    ensures s[..] == Rounds(XorBlock(old(s[..]), block), 24)
  {
    hide Rounds, Xor, BlockLane;
    ghost var a: Sheet := s[..];
    for i := 0 to 17
      invariant forall k :: 0 <= k < 25 ==> s[k] == if k < i then Xor(a[k], BlockLane(block, k)) else a[k]
    {
      var v := ReadLane(block[8 * i..8 * i + 8]);
      LaneIs(block, i);
      s[i] := Xor(s[i], v);
    }
    assert s[..] == XorBlock(a, block);
    KeccakF(s);
  }

  lemma LaneIs(block: Text, i: nat)
    requires |block| == RATE && i < 17
    ensures BlockLane(block, i) == LaneOfBytes(block[8 * i..8 * i + 8])
  {}

  // ---- squeezing -----------------------------------------------------------------------------------

  /** The number with these bits, lowest first. */
  function BitsValue(bits: seq<bool>): (v: int)
    ensures 0 <= v < Pow2(|bits|)
  {
    if bits == [] then 0 else (if bits[0] then 1 else 0) + 2 * BitsValue(bits[1..])
  }

  /** Byte k of a lane. */
  function LaneByte(v: Lane, k: nat): (b: int)
    requires k < 8
    ensures 0 <= b < 256
  {
    assert Pow2(8) == 256;
    BitsValue(v[8 * k..8 * k + 8])
  }

  /** to_le_bytes. */
  function LaneBytes(v: Lane): (t: Text)
    ensures |t| == 8 && Bytes(t)
  {
    seq(8, k requires 0 <= k < 8 => LaneByte(v, k))
  }

  /** The bits of a number that was put together from bits. */
  lemma {:induction false} BitOfValue(bits: seq<bool>, z: nat)
    requires z < |bits|
    ensures ByteBit(BitsValue(bits), z) == bits[z]
  {
    hide BitsValue;
    var rest := BitsValue(bits[1..]);
    FirstBit(bits);
    if z > 0 {
      BitOfValue(bits[1..], z - 1);
      Halve(if bits[0] then 1 else 0, rest, Pow2(z - 1));
    }
  }

  lemma FirstBit(bits: seq<bool>)
    requires bits != []
    ensures BitsValue(bits) == (if bits[0] then 1 else 0) + 2 * BitsValue(bits[1..])
  {}

  lemma Halve(b: int, v: int, p: int)
    requires 0 <= b <= 1 && v >= 0 && p > 0
    ensures (b + 2 * v) / (2 * p) == v / p
  {
    var q, r := v / p, v % p;
    assert v == p * q + r;
    assert b + 2 * v == (2 * p) * q + (b + 2 * r) by { assert (2 * p) * q == 2 * (p * q); }
    Divides(2 * p, q, b + 2 * r);
  }

  /** Reading a lane and writing it back: the two byte orders are inverse. */
  lemma LaneRoundTrip(v: Lane)
    ensures LaneOfBytes(LaneBytes(v)) == v
  {
    hide ByteBit, BitsValue;
    forall z | 0 <= z < 64 ensures ByteBit(LaneBytes(v)[z / 8], z % 8) == v[z] {
      var k := z / 8;
      BitOfValue(v[8 * k..8 * k + 8], z % 8);
    }
  }

  /** The digest: the first four lanes. */
  function Squeeze(a: Sheet): (t: Text)
    ensures |t| == 32 && Bytes(t)
  {
    LaneBytes(a[0]) + LaneBytes(a[1]) + LaneBytes(a[2]) + LaneBytes(a[3])
  }

  lemma {:induction false} HexJoin(a: Text, b: Text)
    requires Bytes(a) && Bytes(b)
    ensures Bytes(a + b) && WeakKeys.HexOf(a + b) == WeakKeys.HexOf(a) + WeakKeys.HexOf(b)
  {
    if a == [] {
      assert a + b == b;
    } else {
      assert (a + b)[1..] == a[1..] + b;
      HexJoin(a[1..], b);
    }
  }

  lemma EmptyHex()
    ensures WeakKeys.HexOf([]) == []
  {}

  /** keccak.rs `hex`: SHA3-256 of the data in lower-case hexadecimal. */
  method Hex(data: Text) returns (out: Text)
    ensures |Padded(data)| % RATE == 0 && out == WeakKeys.HexOf(Squeeze(Sponge(Padded(data))))
  {
    hide Padded, Rounds, XorBlock, LaneBytes, WeakKeys.HexOf;
    var msg := Pad(data);
    PaddedIsBlocks(data);
    var s := new Lane[25](i => ZERO_LANE());
    assert s[..] == EMPTY_SHEET();
    var at := 0;
    while at < |msg|
      invariant at <= |msg| && at % RATE == 0 && s[..] == Sponge(msg[..at])
    {
      NextBlock(msg, at);
      AbsorbBlock(s, msg[at..at + RATE]);
      at := at + RATE;
    }
    assert msg[..at] == msg;
    out := [];
    ghost var a: Sheet := s[..];
    EmptyHex();
    ghost var done: Text := [];
    for i := 0 to 4
      invariant s[..] == a && Bytes(done) && out == WeakKeys.HexOf(done)
      invariant done == FirstLanes(a, i)
    {
      HexJoin(done, LaneBytes(s[i]));
      out := out + WeakKeys.HexOf(LaneBytes(s[i]));
      done := done + LaneBytes(s[i]);
    }
    FourLanes(a);
  }

  function FirstLanes(a: Sheet, n: nat): (r: Text)
    requires n <= 25
  {
    if n == 0 then [] else FirstLanes(a, n - 1) + LaneBytes(a[n - 1])
  }

  lemma FourLanes(a: Sheet)
    ensures FirstLanes(a, 4) == Squeeze(a)
  {
    hide LaneBytes;
    assert FirstLanes(a, 0) == [];
    assert FirstLanes(a, 1) == LaneBytes(a[0]);
    assert FirstLanes(a, 2) == LaneBytes(a[0]) + LaneBytes(a[1]);
  }

  lemma NextBlock(msg: Text, at: nat)
    requires |msg| % RATE == 0 && at < |msg| && at % RATE == 0
    ensures at + RATE <= |msg| && (at + RATE) % RATE == 0
    ensures Sponge(msg[..at + RATE]) == Rounds(XorBlock(Sponge(msg[..at]), msg[at..at + RATE]), 24)
  {
    hide Rounds, XorBlock;
    var n, k := |msg| / RATE, at / RATE;
    assert |msg| == RATE * n && at == RATE * k && k < n;
    var p := msg[..at + RATE];
    assert p[..at] == msg[..at] && p[at..] == msg[at..at + RATE];
  }
}
