/** Ed25519 keys no signature may be checked with: signing.py compares the little-endian integer with the
    field prime, main.rs looks at the bytes. */
module WeakKeys {
  import opened Arithmetic
  import opened Texts
  import opened JsonGrammar
  import opened JsonPrinter

  /** The text of a key in four pieces. */
  function Key(a: string, b: string, c: string, d: string): (r: Text) { Lit(a) + Lit(b) + Lit(c) + Lit(d) }

  /** The ten encodings both lists hold, as hexadecimal text. */
  function WeakKey(i: nat): (r: Text)
    requires i < 10
  {
    if i == 0 then Key("0100000000000000", "0000000000000000", "0000000000000000", "0000000000000000")
    else if i == 1 then Key("ecffffffffffffff", "ffffffffffffffff", "ffffffffffffffff", "ffffffffffffff7f")
    else if i == 2 then Key("0000000000000000", "0000000000000000", "0000000000000000", "0000000000000000")
    else if i == 3 then Key("0000000000000000", "0000000000000000", "0000000000000000", "0000000000000080")
    else if i == 4 then Key("26e8958fc2b227b0", "45c3f489f2ef98f0", "d5dfac05d3c63339", "b13802886d53fc05")
    else if i == 5 then Key("c7176a703d4dd84f", "ba3c0b760d10670f", "2a2053fa2c39ccc6", "4ec7fd7792ac037a")
    else if i == 6 then Key("26e8958fc2b227b0", "45c3f489f2ef98f0", "d5dfac05d3c63339", "b13802886d53fc85")
    else if i == 7 then Key("c7176a703d4dd84f", "ba3c0b760d10670f", "2a2053fa2c39ccc6", "4ec7fd7792ac03fa")
    else if i == 8 then Key("0100000000000000", "0000000000000000", "0000000000000000", "0000000000000080")
    else Key("ecffffffffffffff", "ffffffffffffffff", "ffffffffffffffff", "ffffffffffffffff")
  }

  predicate Listed(hex: Text) { exists i :: 0 <= i < 10 && hex == WeakKey(i) }

  /** bytes.fromhex on lower-case digits. */
  function Unhex(t: Text): (b: Text)
    requires |t| % 2 == 0 && forall k :: 0 <= k < |t| ==> IsLowerHex(t[k])
    ensures |b| == |t| / 2 && Bytes(b)
  {
    if |t| < 2 then []
    else
      assert IsLowerHex(t[0]) && IsLowerHex(t[1]);
      [HexDigit(t[0]) * 16 + HexDigit(t[1])] + Unhex(t[2..])
  }

  /** format!("{:02x}") of every byte. */
  function HexOf(b: Text): (r: Text)
    requires Bytes(b)
  {
    if b == [] then [] else [HexChar(b[0] / 16), HexChar(b[0] % 16)] + HexOf(b[1..])
  }

  lemma OneByte(a: int, b: int)
    requires IsLowerHex(a) && IsLowerHex(b)
    ensures var x := HexDigit(a) * 16 + HexDigit(b); HexChar(x / 16) == a && HexChar(x % 16) == b
  {}

  lemma {:induction false} HexRound(t: Text)
    requires |t| % 2 == 0 && forall k :: 0 <= k < |t| ==> IsLowerHex(t[k])
    ensures HexOf(Unhex(t)) == t
  {
    if t != [] {
      HexRound(t[2..]);
      assert t == [t[0], t[1]] + t[2..];
      OneByte(t[0], t[1]);
      var x := HexDigit(t[0]) * 16 + HexDigit(t[1]);
      assert ([x] + Unhex(t[2..]))[1..] == Unhex(t[2..]);
    }
  }

  function Pow256(n: nat): (p: int)
    ensures p > 0
  {
    if n == 0 then 1 else 256 * Pow256(n - 1)
  }

  /** The little-endian integer of some bytes. */
  function LittleEndian(b: Text): (r: int)
  {
    if b == [] then 0 else b[0] + 256 * LittleEndian(b[1..])
  }

  /** 2^255 for a key of 32 bytes; the field prime is 19 below it. */
  function Top(k: Text): (p: int)
    requires k != []
    ensures p > 0
  {
    128 * Pow256(|k| - 1)
  }

  /** signing.py `weak_ed25519_key`, on the text of a key. */
  predicate PyWeak(hex: Text)
    requires IsHexN(hex, 64)
  {
    Listed(hex) || LittleEndian(Unhex(hex)) % Top(Unhex(hex)) >= Top(Unhex(hex)) - 19
  }

  /** main.rs `weak_ed25519`, on its bytes. */
  predicate RustWeak(k: Text)
    requires |k| == 32 && Bytes(k)
  {
    if Listed(HexOf(k)) then true
    else if k[31] % 128 != 127 || k[0] < 0xED then false
    else forall i :: 1 <= i < 31 ==> k[i] == 0xFF
  }

  /** The integer of n bytes is below 256^n, and one below it only if every byte is 0xFF. */
  lemma {:induction false} Largest(b: Text)
    requires Bytes(b)
    ensures 0 <= LittleEndian(b) < Pow256(|b|)
    ensures LittleEndian(b) == Pow256(|b|) - 1 <==> forall i :: 0 <= i < |b| ==> b[i] == 0xFF
  {
    if b != [] {
      var t := b[1..];
      Largest(t);
      assert forall i :: 1 <= i < |b| ==> b[i] == t[i - 1];
      assert forall i :: 0 <= i < |t| ==> t[i] == b[i + 1];
      assert LittleEndian(b) == b[0] + 256 * LittleEndian(t);
      assert Pow256(|b|) == 256 * Pow256(|t|);
    }
  }

  lemma {:induction false} LastByte(b: Text)
    requires b != []
    ensures LittleEndian(b) == LittleEndian(b[..|b| - 1]) + Pow256(|b| - 1) * b[|b| - 1]
  {
    var n := |b| - 1;
    if n == 0 {
      assert b[1..] == [] && b[..0] == [];
    } else {
      var t := b[1..];
      LastByte(t);
      assert t[..n - 1] == b[..n][1..];
      assert LittleEndian(b[..n]) == b[0] + 256 * LittleEndian(t[..n - 1]);
      Scale(LittleEndian(t), LittleEndian(t[..n - 1]), Pow256(n - 1), b[n]);
    }
  }

  lemma Scale(x: int, y: int, p: int, d: int)
    requires x == y + p * d
    ensures 256 * x == 256 * y + 256 * p * d
  {}

  lemma Distribute(p: int, q: int, e: int)
    requires p > 0 && 0 <= e < 128
    ensures p * (128 * q + e) == (128 * p) * q + p * e
    ensures 0 <= p * e <= 127 * p
  {}

  lemma DropSign(low: int, p: int, d: int)
    requires 0 <= low < p && 0 <= d < 256
    ensures (low + p * d) % (128 * p) == low + p * (d % 128)
  {
    var q, e := d / 128, d % 128;
    Distribute(p, q, e);
    assert d == 128 * q + e;
    var m, r, pd := 128 * p, low + p * e, p * d;
    assert pd == m * q + p * e;
    Divides(m, q, r);
  }

  /** Only the largest low part and the largest high digit reach the last 19 values. */
  lemma NearTop(a: int, mid: int, m: int, p: int, d: int)
    requires 0 <= a < 256 && 0 <= mid < m && m >= 1 && 0 <= d < 128 && p == 256 * m
    ensures a + 256 * mid + p * d >= 128 * p - 19 <==> d == 127 && mid == m - 1 && a >= 0xED
  {
    assert d == 127 ==> p * d == 127 * p;
    Below(p, d);
  }

  lemma Below(p: int, d: int)
    requires p > 0
    ensures d <= 126 ==> p * d <= 126 * p
  {}

  /** Comparing with the prime and looking at the bytes give the same answer for every key. */
  lemma WeakTestsAgree(hex: Text)
    requires IsHexN(hex, 64)
    ensures PyWeak(hex) <==> RustWeak(Unhex(hex))
  {
    hide Listed, HexOf, Unhex;
    HexRound(hex);
    BytesDecide(Unhex(hex));
  }

  lemma HeadByte(b: Text)
    requires b != []
    ensures LittleEndian(b) == b[0] + 256 * LittleEndian(b[1..]) && Pow256(|b|) == 256 * Pow256(|b| - 1)
  {}

  lemma BytesDecide(k: Text)
    requires |k| == 32 && Bytes(k)
    ensures LittleEndian(k) % Top(k) >= Top(k) - 19 <==>
      k[31] % 128 == 127 && k[0] >= 0xED && forall i :: 1 <= i < 31 ==> k[i] == 0xFF
  {
    hide LittleEndian, Pow256;
    var low := k[..31];
    var mid := low[1..];
    HeadByte(low);
    LastByte(k);
    Largest(low);
    Largest(mid);
    DropSign(LittleEndian(low), Pow256(|low|), k[31]);
    NearTop(k[0], LittleEndian(mid), Pow256(|mid|), Pow256(|low|), k[31] % 128);
    assert forall i :: 0 <= i < 30 ==> mid[i] == k[i + 1];
    MidBytes(k, mid);
  }

  lemma MidBytes(k: Text, mid: Text)
    requires |k| == 32 && |mid| == 30 && forall i :: 0 <= i < 30 ==> mid[i] == k[i + 1]
    ensures (forall i :: 1 <= i < 31 ==> k[i] == 0xFF) <==> forall i :: 0 <= i < 30 ==> mid[i] == 0xFF
  {
    if forall i :: 0 <= i < 30 ==> mid[i] == 0xFF {
      forall i | 1 <= i < 31 ensures k[i] == 0xFF { assert mid[i - 1] == k[i]; }
    }
  }
}
