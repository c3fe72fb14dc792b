/** What the list of weak keys holds: the encodings of the points of small order of the curve Ed25519 is built on
    (RFC 8032, section 5.1), each with either sign. On -x^2 + y^2 = 1 + d x^2 y^2 over the field of p = 2^255 - 19
    elements, with d = -121665/121666, a point has an order that divides 8 exactly if its y is 0, 1, -1 or a root of
    121665 y^4 - 243332 y^2 + 121666, and that polynomial has the two roots the list names. */
module SmallOrder {
  import opened Texts
  import opened JsonGrammar
  import opened WeakKeys

  function P(): (p: int) { 0x8000000000000000000000000000000000000000000000000000000000000000 - 19 }

  function RootA(): (y: int) { 0x5fc536d880238b13933c6d305acdfd5f098eff289f4c345b027b2c28f95e826 }

  function RootB(): (y: int) { P() - RootA() }

  /** An integer of three 256-bit digits. */
  function Wide(a: int, b: int, c: int): (n: int)
  {
    var w := 0x10000000000000000000000000000000000000000000000000000000000000000;
    (a * w + b) * w + c
  }

  /** A multiple of p. */
  ghost predicate IsZero(n: int) { exists q: int :: n == q * P() }

  /** y is the second coordinate of a point whose order divides 8. */
  ghost predicate SmallOrderY(y: int)
  {
    0 <= y < P() && (y in {0, 1, P() - 1} || IsZero(121665 * (y * y) * (y * y) - 243332 * (y * y) + 121666))
  }

  lemma RootsOfOrderEight()
    ensures SmallOrderY(RootA()) && SmallOrderY(RootB())
  {
    var y := RootA();
    assert 121665 * (y * y) * (y * y) - 243332 * (y * y) + 121666
      == Wide(0x129e11ef705e8c76aa40e74875ebaa5363e856f4ce95054e4c4184c1b3e24e91,
              0x5a7b0b51a752b3d2f0e09b88b20a083a761f54ef8979ef68d767b4350d837f8a,
              0xf1883988816eab60b1728880957ff9e02bff11d6aeb4da4bb5b0415366a2128a) * P();
    var z := RootB();
    assert 121665 * (z * z) * (z * z) - 243332 * (z * z) + 121666
      == Wide(0x310cd06b289db60e5a3e73c56c0c506be0760848ce4bd5ab08a16ef7b03067fd4ad8,
              0x262c9414b867d0807f42636b555a97af4beb2470130750a7716f21807d16f08,
              0xaab621b0b559f01f391ce05f5f3069b85efd33d7246db0e1eb5559902f8b143b) * P();
  }

  // ---- bytes of a key ------------------------------------------------------------------------------

  lemma {:induction false} UnhexAt(t: Text, k: nat)
    requires |t| % 2 == 0 && (forall j :: 0 <= j < |t| ==> IsLowerHex(t[j])) && k < |t| / 2
    ensures IsLowerHex(t[2 * k]) && IsLowerHex(t[2 * k + 1])
    ensures Unhex(t)[k] == HexDigit(t[2 * k]) * 16 + HexDigit(t[2 * k + 1])
  {
    hide HexDigit;
    if k > 0 {
      assert t[2..][2 * (k - 1)] == t[2 * k] && t[2..][2 * (k - 1) + 1] == t[2 * k + 1];
      UnhexAt(t[2..], k - 1);
    }
  }

  /** Eight bytes as an integer, the lowest first. */
  function Eight(b: Text, i: nat): (r: int)
    requires i + 8 <= |b|
  {
    b[i] + 0x100 * b[i + 1] + 0x10000 * b[i + 2] + 0x1000000 * b[i + 3] + 0x100000000 * b[i + 4]
    + 0x10000000000 * b[i + 5] + 0x1000000000000 * b[i + 6] + 0x100000000000000 * b[i + 7]
  }

  lemma {:induction false} EightMore(b: Text, i: nat)
    requires i + 8 <= |b|
    ensures LittleEndian(b[i..]) == Eight(b, i) + 0x1_0000_0000_0000_0000 * LittleEndian(b[i + 8..])
  {
    hide LittleEndian;
    OneMore(b, i);
    OneMore(b, i + 1);
    OneMore(b, i + 2);
    OneMore(b, i + 3);
    OneMore(b, i + 4);
    OneMore(b, i + 5);
    OneMore(b, i + 6);
    OneMore(b, i + 7);
  }

  lemma OneMore(b: Text, i: nat)
    requires i < |b|
    ensures LittleEndian(b[i..]) == b[i] + 256 * LittleEndian(b[i + 1..])
  {
    assert b[i..][0] == b[i] && b[i..][1..] == b[i + 1..];
  }

  lemma KeyNumber(b: Text)
    requires |b| == 32
    ensures LittleEndian(b) == Eight(b, 0) + 0x1_0000_0000_0000_0000 * (Eight(b, 8) + 0x1_0000_0000_0000_0000
      * (Eight(b, 16) + 0x1_0000_0000_0000_0000 * Eight(b, 24)))
  {
    hide LittleEndian, Eight;
    EightMore(b, 0);
    EightMore(b, 8);
    EightMore(b, 16);
    EightMore(b, 24);
    assert b[0..] == b && b[32..] == [];
    NoBytes();
  }

  lemma NoBytes()
    ensures LittleEndian([]) == 0
  {}

  /** Sixteen hexadecimal digits as the integer of the eight bytes they write. */
  function Digits16(t: Text, i: nat): (r: int)
    requires i + 16 <= |t|
  {
    Pair(t, i) + 0x100 * Pair(t, i + 2) + 0x10000 * Pair(t, i + 4) + 0x1000000 * Pair(t, i + 6)
    + 0x100000000 * Pair(t, i + 8) + 0x10000000000 * Pair(t, i + 10) + 0x1000000000000 * Pair(t, i + 12)
    + 0x100000000000000 * Pair(t, i + 14)
  }

  function Pair(t: Text, i: nat): (r: int)
    requires i + 2 <= |t|
  {
    Nibble(t[i]) * 16 + Nibble(t[i + 1])
  }

  function Nibble(c: int): (r: int) { if c <= 57 then c - 48 else c - 87 }

  lemma NibbleIs(c: int)
    requires IsLowerHex(c)
    ensures HexDigit(c) == Nibble(c)
  {}

  lemma PartOf(t: Text, j: nat)
    requires IsHexN(t, 64) && j < 4
    ensures Eight(Unhex(t), 8 * j) == Digits16(t, 16 * j)
  {
    hide Unhex, HexDigit, Nibble;
    forall k | 0 <= k < 64 ensures HexDigit(t[k]) == Nibble(t[k]) { NibbleIs(t[k]); }
    UnhexAt(t, 8 * j);
    UnhexAt(t, 8 * j + 1);
    UnhexAt(t, 8 * j + 2);
    UnhexAt(t, 8 * j + 3);
    UnhexAt(t, 8 * j + 4);
    UnhexAt(t, 8 * j + 5);
    UnhexAt(t, 8 * j + 6);
    UnhexAt(t, 8 * j + 7);
  }

  lemma Piece0()
    ensures IsHexN(Lit("0100000000000000"), 16) && Digits16(Lit("0100000000000000"), 0) == 0x1
  {}

  lemma Piece1()
    ensures IsHexN(Lit("0000000000000000"), 16) && Digits16(Lit("0000000000000000"), 0) == 0x0
  {}

  lemma Piece2()
    ensures IsHexN(Lit("ecffffffffffffff"), 16) && Digits16(Lit("ecffffffffffffff"), 0) == 0xffffffffffffffec
  {}

  lemma Piece3()
    ensures IsHexN(Lit("ffffffffffffffff"), 16) && Digits16(Lit("ffffffffffffffff"), 0) == 0xffffffffffffffff
  {}

  lemma Piece4()
    ensures IsHexN(Lit("ffffffffffffff7f"), 16) && Digits16(Lit("ffffffffffffff7f"), 0) == 0x7fffffffffffffff
  {}

  lemma Piece5()
    ensures IsHexN(Lit("0000000000000080"), 16) && Digits16(Lit("0000000000000080"), 0) == 0x8000000000000000
  {}

  lemma Piece6()
    ensures IsHexN(Lit("26e8958fc2b227b0"), 16) && Digits16(Lit("26e8958fc2b227b0"), 0) == 0xb027b2c28f95e826
  {}

  lemma Piece7()
    ensures IsHexN(Lit("45c3f489f2ef98f0"), 16) && Digits16(Lit("45c3f489f2ef98f0"), 0) == 0xf098eff289f4c345
  {}

  lemma Piece8()
    ensures IsHexN(Lit("d5dfac05d3c63339"), 16) && Digits16(Lit("d5dfac05d3c63339"), 0) == 0x3933c6d305acdfd5
  {}

  lemma Piece9()
    ensures IsHexN(Lit("b13802886d53fc05"), 16) && Digits16(Lit("b13802886d53fc05"), 0) == 0x5fc536d880238b1
  {}

  lemma Piece10()
    ensures IsHexN(Lit("c7176a703d4dd84f"), 16) && Digits16(Lit("c7176a703d4dd84f"), 0) == 0x4fd84d3d706a17c7
  {}

  lemma Piece11()
    ensures IsHexN(Lit("ba3c0b760d10670f"), 16) && Digits16(Lit("ba3c0b760d10670f"), 0) == 0xf67100d760b3cba
  {}

  lemma Piece12()
    ensures IsHexN(Lit("2a2053fa2c39ccc6"), 16) && Digits16(Lit("2a2053fa2c39ccc6"), 0) == 0xc6cc392cfa53202a
  {}

  lemma Piece13()
    ensures IsHexN(Lit("4ec7fd7792ac037a"), 16) && Digits16(Lit("4ec7fd7792ac037a"), 0) == 0x7a03ac9277fdc74e
  {}

  lemma Piece14()
    ensures IsHexN(Lit("b13802886d53fc85"), 16) && Digits16(Lit("b13802886d53fc85"), 0) == 0x85fc536d880238b1
  {}

  lemma Piece15()
    ensures IsHexN(Lit("4ec7fd7792ac03fa"), 16) && Digits16(Lit("4ec7fd7792ac03fa"), 0) == 0xfa03ac9277fdc74e
  {}

  function TWO64(): (r: int) { 0x1_0000_0000_0000_0000 }

  function TWO255(): (r: int) { 0x8000000000000000000000000000000000000000000000000000000000000000 }

  /** The integer of a key from its four pieces. */
  function Four(a: int, b: int, c: int, d: int): (r: int) { a + TWO64() * (b + TWO64() * (c + TWO64() * d)) }

  lemma KeyIs(a: string, b: string, c: string, d: string)
    requires IsHexN(Lit(a), 16) && IsHexN(Lit(b), 16) && IsHexN(Lit(c), 16) && IsHexN(Lit(d), 16)
    ensures var t := Key(a, b, c, d);
      && IsHexN(t, 64)
      && LittleEndian(Unhex(t)) ==
        Four(Digits16(Lit(a), 0), Digits16(Lit(b), 0), Digits16(Lit(c), 0), Digits16(Lit(d), 0))
  {
    hide Lit, Unhex, LittleEndian, Digits16, Eight;
    var p, q, r, s := Lit(a), Lit(b), Lit(c), Lit(d);
    var t := Key(a, b, c, d);
    assert t == p + q + r + s;
    PieceAt(t, [], p, q + r + s);
    PieceAt(t, p, q, r + s);
    PieceAt(t, p + q, r, s);
    PieceAt(t, p + q + r, s, []);
    HexJoins(p, q);
    HexJoins(p + q, r);
    HexJoins(p + q + r, s);
    PartOf(t, 0);
    PartOf(t, 1);
    PartOf(t, 2);
    PartOf(t, 3);
    KeyNumber(Unhex(t));
  }

  lemma PieceAt(t: Text, front: Text, p: Text, rest: Text)
    requires |p| == 16 && t == front + p + rest
    ensures Digits16(t, |front|) == Digits16(p, 0)
  {
    hide Nibble;
    assert forall k :: 0 <= k < 16 ==> t[|front| + k] == p[k];
  }

  lemma HexJoins(a: Text, b: Text)
    requires IsHexN(a, |a|) && IsHexN(b, |b|)
    ensures IsHexN(a + b, |a| + |b|)
  {}

  lemma Key0()
    ensures IsHexN(WeakKey(0), 64) && LittleEndian(Unhex(WeakKey(0))) == 1
  {
    hide Lit, Unhex, LittleEndian, Digits16, Key;
    Piece0();
    Piece1();
    KeyIs("0100000000000000", "0000000000000000", "0000000000000000", "0000000000000000");
  }

  lemma Key1()
    ensures IsHexN(WeakKey(1), 64) && LittleEndian(Unhex(WeakKey(1))) == P() - 1
  {
    hide Lit, Unhex, LittleEndian, Digits16, Key;
    Piece2();
    Piece3();
    Piece4();
    KeyIs("ecffffffffffffff", "ffffffffffffffff", "ffffffffffffffff", "ffffffffffffff7f");
  }

  lemma Key2()
    ensures IsHexN(WeakKey(2), 64) && LittleEndian(Unhex(WeakKey(2))) == 0
  {
    hide Lit, Unhex, LittleEndian, Digits16, Key;
    Piece1();
    KeyIs("0000000000000000", "0000000000000000", "0000000000000000", "0000000000000000");
  }

  lemma Key3()
    ensures IsHexN(WeakKey(3), 64) && LittleEndian(Unhex(WeakKey(3))) == 0 + TWO255()
  {
    hide Lit, Unhex, LittleEndian, Digits16, Key;
    Piece1();
    Piece5();
    KeyIs("0000000000000000", "0000000000000000", "0000000000000000", "0000000000000080");
  }

  lemma Key4()
    ensures IsHexN(WeakKey(4), 64) && LittleEndian(Unhex(WeakKey(4))) == RootA()
  {
    hide Lit, Unhex, LittleEndian, Digits16, Key;
    Piece6();
    Piece7();
    Piece8();
    Piece9();
    KeyIs("26e8958fc2b227b0", "45c3f489f2ef98f0", "d5dfac05d3c63339", "b13802886d53fc05");
  }

  lemma Key5()
    ensures IsHexN(WeakKey(5), 64) && LittleEndian(Unhex(WeakKey(5))) == RootB()
  {
    hide Lit, Unhex, LittleEndian, Digits16, Key;
    Piece10();
    Piece11();
    Piece12();
    Piece13();
    KeyIs("c7176a703d4dd84f", "ba3c0b760d10670f", "2a2053fa2c39ccc6", "4ec7fd7792ac037a");
  }

  lemma Key6()
    ensures IsHexN(WeakKey(6), 64) && LittleEndian(Unhex(WeakKey(6))) == RootA() + TWO255()
  {
    hide Lit, Unhex, LittleEndian, Digits16, Key;
    Piece6();
    Piece7();
    Piece8();
    Piece14();
    KeyIs("26e8958fc2b227b0", "45c3f489f2ef98f0", "d5dfac05d3c63339", "b13802886d53fc85");
  }

  lemma Key7()
    ensures IsHexN(WeakKey(7), 64) && LittleEndian(Unhex(WeakKey(7))) == RootB() + TWO255()
  {
    hide Lit, Unhex, LittleEndian, Digits16, Key;
    Piece10();
    Piece11();
    Piece12();
    Piece15();
    KeyIs("c7176a703d4dd84f", "ba3c0b760d10670f", "2a2053fa2c39ccc6", "4ec7fd7792ac03fa");
  }

  lemma Key8()
    ensures IsHexN(WeakKey(8), 64) && LittleEndian(Unhex(WeakKey(8))) == 1 + TWO255()
  {
    hide Lit, Unhex, LittleEndian, Digits16, Key;
    Piece0();
    Piece1();
    Piece5();
    KeyIs("0100000000000000", "0000000000000000", "0000000000000000", "0000000000000080");
  }

  lemma Key9()
    ensures IsHexN(WeakKey(9), 64) && LittleEndian(Unhex(WeakKey(9))) == P() - 1 + TWO255()
  {
    hide Lit, Unhex, LittleEndian, Digits16, Key;
    Piece2();
    Piece3();
    KeyIs("ecffffffffffffff", "ffffffffffffffff", "ffffffffffffffff", "ffffffffffffffff");
  }

  // ---- the list ------------------------------------------------------------------------------------

  /** The place of the key with this y and this sign. */
  function PlaceOf(y: int, negative: bool): (i: nat)
    requires y in {0, 1, P() - 1, RootA(), RootB()}
    ensures i < 10
  {
    if y == 1 then if negative then 8 else 0
    else if y == P() - 1 then if negative then 9 else 1
    else if y == 0 then if negative then 3 else 2
    else if y == RootA() then if negative then 6 else 4
    else if negative then 7 else 5
  }

  lemma KeyAt(y: int, negative: bool)
    requires y in {0, 1, P() - 1, RootA(), RootB()}
    ensures var k := WeakKey(PlaceOf(y, negative));
      IsHexN(k, 64) && LittleEndian(Unhex(k)) == y + if negative then TWO255() else 0
  {
    hide WeakKey, LittleEndian, Unhex;
    Key0();
    Key1();
    Key2();
    Key3();
    Key4();
    Key5();
    Key6();
    Key7();
    Key8();
    Key9();
  }

  lemma ListedNumber(i: nat)
    requires i < 10
    ensures IsHexN(WeakKey(i), 64)
    ensures LittleEndian(Unhex(WeakKey(i))) % TWO255() in {0, 1, P() - 1, RootA(), RootB()}
  {
    hide WeakKey, LittleEndian, Unhex;
    Key0();
    Key1();
    Key2();
    Key3();
    Key4();
    Key5();
    Key6();
    Key7();
    Key8();
    Key9();
    assert i in {0, 1, 2, 3, 4, 5, 6, 7, 8, 9};
  }

  lemma {:induction false} NumbersDiffer(a: Text, b: Text)
    requires |a| == |b| && Bytes(a) && Bytes(b) && LittleEndian(a) == LittleEndian(b)
    ensures a == b
  {
    if a != [] {
      NumbersDiffer(a[1..], b[1..]);
      assert a == [a[0]] + a[1..] && b == [b[0]] + b[1..];
    }
  }

  lemma SameKey(a: Text, b: Text)
    requires IsHexN(a, 64) && IsHexN(b, 64) && LittleEndian(Unhex(a)) == LittleEndian(Unhex(b))
    ensures a == b
  {
    hide LittleEndian, Unhex, HexOf;
    NumbersDiffer(Unhex(a), Unhex(b));
    HexRound(a);
    HexRound(b);
  }

  lemma TopIs(k: Text)
    requires |k| == 32
    ensures Top(k) == TWO255() && Pow256(|k|) == 2 * TWO255()
  {
    var n := |k| - 1;
    assert Pow256(n - 30) == 0x100;
    assert Pow256(n - 28) == 0x1000000;
    assert Pow256(n - 26) == 0x10000000000;
    assert Pow256(n - 24) == 0x100000000000000;
    assert Pow256(n - 22) == 0x1000000000000000000;
    assert Pow256(n - 20) == 0x10000000000000000000000;
    assert Pow256(n - 18) == 0x100000000000000000000000000;
    assert Pow256(n - 16) == 0x1000000000000000000000000000000;
    assert Pow256(n - 14) == 0x10000000000000000000000000000000000;
    assert Pow256(n - 12) == 0x100000000000000000000000000000000000000;
    assert Pow256(n - 10) == 0x1000000000000000000000000000000000000000000;
    assert Pow256(n - 8) == 0x10000000000000000000000000000000000000000000000;
    assert Pow256(n - 6) == 0x100000000000000000000000000000000000000000000000000;
    assert Pow256(n - 4) == 0x1000000000000000000000000000000000000000000000000000000;
    assert Pow256(n - 2) == 0x10000000000000000000000000000000000000000000000000000000000;
    assert Pow256(n) == 0x100000000000000000000000000000000000000000000000000000000000000;
    assert Pow256(n + 1) == 0x10000000000000000000000000000000000000000000000000000000000000000;
  }

  /** A key is listed exactly if its y, the integer without the sign bit, is that of a point of small order. */
  lemma ListedMeans(hex: Text)
    requires IsHexN(hex, 64)
    ensures Listed(hex) <==> LittleEndian(Unhex(hex)) % TWO255() in {0, 1, P() - 1, RootA(), RootB()}
  {
    hide WeakKey, LittleEndian, Unhex, Pow256, Top;
    if Listed(hex) {
      var i :| 0 <= i < 10 && hex == WeakKey(i);
      ListedNumber(i);
    }
    var n := LittleEndian(Unhex(hex));
    var y := n % TWO255();
    if y in {0, 1, P() - 1, RootA(), RootB()} {
      Largest(Unhex(hex));
      TopIs(Unhex(hex));
      assert 0 <= n < 2 * TWO255();
      KeyAt(y, n >= TWO255());
      SameKey(hex, WeakKey(PlaceOf(y, n >= TWO255())));
    }
  }

  /** Both tests refuse a key exactly if its y is not below p or is that of a point of small order. */
  lemma WeakMeans(hex: Text)
    requires IsHexN(hex, 64)
    ensures var y := LittleEndian(Unhex(hex)) % TWO255();
      && (PyWeak(hex) <==> y >= P() || y in {0, 1, P() - 1, RootA(), RootB()})
      && (PyWeak(hex) <==> RustWeak(Unhex(hex)))
      && SmallOrderY(0) && SmallOrderY(1) && SmallOrderY(P() - 1) && SmallOrderY(RootA()) && SmallOrderY(RootB())
  {
    hide Listed, LittleEndian, Unhex, Top, RustWeak;
    ListedMeans(hex);
    TopIs(Unhex(hex));
    WeakTestsAgree(hex);
    RootsOfOrderEight();
  }
}
