/** The first 64 primes, as the constants of SHA-256 need them. */
module Primes {
  import Arithmetic

  predicate IsPrime(p: int) { p >= 2 && forall d :: 2 <= d < p ==> p % d != 0 }

  function PrimeRow(n: nat): (r: seq<int>)
    requires n < 8
    ensures |r| == 8
  {
    if n == 0 then [2, 3, 5, 7, 11, 13, 17, 19]
    else if n == 1 then [23, 29, 31, 37, 41, 43, 47, 53]
    else if n == 2 then [59, 61, 67, 71, 73, 79, 83, 89]
    else if n == 3 then [97, 101, 103, 107, 109, 113, 127, 131]
    else if n == 4 then [137, 139, 149, 151, 157, 163, 167, 173]
    else if n == 5 then [179, 181, 191, 193, 197, 199, 211, 223]
    else if n == 6 then [227, 229, 233, 239, 241, 251, 257, 263]
    else [269, 271, 277, 281, 283, 293, 307, 311]
  }

  function PrimeAt(i: nat): (p: int)
    requires i < 64
  {
    PrimeRow(i / 8)[i % 8]
  }

  /** Divided by none of the primes below 18, except itself. */
  predicate Tried(p: int)
  {
    && (p == 2 || p % 2 != 0) && (p == 3 || p % 3 != 0) && (p == 5 || p % 5 != 0) && (p == 7 || p % 7 != 0)
    && (p == 11 || p % 11 != 0) && (p == 13 || p % 13 != 0) && (p == 17 || p % 17 != 0)
  }

  lemma Multiple(q: int, d: int)
    requires q > 0
    ensures (d * q) % q == 0
  {
    Arithmetic.Divides(q, d, 0);
  }

  /** Of two factors of a number below 18 * 18 one is below 18. */
  lemma SmallFactor(p: int, d: int) returns (e: int)
    requires 2 <= d < p < 324 && p % d == 0
    ensures 2 <= e < 18 && e < p && p % e == 0
  {
    var q := p / d;
    assert p == d * q;
    Small(d, q);
    if d < 18 {
      e := d;
    } else {
      e := q;
      assert q < 18 by { Larger(d, q); }
      assert q < p by { Grows(d, q); }
      Multiple(q, d);
    }
  }

  lemma Small(d: int, q: int)
    ensures d >= 0 && q <= 1 ==> d * q <= d
  {}

  lemma Larger(d: int, q: int)
    ensures d >= 18 && q >= 18 ==> d * q >= 18 * 18
  {
    if d >= 18 && q >= 18 { assert d * q >= 18 * q; }
  }

  lemma Grows(d: int, q: int)
    requires d >= 2 && q >= 2
    ensures q < d * q
  {
    assert d * q >= 2 * q;
  }

  /** A divisor below 18 has a prime one. */
  lemma PrimeFactor(p: int, e: int)
    requires 2 <= e < 18 && e < p && p % e == 0
    ensures !Tried(p)
  {
    var k := p / e;
    assert p == e * k;
    if e % 2 == 0 { Factor(p, 2, e / 2, k); }
    else if e % 3 == 0 { Factor(p, 3, e / 3, k); }
    else if e % 5 == 0 { Factor(p, 5, e / 5, k); }
    else { assert e in {7, 11, 13, 17}; }
  }

  lemma Factor(p: int, f: int, m: int, k: int)
    requires f > 0 && p == (f * m) * k
    ensures p % f == 0
  {
    assert p == f * (m * k);
    Arithmetic.Divides(f, m * k, 0);
  }

  lemma TriedIsPrime(p: int)
    requires 2 <= p < 324
    ensures IsPrime(p) <==> Tried(p)
  {
    if Tried(p) {
      forall d | 2 <= d < p ensures p % d != 0 {
        if p % d == 0 {
          var e := SmallFactor(p, d);
          PrimeFactor(p, e);
        }
      }
    }
  }

  lemma Row0()
    ensures var r := PrimeRow(0); forall k :: 0 <= k < 8 ==> 2 <= r[k] < 324 && Tried(r[k])
    ensures var r := PrimeRow(0); forall k :: 0 <= k < 7 ==> r[k] < r[k + 1]
    ensures PrimeRow(0)[7] < PrimeRow(1)[0]
  {
    assert PrimeRow(0) == [2, 3, 5, 7, 11, 13, 17, 19];
  }

  lemma Between0a(q: int)
    requires 2 <= q < 11 && Tried(q)
    ensures q in PrimeRow(0)[0..4]
  {
    assert PrimeRow(0)[0..4] == [2, 3, 5, 7];
  }

  lemma Between0b(q: int)
    requires 11 <= q < 23 && Tried(q)
    ensures q in PrimeRow(0)[4..8]
  {
    assert PrimeRow(0)[4..8] == [11, 13, 17, 19];
  }

  lemma Row1()
    ensures var r := PrimeRow(1); forall k :: 0 <= k < 8 ==> 2 <= r[k] < 324 && Tried(r[k])
    ensures var r := PrimeRow(1); forall k :: 0 <= k < 7 ==> r[k] < r[k + 1]
    ensures PrimeRow(1)[7] < PrimeRow(2)[0]
  {
    assert PrimeRow(1) == [23, 29, 31, 37, 41, 43, 47, 53];
  }

  lemma Between1a(q: int)
    requires 23 <= q < 41 && Tried(q)
    ensures q in PrimeRow(1)[0..4]
  {
    assert PrimeRow(1)[0..4] == [23, 29, 31, 37];
  }

  lemma Between1b(q: int)
    requires 41 <= q < 59 && Tried(q)
    ensures q in PrimeRow(1)[4..8]
  {
    assert PrimeRow(1)[4..8] == [41, 43, 47, 53];
  }

  lemma Row2()
    ensures var r := PrimeRow(2); forall k :: 0 <= k < 8 ==> 2 <= r[k] < 324 && Tried(r[k])
    ensures var r := PrimeRow(2); forall k :: 0 <= k < 7 ==> r[k] < r[k + 1]
    ensures PrimeRow(2)[7] < PrimeRow(3)[0]
  {
    assert PrimeRow(2) == [59, 61, 67, 71, 73, 79, 83, 89];
  }

  lemma Between2a(q: int)
    requires 59 <= q < 73 && Tried(q)
    ensures q in PrimeRow(2)[0..4]
  {
    assert PrimeRow(2)[0..4] == [59, 61, 67, 71];
  }

  lemma Between2b(q: int)
    requires 73 <= q < 97 && Tried(q)
    ensures q in PrimeRow(2)[4..8]
  {
    assert PrimeRow(2)[4..8] == [73, 79, 83, 89];
  }

  lemma Row3()
    ensures var r := PrimeRow(3); forall k :: 0 <= k < 8 ==> 2 <= r[k] < 324 && Tried(r[k])
    ensures var r := PrimeRow(3); forall k :: 0 <= k < 7 ==> r[k] < r[k + 1]
    ensures PrimeRow(3)[7] < PrimeRow(4)[0]
  {
    assert PrimeRow(3) == [97, 101, 103, 107, 109, 113, 127, 131];
  }

  lemma Between3a(q: int)
    requires 97 <= q < 109 && Tried(q)
    ensures q in PrimeRow(3)[0..4]
  {
    assert PrimeRow(3)[0..4] == [97, 101, 103, 107];
  }

  lemma Between3b(q: int)
    requires 109 <= q < 137 && Tried(q)
    ensures q in PrimeRow(3)[4..8]
  {
    assert PrimeRow(3)[4..8] == [109, 113, 127, 131];
  }

  lemma Row4()
    ensures var r := PrimeRow(4); forall k :: 0 <= k < 8 ==> 2 <= r[k] < 324 && Tried(r[k])
    ensures var r := PrimeRow(4); forall k :: 0 <= k < 7 ==> r[k] < r[k + 1]
    ensures PrimeRow(4)[7] < PrimeRow(5)[0]
  {
    assert PrimeRow(4) == [137, 139, 149, 151, 157, 163, 167, 173];
  }

  lemma Between4a(q: int)
    requires 137 <= q < 157 && Tried(q)
    ensures q in PrimeRow(4)[0..4]
  {
    assert PrimeRow(4)[0..4] == [137, 139, 149, 151];
  }

  lemma Between4b(q: int)
    requires 157 <= q < 179 && Tried(q)
    ensures q in PrimeRow(4)[4..8]
  {
    assert PrimeRow(4)[4..8] == [157, 163, 167, 173];
  }

  lemma Row5()
    ensures var r := PrimeRow(5); forall k :: 0 <= k < 8 ==> 2 <= r[k] < 324 && Tried(r[k])
    ensures var r := PrimeRow(5); forall k :: 0 <= k < 7 ==> r[k] < r[k + 1]
    ensures PrimeRow(5)[7] < PrimeRow(6)[0]
  {
    assert PrimeRow(5) == [179, 181, 191, 193, 197, 199, 211, 223];
  }

  lemma Between5a(q: int)
    requires 179 <= q < 197 && Tried(q)
    ensures q in PrimeRow(5)[0..4]
  {
    assert PrimeRow(5)[0..4] == [179, 181, 191, 193];
  }

  lemma Between5b(q: int)
    requires 197 <= q < 227 && Tried(q)
    ensures q in PrimeRow(5)[4..8]
  {
    assert PrimeRow(5)[4..8] == [197, 199, 211, 223];
  }

  lemma Row6()
    ensures var r := PrimeRow(6); forall k :: 0 <= k < 8 ==> 2 <= r[k] < 324 && Tried(r[k])
    ensures var r := PrimeRow(6); forall k :: 0 <= k < 7 ==> r[k] < r[k + 1]
    ensures PrimeRow(6)[7] < PrimeRow(7)[0]
  {
    assert PrimeRow(6) == [227, 229, 233, 239, 241, 251, 257, 263];
  }

  lemma Between6a(q: int)
    requires 227 <= q < 241 && Tried(q)
    ensures q in PrimeRow(6)[0..4]
  {
    assert PrimeRow(6)[0..4] == [227, 229, 233, 239];
  }

  lemma Between6b(q: int)
    requires 241 <= q < 269 && Tried(q)
    ensures q in PrimeRow(6)[4..8]
  {
    assert PrimeRow(6)[4..8] == [241, 251, 257, 263];
  }

  lemma Row7()
    ensures var r := PrimeRow(7); forall k :: 0 <= k < 8 ==> 2 <= r[k] < 324 && Tried(r[k])
    ensures var r := PrimeRow(7); forall k :: 0 <= k < 7 ==> r[k] < r[k + 1]
    ensures PrimeRow(7)[7] == 311
  {
    assert PrimeRow(7) == [269, 271, 277, 281, 283, 293, 307, 311];
  }

  lemma Between7a(q: int)
    requires 269 <= q < 283 && Tried(q)
    ensures q in PrimeRow(7)[0..4]
  {
    assert PrimeRow(7)[0..4] == [269, 271, 277, 281];
  }

  lemma Between7b(q: int)
    requires 283 <= q < 311 && Tried(q)
    ensures q in PrimeRow(7)[4..8]
  {
    assert PrimeRow(7)[4..8] == [283, 293, 307, 311];
  }

  lemma RowFacts(n: nat)
    requires n < 8
    ensures var r := PrimeRow(n); forall k :: 0 <= k < 8 ==> 2 <= r[k] < 324 && Tried(r[k])
    ensures var r := PrimeRow(n); forall k :: 0 <= k < 7 ==> r[k] < r[k + 1]
    ensures n < 7 ==> PrimeRow(n)[7] < PrimeRow(n + 1)[0]
  {
    hide Tried, PrimeRow;
    match n {
      case 0 => Row0();
      case 1 => Row1();
      case 2 => Row2();
      case 3 => Row3();
      case 4 => Row4();
      case 5 => Row5();
      case 6 => Row6();
      case 7 => Row7();
    }
  }

  /** Every number that stands the test and is not above the last of them is among these. */
  lemma AllTried(q: int)
    requires 2 <= q <= 311 && Tried(q)
    ensures exists n, k :: 0 <= n < 8 && 0 <= k < 8 && PrimeRow(n)[k] == q
  {
    hide PrimeRow, Tried;
    var n, h := PlaceOf(q);
    var half := PrimeRow(n)[4 * h..4 * h + 4];
    var j :| 0 <= j < |half| && half[j] == q;
    assert PrimeRow(n)[4 * h + j] == q;
  }

  lemma PlaceOf(q: int) returns (n: nat, h: nat)
    requires 2 <= q <= 311 && Tried(q)
    ensures n < 8 && h < 2 && q in PrimeRow(n)[4 * h..4 * h + 4]
  {
    hide PrimeRow, Tried;
    if q < 11 { n, h := 0, 0; Between0a(q); }
    else if q < 23 { n, h := 0, 1; Between0b(q); }
    else if q < 41 { n, h := 1, 0; Between1a(q); }
    else if q < 59 { n, h := 1, 1; Between1b(q); }
    else if q < 73 { n, h := 2, 0; Between2a(q); }
    else if q < 97 { n, h := 2, 1; Between2b(q); }
    else if q < 109 { n, h := 3, 0; Between3a(q); }
    else if q < 137 { n, h := 3, 1; Between3b(q); }
    else if q < 157 { n, h := 4, 0; Between4a(q); }
    else if q < 179 { n, h := 4, 1; Between4b(q); }
    else if q < 197 { n, h := 5, 0; Between5a(q); }
    else if q < 227 { n, h := 5, 1; Between5b(q); }
    else if q < 241 { n, h := 6, 0; Between6a(q); }
    else if q < 269 { n, h := 6, 1; Between6b(q); }
    else if q < 283 { n, h := 7, 0; Between7a(q); }
    else if q < 311 { n, h := 7, 1; Between7b(q); }
    else { n, h := 7, 1; LastRow(); }
  }

  lemma LastRow()
    ensures 311 in PrimeRow(7)[4..8]
  {
    assert PrimeRow(7)[7] == 311 && PrimeRow(7)[4..8][3] == 311;
  }

  lemma {:induction false} PrimesGrow(i: nat, j: nat)
    requires i < j < 64
    ensures PrimeAt(i) < PrimeAt(j)
    decreases j - i
  {
    hide PrimeRow, Tried;
    var n := i / 8;
    RowFacts(n);
    assert PrimeAt(i) < PrimeAt(i + 1) by {
      if i % 8 < 7 { assert (i + 1) / 8 == n; } else { assert (i + 1) / 8 == n + 1; }
    }
    if i + 1 < j { PrimesGrow(i + 1, j); }
  }

  /** PrimeAt gives the first 64 primes in order: it grows, its values are primes, and no prime up to the last of them
      is left out. */
  lemma FirstPrimes()
    ensures forall i, j :: 0 <= i < j < 64 ==> PrimeAt(i) < PrimeAt(j)
    ensures forall i :: 0 <= i < 64 ==> IsPrime(PrimeAt(i))
    ensures forall q :: IsPrime(q) && q <= PrimeAt(63) ==> exists i :: 0 <= i < 64 && PrimeAt(i) == q
  {
    hide PrimeRow, Tried, IsPrime;
    forall i, j | 0 <= i < j < 64 ensures PrimeAt(i) < PrimeAt(j) { PrimesGrow(i, j); }
    forall i | 0 <= i < 64 ensures IsPrime(PrimeAt(i)) {
      RowFacts(i / 8);
      TriedIsPrime(PrimeAt(i));
    }
    LastPrime();
    forall q | IsPrime(q) && q <= PrimeAt(63) ensures exists i :: 0 <= i < 64 && PrimeAt(i) == q {
      AtLeastTwo(q);
      TriedIsPrime(q);
      AllTried(q);
      var n, k :| 0 <= n < 8 && 0 <= k < 8 && PrimeRow(n)[k] == q;
      assert PrimeAt(8 * n + k) == q by { assert (8 * n + k) / 8 == n && (8 * n + k) % 8 == k; }
    }
  }

  lemma AtLeastTwo(q: int)
    requires IsPrime(q)
    ensures q >= 2
  {}

  lemma LastPrime()
    ensures PrimeAt(63) == 311
  {}
}
