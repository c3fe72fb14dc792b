/** Division with remainder, where the solver needs to be told. */
module Arithmetic {

  lemma Divides(k: int, q: int, r: int)
    requires 0 <= r < k
    ensures (k * q + r) / k == q && (k * q + r) % k == r
  {
    var x := k * q + r;
    var e := x / k - q;
    assert x == k * (x / k) + x % k;
    assert k * e == r - x % k by { assert k * (x / k) - k * q == k * e; }
    assert e >= 1 ==> k * e >= k;
    assert e <= -1 ==> k * e <= -k;
  }
}
