/** Texts and byte strings: sequences of code points, or of bytes, held as integers.
    An ASCII text and its bytes are the same sequence. */
module Texts {
  type Text = seq<int>

  datatype Option<+T> = None | Some(value: T)

  /** The code points of a literal. */
  function Lit(s: string): (t: Text)
    ensures |t| == |s| && forall k :: 0 <= k < |s| ==> t[k] == s[k] as int
  {
    seq(|s|, k requires 0 <= k < |s| => s[k] as int)
  }

  predicate IsSurrogate(c: int) { 0xD800 <= c <= 0xDFFF }

  predicate IsScalar(c: int) { 0 <= c <= 0x10FFFF && !IsSurrogate(c) }

  predicate Scalars(t: Text) { forall k :: 0 <= k < |t| ==> IsScalar(t[k]) }

  predicate IsByte(b: int) { 0 <= b < 256 }

  predicate Bytes(t: Text) { forall k :: 0 <= k < |t| ==> IsByte(t[k]) }

  /** The printable ASCII range the canonical form stays in. */
  predicate Printable(t: Text) { forall k :: 0 <= k < |t| ==> 0x20 <= t[k] <= 0x7e }

  predicate IsLowerHex(c: int) { 48 <= c <= 57 || 97 <= c <= 102 }

  /** n lower-case hexadecimal characters, as the profile writes digests, keys and signatures. */
  predicate IsHexN(t: Text, n: nat) { |t| == n && forall k :: 0 <= k < n ==> IsLowerHex(t[k]) }

  function Repeat(c: int, n: nat): (t: Text)
    ensures |t| == n && forall k :: 0 <= k < n ==> t[k] == c
  {
    if n == 0 then [] else [c] + Repeat(c, n - 1)
  }

  lemma {:induction false} RepeatMore(c: int, n: nat)
    ensures Repeat(c, n + 1) == Repeat(c, n) + [c]
  {
    if n > 0 { RepeatMore(c, n - 1); }
  }

  ghost predicate Distinct<T>(s: seq<T>) { forall i, j :: 0 <= i < j < |s| ==> s[i] != s[j] }

  function Max(a: int, b: int): (r: int) { if a >= b then a else b }

  // ---- positions -----------------------------------------------------------------------------

  /** The text t stands in s at position i. */
  ghost predicate At(s: Text, i: nat, t: Text)
  {
    i + |t| <= |s| && forall k :: 0 <= k < |t| ==> s[i + k] == t[k]
  }

  lemma AtSplit(s: Text, i: nat, a: Text, b: Text)
    requires At(s, i, a + b)
    ensures At(s, i, a) && At(s, i + |a|, b)
  {
    forall k | 0 <= k < |a| ensures s[i + k] == a[k] { assert (a + b)[k] == a[k]; }
    forall k | 0 <= k < |b| ensures s[i + |a| + k] == b[k] { assert (a + b)[|a| + k] == b[k]; }
  }

  lemma AtChar(s: Text, i: nat, t: Text, k: nat)
    requires At(s, i, t) && k < |t|
    ensures s[i + k] == t[k]
  {
  }

  // ---- code-point order ----------------------------------------------------------------------

  /** Lexicographic order by code point: the order of Python's str and of Rust's String. */
  predicate Less(a: Text, b: Text)
  {
    if b == [] then false
    else if a == [] then true
    else if a[0] != b[0] then a[0] < b[0]
    else Less(a[1..], b[1..])
  }

  lemma {:induction false} LessIrreflexive(a: Text)
    ensures !Less(a, a)
  {
    if a != [] { LessIrreflexive(a[1..]); }
  }

  lemma {:induction false} LessTransitive(a: Text, b: Text, c: Text)
    requires Less(a, b) && Less(b, c)
    ensures Less(a, c)
  {
    if a != [] && a[0] == b[0] == c[0] { LessTransitive(a[1..], b[1..], c[1..]); }
  }

  lemma {:induction false} LessTotal(a: Text, b: Text)
    ensures Less(a, b) || a == b || Less(b, a)
  {
    if a != [] && b != [] && a[0] == b[0] {
      LessTotal(a[1..], b[1..]);
      assert a == [a[0]] + a[1..] && b == [b[0]] + b[1..];
    }
  }
}
