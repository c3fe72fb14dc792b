/** One line of a ledger at a time, within a bound: how ledger.py and main.rs cut a byte stream. */
module Lines {
  import opened Texts

  const MAX_LINE_BYTES := 67_108_864
  const NEWLINE := 10
  const CARRIAGE := 13

  /** A line without its terminator, and the bytes it takes from the stream. */
  datatype Line = End | TooLong | Line(content: Text, taken: nat)

  /** The bytes before the first newline, or all of them. */
  function Body(b: Text): (n: nat)
    ensures n <= |b|
  {
    if b == [] || b[0] == NEWLINE then 0 else 1 + Body(b[1..])
  }

  /** ledger.py `line_content`: at most one newline, then at most one carriage return, is terminator. */
  function LineContent(raw: Text): (r: Text)
  {
    var a := if raw != [] && raw[|raw| - 1] == NEWLINE then raw[..|raw| - 1] else raw;
    if a != [] && a[|a| - 1] == CARRIAGE then a[..|a| - 1] else a
  }

  /** The first line of the bytes that are left: content beyond the bound is refused, never cut. */
  function FirstLine(b: Text): (r: Line)
    ensures r.Line? ==> 0 < r.taken <= |b|
  {
    if b == [] then End
    else
      var n := Body(b);
      var c := LineContent(b[..n]);
      if |c| > MAX_LINE_BYTES then TooLong else Line(c, if n < |b| then n + 1 else n)
  }

  /** ASCII space and tab only. */
  predicate IsBlank(content: Text)
  {
    forall k :: 0 <= k < |content| ==> content[k] == 0x20 || content[k] == 0x09
  }

  lemma {:induction false} BodyStops(b: Text)
    ensures forall k :: 0 <= k < Body(b) ==> b[k] != NEWLINE
    ensures Body(b) < |b| ==> b[Body(b)] == NEWLINE
  {
    if b != [] && b[0] != NEWLINE {
      BodyStops(b[1..]);
      assert forall k :: 1 <= k < Body(b) ==> b[k] == b[1..][k - 1];
    }
  }

  lemma {:induction false} BodyIs(b: Text, n: nat)
    requires n <= |b| && (forall k :: 0 <= k < n ==> b[k] != NEWLINE) && (n < |b| ==> b[n] == NEWLINE)
    ensures Body(b) == n
  {
    if n > 0 { BodyIs(b[1..], n - 1); }
  }

  /** What the first line is: the bytes up to the first newline or the end, without a carriage return at their end; it
      takes the newline too, and is refused only if what it holds is more than 64 MiB. */
  lemma FirstLineMeans(b: Text, body: Text, rest: Text)
    requires b != [] && b == body + rest && '\n' as int !in body && (rest == [] || rest[0] == '\n' as int)
    ensures var content := if body != [] && body[|body| - 1] == '\r' as int then body[..|body| - 1] else body;
      FirstLine(b) == if |content| > 64 * 1024 * 1024 then TooLong
        else Line(content, |body| + if rest == [] then 0 else 1)
  {
    BodyIs(b, |body|);
    assert b[..|body|] == body;
  }

  /** A blank line holds spaces and tabs only. */
  lemma BlankMeans(content: Text)
    ensures IsBlank(content) <==> forall c :: c in content ==> c in {' ' as int, '\t' as int}
  {
    if forall c :: c in content ==> c in {' ' as int, '\t' as int} {
      forall k | 0 <= k < |content| ensures content[k] == 0x20 || content[k] == 0x09 { assert content[k] in content; }
    }
  }

  // ---- Python's readline ---------------------------------------------------------------------

  /** file.readline(limit): up to and including a newline, at most `limit` bytes. */
  function ReadLine(b: Text, limit: nat): (r: Text)
  {
    var n := if Body(b) < |b| then Body(b) + 1 else Body(b);
    if n <= limit then b[..n] else b[..limit]
  }

  /** The line rule of `Ledger.entries` and `_tail_state`. */
  method PythonLine(b: Text) returns (r: Line)
    ensures r == FirstLine(b)
  {
    var raw := ReadLine(b, MAX_LINE_BYTES + 2);
    BodyStops(b);
    if raw == [] { return End; }
    var n := Body(b);
    if raw[|raw| - 1] != NEWLINE && |raw| == MAX_LINE_BYTES + 2 {
      assert n >= MAX_LINE_BYTES + 2;
      return TooLong;
    }
    assert |raw| == if n < |b| then n + 1 else n;
    var c := LineContent(raw);
    assert c == LineContent(b[..n]) by {
      assert n < |b| ==> raw[..|raw| - 1] == b[..n];
      assert n > 0 ==> b[..n][n - 1] != NEWLINE;
    }
    if |c| > MAX_LINE_BYTES { return TooLong; }
    return Line(c, |raw|);
  }

  // ---- Rust's bounded_line over a buffered reader ----------------------------------------------

  function Flatten(chunks: seq<Text>): (r: Text)
  {
    if chunks == [] then [] else chunks[0] + Flatten(chunks[1..])
  }

  ghost predicate NonEmptyChunks(chunks: seq<Text>)
  {
    forall k :: 0 <= k < |chunks| ==> chunks[k] != []
  }

  /** A buffered reader: the bytes arrive in pieces whose sizes the reader does not choose. */
  class BufReader {
    var chunks: seq<Text>

    ghost predicate Valid() reads this { NonEmptyChunks(chunks) }

    /** The bytes not yet consumed. */
    ghost function Rest(): (r: Text) reads this { Flatten(chunks) }

    constructor (pieces: seq<Text>)
      requires NonEmptyChunks(pieces)
      ensures Valid() && Rest() == Flatten(pieces)
    {
      chunks := pieces;
    }

    /** fill_buf: some bytes, none only at the end of the file. */
    method FillBuf() returns (avail: Text)
      requires Valid()
      ensures avail <= Rest() && (avail == [] <==> Rest() == [])
      ensures avail == [] <==> chunks == []
      ensures chunks != [] ==> avail == chunks[0]
    {
      avail := if chunks == [] then [] else chunks[0];
    }

    method Consume(n: nat)
      requires Valid() && n <= |Rest()| && (if chunks == [] then n == 0 else n <= |chunks[0]|)
      modifies this
      ensures Valid() && Rest() == old(Rest())[n..]
    {
      if n > 0 {
        var head := chunks[0][n..];
        assert Flatten(chunks)[n..] == head + Flatten(chunks[1..]);
        if head == [] {
          chunks := chunks[1..];
        } else {
          assert ([head] + chunks[1..])[1..] == chunks[1..];
          chunks := [head] + chunks[1..];
        }
      }
    }
  }

  function IndexOf(b: Text, c: int): (r: Option<nat>)
    ensures match r
            case Some(i) => i < |b| && b[i] == c && forall k :: 0 <= k < i ==> b[k] != c
            case None => forall k :: 0 <= k < |b| ==> b[k] != c
  {
    if b == [] then None
    else if b[0] == c then Some(0)
    else match IndexOf(b[1..], c) case None => None case Some(i) => Some(i + 1)
  }

  /** What the loop has taken so far: bytes without a newline, then maybe the newline. */
  lemma TakenLine(b: Text, buf: Text, used: nat)
    requires b != [] && buf <= b && forall k :: 0 <= k < |buf| ==> buf[k] != NEWLINE
    requires if used == |buf| + 1 then used <= |b| && b[|buf|] == NEWLINE else used == |buf| == |b|
    ensures Body(b) == |buf| && b[..|buf|] == buf
    ensures FirstLine(b) == if |LineContent(buf)| > MAX_LINE_BYTES then TooLong else Line(LineContent(buf), used)
  {
    forall k | 0 <= k < |buf| ensures b[k] != NEWLINE { assert buf[k] == b[k]; }
    BodyIs(b, |buf|);
  }

  lemma {:induction false} LongBody(b: Text, buf: Text)
    requires buf <= b && (forall k :: 0 <= k < |buf| ==> buf[k] != NEWLINE) && |buf| > MAX_LINE_BYTES + 1
    ensures FirstLine(b) == TooLong
  {
    BodyStops(b);
    forall k | 0 <= k < |buf| ensures b[k] != NEWLINE { assert buf[k] == b[k]; }
    assert |LineContent(b[..Body(b)])| >= Body(b) - 1;
  }

  /** One turn: the piece at hand goes into the buffer up to a newline, and is consumed. */
  method TakePiece(r: BufReader, buf: Text, ghost all: Text) returns (next: Text, consumed: nat, done: bool)
    requires r.Valid() && buf <= all && r.Rest() == all[|buf|..]
    requires forall k :: 0 <= k < |buf| ==> buf[k] != NEWLINE
    modifies r
    ensures r.Valid() && buf <= next <= all && |buf| + consumed <= |all| && r.Rest() == all[|buf| + consumed..]
    ensures forall k :: 0 <= k < |next| ==> next[k] != NEWLINE
    ensures if !done then consumed > 0 && |next| == |buf| + consumed
            else if consumed == 0 then next == buf == all
            else consumed == |next| - |buf| + 1 && all[|next|] == NEWLINE
  {
    var avail := r.FillBuf();
    next, consumed, done := buf, 0, true;
    if avail != [] {
      match IndexOf(avail, NEWLINE) {
        case Some(i) =>
          assert all[|buf| + i] == avail[i];
          next, consumed := buf + avail[..i], i + 1;
        case None =>
          next, consumed, done := buf + avail, |avail|, false;
      }
    } else {
      assert buf == all;
    }
    r.Consume(consumed);
    assert all[|buf|..][consumed..] == all[|buf| + consumed..];
  }

  /** Of content without a newline only a carriage return at its end is dropped. */
  lemma WithoutReturn(buf: Text)
    requires forall k :: 0 <= k < |buf| ==> buf[k] != NEWLINE
    ensures LineContent(buf) == if buf != [] && buf[|buf| - 1] == CARRIAGE then buf[..|buf| - 1] else buf
  {}

  lemma NothingLeft(b: Text)
    ensures b == [] ==> FirstLine(b) == End
  {}

  /** main.rs `bounded_line`: the same line whatever the pieces the bytes come in. */
  method BoundedLine(r: BufReader) returns (line: Line)
    requires r.Valid()
    modifies r
    ensures r.Valid() && line == FirstLine(old(r.Rest()))
    ensures line.Line? ==> r.Rest() == old(r.Rest())[line.taken..]
    ensures line == End ==> r.Rest() == []
  {
    hide Body, LineContent, FirstLine;
    ghost var all := r.Rest();
    var buf: Text := [];
    while true
      invariant r.Valid() && buf <= all && r.Rest() == all[|buf|..]
      invariant forall k :: 0 <= k < |buf| ==> buf[k] != NEWLINE
      decreases |all| - |buf|
    {
      var start := |buf|;
      var consumed, done;
      buf, consumed, done := TakePiece(r, buf, all);
      if |buf| > MAX_LINE_BYTES + 1 {
        LongBody(all, buf);
        return TooLong;
      }
      if done {
        if consumed == 0 && buf == [] {
          NothingLeft(all);
          return End;
        }
        TakenLine(all, buf, start + consumed);
        WithoutReturn(buf);
        if buf != [] && buf[|buf| - 1] == CARRIAGE { buf := buf[..|buf| - 1]; }
        if |buf| > MAX_LINE_BYTES { return TooLong; }
        return Line(buf, start + consumed);
      }
    }
  }
}
