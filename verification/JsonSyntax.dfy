/** The JSON texts of the profile, as syntax trees: every way RFC 8259 allows a value to be written, with its white
    space and its escapes. The reader accepts exactly these texts, with the value of the tree. */
module JsonSyntax {
  import opened Texts
  import opened JsonValues
  import opened JsonGrammar
  import opened JsonPrinter

  // ---- characters of a string (RFC 8259 section 7) ------------------------------------------------

  const LOWER_DIGITS := "0123456789abcdef"
  const UPPER_DIGITS := "0123456789ABCDEF"

  /** The character is a hexadecimal digit of this value, in either case. */
  ghost predicate DigitOf(c: int, v: int)
  {
    0 <= v < 16 && (c == LOWER_DIGITS[v] as int || c == UPPER_DIGITS[v] as int)
  }

  /** Four hexadecimal digits of this number. */
  ghost predicate FourDigits(ds: Text, n: int)
  {
    && |ds| == 4 && 0 <= n < 0x10000
    && DigitOf(ds[0], n / 4096) && DigitOf(ds[1], n / 256 % 16) && DigitOf(ds[2], n / 16 % 16) && DigitOf(ds[3], n % 16)
  }

  /** A code point as itself, as a letter after a backslash, as \uXXXX, or as two of these, a surrogate pair. */
  datatype Piece =
    | Plain(c: int)
    | Letter(e: char)
    | Escape4(c: int, ds: Text)
    | Escape8(c: int, hi: Text, lo: Text)

  function LetterValue(e: char): (r: Option<int>)
  {
    match e
    case '"' => Some(0x22)
    case '\\' => Some(0x5C)
    case '/' => Some(0x2F)
    case 'b' => Some(0x08)
    case 'f' => Some(0x0C)
    case 'n' => Some(0x0A)
    case 'r' => Some(0x0D)
    case 't' => Some(0x09)
    case _ => None
  }

  ghost predicate PieceOk(p: Piece)
  {
    match p
    case Plain(c) => IsScalar(c) && c >= 0x20 && c != 0x22 && c != 0x5C
    case Letter(e) => LetterValue(e).Some?
    case Escape4(c, ds) => IsScalar(c) && FourDigits(ds, c)
    case Escape8(c, hi, lo) =>
      && 0x10000 <= c <= 0x10FFFF
      && FourDigits(hi, 0xD800 + (c - 0x10000) / 0x400) && FourDigits(lo, 0xDC00 + (c - 0x10000) % 0x400)
  }

  function PieceText(p: Piece): (t: Text)
    ensures t != []
  {
    match p
    case Plain(c) => [c]
    case Letter(e) => [0x5C, e as int]
    case Escape4(_, ds) => [0x5C, 'u' as int] + ds
    case Escape8(_, hi, lo) => [0x5C, 'u' as int] + hi + [0x5C, 'u' as int] + lo
  }

  function PieceValue(p: Piece): (c: int)
  {
    match p
    case Plain(c) => c
    case Letter(e) => if LetterValue(e).Some? then LetterValue(e).value else 0
    case Escape4(c, _) => c
    case Escape8(c, _, _) => c
  }

  function PiecesText(ps: seq<Piece>): (t: Text) { if ps == [] then [] else PieceText(ps[0]) + PiecesText(ps[1..]) }

  function PiecesValue(ps: seq<Piece>): (t: Text)
  {
    if ps == [] then [] else [PieceValue(ps[0])] + PiecesValue(ps[1..])
  }

  ghost predicate PiecesOk(ps: seq<Piece>) { forall k :: 0 <= k < |ps| ==> PieceOk(ps[k]) }

  // ---- values (sections 2 to 6) --------------------------------------------------------------------

  ghost predicate Blank(w: Text) { forall k :: 0 <= k < |w| ==> w[k] in {0x20, 0x09, 0x0A, 0x0D} }

  /** A written value. An array or object has the blanks of an empty one, or its elements. */
  datatype Tree =
    | TreeNull
    | TreeTrue
    | TreeFalse
    | TreeInt(n: int)
    | TreeMinusZero
    | TreeString(ps: seq<Piece>)
    | TreeArray(gap: Text, items: seq<Slot>)
    | TreeObject(gap: Text, fields: seq<Field>)

  datatype Slot = Slot(before: Text, tree: Tree, after: Text)

  datatype Field = Field(before: Text, key: seq<Piece>, mid: Text, gap: Text, tree: Tree, after: Text)

  ghost predicate TreeOk(t: Tree)
  {
    match t
    case TreeInt(n) => -MAX_SAFE_INT <= n <= MAX_SAFE_INT
    case TreeString(ps) => PiecesOk(ps)
    case TreeArray(gap, items) => Blank(gap) && forall k :: 0 <= k < |items| ==> SlotOk(items[k])
    case TreeObject(gap, fields) =>
      && Blank(gap) && (forall k :: 0 <= k < |fields| ==> FieldOk(fields[k]))
      && forall j, k :: 0 <= j < k < |fields| ==> KeyOf(fields[j]) != KeyOf(fields[k])
    case _ => true
  }

  ghost predicate SlotOk(s: Slot) { Blank(s.before) && TreeOk(s.tree) && Blank(s.after) }

  ghost predicate FieldOk(f: Field)
  {
    Blank(f.before) && PiecesOk(f.key) && Blank(f.mid) && Blank(f.gap) && TreeOk(f.tree) && Blank(f.after)
  }

  function StringText(ps: seq<Piece>): (t: Text) { [0x22] + (PiecesText(ps) + [0x22]) }

  function TreeText(t: Tree): (r: Text)
  {
    match t
    case TreeNull => Lit("null")
    case TreeTrue => Lit("true")
    case TreeFalse => Lit("false")
    case TreeInt(n) => IntText(n)
    case TreeMinusZero => Lit("-0")
    case TreeString(ps) => StringText(ps)
    case TreeArray(gap, items) => Lit("[") + ((if items == [] then gap else SlotsText(items)) + Lit("]"))
    case TreeObject(gap, fields) => Lit("{") + ((if fields == [] then gap else FieldsText(fields)) + Lit("}"))
  }

  function SlotText(s: Slot): (r: Text) { s.before + (TreeText(s.tree) + s.after) }

  function SlotsText(items: seq<Slot>): (r: Text)
    requires items != []
  {
    if |items| == 1 then SlotText(items[0]) else SlotText(items[0]) + (Lit(",") + SlotsText(items[1..]))
  }

  function FieldText(f: Field): (r: Text)
  {
    f.before + (StringText(f.key) + (f.mid + (Lit(":") + (f.gap + (TreeText(f.tree) + f.after)))))
  }

  function FieldsText(fields: seq<Field>): (r: Text)
    requires fields != []
  {
    if |fields| == 1 then FieldText(fields[0]) else FieldText(fields[0]) + (Lit(",") + FieldsText(fields[1..]))
  }

  function KeyOf(f: Field): (k: Text) { PiecesValue(f.key) }

  function TreeValue(t: Tree): (v: Json)
  {
    match t
    case TreeNull => Null
    case TreeTrue => Bool(true)
    case TreeFalse => Bool(false)
    case TreeInt(n) => Int(n)
    case TreeMinusZero => Int(0)
    case TreeString(ps) => Str(PiecesValue(ps))
    case TreeArray(_, items) => Array(SlotValues(items))
    case TreeObject(_, fields) => Object(FieldValues([], fields))
  }

  function SlotValues(items: seq<Slot>): (vs: seq<Json>)
  {
    if items == [] then [] else [TreeValue(items[0].tree)] + SlotValues(items[1..])
  }

  /** The members in key order, whatever order they are written in. */
  function FieldValues(acc: seq<Member>, fields: seq<Field>): (ms: seq<Member>)
    decreases fields
  {
    if fields == [] then acc
    else FieldValues(Put(acc, KeyOf(fields[0]), TreeValue(fields[0].tree)), fields[1..])
  }
}
