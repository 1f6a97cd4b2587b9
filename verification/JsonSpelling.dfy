// JSON text written out from its grammar (RFC 8259), in code points: every layout, every escape and
// every number. What the decoder reads is stated against it, and not against its own scanning.
module JsonSpelling {
  import opened PyText
  import opened Json

  // ---------------------------------------------------------------- the grammar

  /** Section 2: space, tab, line feed, carriage return. */
  predicate Spaces(w: PyStr) { forall i :: 0 <= i < |w| ==> w[i] in {32, 9, 10, 13} }

  type Nibble = d: int | 0 <= d < 16

  /** A hexadecimal digit, its letter in either case. */
  datatype Hex = Hex(value: Nibble, capital: bool)

  /** Section 7: a character as it is, after a backslash, or by the four digits of its code. */
  datatype Piece = Raw(c: Code) | Short(letter: Code) | Unit(h0: Hex, h1: Hex, h2: Hex, h3: Hex)

  datatype Exponent = NoExponent | Exponent(capital: bool, sign: PyStr, digits: PyStr)

  datatype Spelling =
    | Word(value: Json)
    | Number(minus: bool, digits: PyStr, fraction: PyStr, exponent: Exponent)
    | Quoted(pieces: seq<Piece>)
    | Array(inside: PyStr, items: seq<Item>)
    | Object(inside: PyStr, fields: seq<Field>)

  /** A value and the spaces around it. */
  datatype Item = Item(before: PyStr, value: Spelling, after: PyStr)

  datatype Field = Field(lead: PyStr, key: seq<Piece>, middle: PyStr, item: Item)

  function WordText(v: Json): PyStr {
    match v
    case Null => [110, 117, 108, 108]
    case Bool(b) => if b then [116, 114, 117, 101] else [102, 97, 108, 115, 101]
    case Constant(name) => name
    case _ => []
  }

  /** Section 3, and the three constants Python reads beside it: NaN, Infinity and -Infinity. */
  predicate IsWord(v: Json) {
    match v
    case Null => true
    case Bool(_) => true
    case Constant(name) =>
      || name == [78, 97, 78]
      || name == [73, 110, 102, 105, 110, 105, 116, 121] || name == [45, 73, 110, 102, 105, 110, 105, 116, 121]
    case _ => false
  }

  // ---------------------------------------------------------------- strings

  function HexText(h: Hex): Code {
    if h.value < 10 then 48 + h.value else if h.capital then 55 + h.value else 87 + h.value
  }

  /** The character of a short escape, 0 for a letter that has none. */
  function ShortCode(letter: Code): Code {
    match letter
    case 34 => 34
    case 92 => 92
    case 47 => 47
    case 98 => 8
    case 102 => 12
    case 110 => 10
    case 114 => 13
    case 116 => 9
    case _ => 0
  }

  predicate PieceOk(p: Piece) {
    match p
    case Raw(c) => c >= 32 && c != 34 && c != 92
    case Short(letter) => ShortCode(letter) != 0
    case Unit(_, _, _, _) => true
  }

  predicate PiecesOk(ps: seq<Piece>) { forall i :: 0 <= i < |ps| ==> PieceOk(ps[i]) }

  function PieceText(p: Piece): (t: PyStr)
    requires PieceOk(p)
    ensures t != []
  {
    match p
    case Raw(c) => [c]
    case Short(letter) => [92, letter]
    case Unit(a, b, c, d) => [92, 117, HexText(a), HexText(b), HexText(c), HexText(d)]
  }

  function PiecesText(ps: seq<Piece>): PyStr
    requires PiecesOk(ps)
  {
    if ps == [] then [] else PieceText(ps[0]) + PiecesText(ps[1..])
  }

  /** The code a piece stands for, before pairs are joined. */
  function PieceCode(p: Piece): Code
    requires PieceOk(p)
  {
    match p
    case Raw(c) => c
    case Short(letter) => ShortCode(letter)
    case Unit(a, b, c, d) => 4096 * a.value + 256 * b.value + 16 * c.value + d.value
  }

  /** Section 7: an escaped high surrogate and an escaped low one after it are one character. */
  predicate Pairs(p: Piece, q: Piece)
    requires PieceOk(p) && PieceOk(q)
  {
    p.Unit? && q.Unit? && 0xD800 <= PieceCode(p) < 0xDC00 && 0xDC00 <= PieceCode(q) < 0xE000
  }

  function Joined(high: Code, low: Code): Code
    requires 0xD800 <= high < 0xDC00 <= low < 0xE000
  {
    0x10000 + (high - 0xD800) * 1024 + (low - 0xDC00)
  }

  function Chars(ps: seq<Piece>): PyStr
    requires PiecesOk(ps)
    decreases |ps|
  {
    if ps == [] then []
    else if |ps| > 1 && Pairs(ps[0], ps[1]) then
      [Joined(PieceCode(ps[0]), PieceCode(ps[1]))] + Chars(ps[2..])
    else [PieceCode(ps[0])] + Chars(ps[1..])
  }

  function QuotedText(ps: seq<Piece>): PyStr
    requires PiecesOk(ps)
  {
    [34] + (PiecesText(ps) + [34])
  }

  // ---------------------------------------------------------------- numbers

  predicate Digits(t: PyStr) { forall i :: 0 <= i < |t| ==> 48 <= t[i] <= 57 }

  function Horner(t: PyStr): int { if t == [] then 0 else 10 * Horner(t[..|t|-1]) + t[|t|-1] - 48 }

  predicate ExponentOk(x: Exponent) {
    x.Exponent? ==> x.digits != [] && Digits(x.digits) && (x.sign == [] || x.sign == [43] || x.sign == [45])
  }

  function ExponentText(x: Exponent): PyStr
    requires ExponentOk(x)
  {
    if x.NoExponent? then [] else [if x.capital then 69 else 101] + (x.sign + x.digits)
  }

  function FractionText(ds: PyStr): PyStr { if ds == [] then [] else [46] + ds }

  /** Section 6: no leading zero; an integer of over 4300 digits has no value in Python. */
  predicate NumberOk(ds: PyStr, fraction: PyStr, x: Exponent) {
    && ds != [] && Digits(ds) && (ds[0] == 48 ==> |ds| == 1) && Digits(fraction) && ExponentOk(x)
    && (fraction == [] && x.NoExponent? ==> |ds| <= 4300)
  }

  function NumberText(minus: bool, ds: PyStr, fraction: PyStr, x: Exponent): PyStr
    requires NumberOk(ds, fraction, x)
  {
    (if minus then [45] else []) + (ds + (FractionText(fraction) + ExponentText(x)))
  }

  function NumberValue(minus: bool, ds: PyStr, fraction: PyStr, x: Exponent): Json
    requires NumberOk(ds, fraction, x)
  {
    if fraction == [] && x.NoExponent? then Int(if minus then -Horner(ds) else Horner(ds))
    else Float(NumberText(minus, ds, fraction, x))
  }

  // ---------------------------------------------------------------- values

  predicate Ok(sp: Spelling) {
    match sp
    case Word(v) => IsWord(v)
    case Number(_, ds, fraction, x) => NumberOk(ds, fraction, x)
    case Quoted(ps) => PiecesOk(ps)
    case Array(inside, items) => Spaces(inside) && ItemsOk(items)
    case Object(inside, fields) => Spaces(inside) && FieldsOk(fields)
  }

  predicate ItemOk(item: Item) { Spaces(item.before) && Spaces(item.after) && Ok(item.value) }

  predicate ItemsOk(items: seq<Item>) { items == [] || (ItemOk(items[0]) && ItemsOk(items[1..])) }

  predicate FieldOk(f: Field) { Spaces(f.lead) && PiecesOk(f.key) && Spaces(f.middle) && ItemOk(f.item) }

  predicate FieldsOk(fields: seq<Field>) { fields == [] || (FieldOk(fields[0]) && FieldsOk(fields[1..])) }

  function Text(sp: Spelling): PyStr
    requires Ok(sp)
  {
    match sp
    case Word(v) => WordText(v)
    case Number(minus, ds, fraction, x) => NumberText(minus, ds, fraction, x)
    case Quoted(ps) => QuotedText(ps)
    case Array(inside, items) => [91] + (if items == [] then inside + [93] else ItemsText(items))
    case Object(inside, fields) => [123] + (if fields == [] then inside + [125] else FieldsText(fields))
  }

  function ItemText(item: Item): PyStr
    requires ItemOk(item)
  {
    item.before + (Text(item.value) + item.after)
  }

  /** What stands after the opening bracket. */
  function ItemsText(items: seq<Item>): PyStr
    requires items != [] && ItemsOk(items)
  {
    ItemText(items[0]) + (if |items| == 1 then [93] else [44] + ItemsText(items[1..]))
  }

  function FieldText(f: Field): PyStr
    requires FieldOk(f)
  {
    f.lead + (QuotedText(f.key) + (f.middle + ([58] + ItemText(f.item))))
  }

  function FieldsText(fields: seq<Field>): PyStr
    requires fields != [] && FieldsOk(fields)
  {
    FieldText(fields[0]) + (if |fields| == 1 then [125] else [44] + FieldsText(fields[1..]))
  }

  function Value(sp: Spelling): Json
    requires Ok(sp)
  {
    match sp
    case Word(v) => v
    case Number(minus, ds, fraction, x) => NumberValue(minus, ds, fraction, x)
    case Quoted(ps) => Str(Chars(ps))
    case Array(_, items) => Arr(Values(items))
    case Object(_, fields) => Obj(MembersOf(fields))
  }

  function Values(items: seq<Item>): seq<Json>
    requires ItemsOk(items)
  {
    if items == [] then []
    else
      assert ItemOk(items[0]);
      [Value(items[0].value)] + Values(items[1..])
  }

  function MembersOf(fields: seq<Field>): seq<Member>
    requires FieldsOk(fields)
  {
    if fields == [] then []
    else
      assert FieldOk(fields[0]) && ItemOk(fields[0].item);
      [Member(Chars(fields[0].key), Value(fields[0].item.value))] + MembersOf(fields[1..])
  }
}
