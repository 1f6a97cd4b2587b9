// The printed text against the grammar: of all spellings of a value it is the compact one.
module JsonPrinted {
  import opened PyText
  import opened Json
  import opened JsonText
  import S = JsonSpelling
  import D = JsonSpelled
  import R = JsonReading

  // ---------------------------------------------------------------- compact spellings

  predicate SmallHex(h: S.Hex) { !h.capital }

  /** The codes with a short escape in printed text; the slash is not among them. */
  predicate HasShort(c: Code) { c in {34, 92, 8, 12, 10, 13, 9} }

  /** A character as it is from space to tilde, the short escape where there is one, else four
      lower-case digits. */
  predicate CompactPiece(p: S.Piece)
    requires S.PieceOk(p)
  {
    match p
    case Raw(c) => 32 <= c <= 126
    case Short(_) => HasShort(S.PieceCode(p))
    case Unit(a, b, c, d) =>
      && SmallHex(a) && SmallHex(b) && SmallHex(c) && SmallHex(d)
      && !(32 <= S.PieceCode(p) <= 126) && !HasShort(S.PieceCode(p))
  }

  predicate CompactPieces(ps: seq<S.Piece>) {
    S.PiecesOk(ps) && forall i :: 0 <= i < |ps| ==> S.PieceOk(ps[i]) && CompactPiece(ps[i])
  }

  /** No spaces anywhere, and compact strings. */
  predicate Compact(sp: S.Spelling) {
    match sp
    case Word(_) => true
    case Number(_, _, _, _) => true
    case Quoted(ps) => CompactPieces(ps)
    case Array(inside, items) => inside == [] && CompactItems(items)
    case Object(inside, fields) => inside == [] && CompactFields(fields)
  }

  predicate CompactItem(item: S.Item) { item.before == [] && item.after == [] && Compact(item.value) }

  predicate CompactItems(items: seq<S.Item>) { items == [] || (CompactItem(items[0]) && CompactItems(items[1..])) }

  predicate CompactField(f: S.Field) { f.lead == [] && CompactPieces(f.key) && f.middle == [] && CompactItem(f.item) }

  predicate CompactFields(fields: seq<S.Field>) {
    fields == [] || (CompactField(fields[0]) && CompactFields(fields[1..]))
  }

  // ---------------------------------------------------------------- strings

  function SmallDigit(d: int): S.Hex
    requires 0 <= d < 16
  {
    S.Hex(d, false)
  }

  function SmallUnit(c: int): S.Piece
    requires 0 <= c < 0x10000
  {
    S.Unit(SmallDigit(c / 4096), SmallDigit(c / 256 % 16), SmallDigit(c / 16 % 16), SmallDigit(c % 16))
  }

  lemma UnitPrinted(c: int)
    requires 0 <= c < 0x10000
    ensures S.PieceText(SmallUnit(c)) == Unicode(c) && S.PieceCode(SmallUnit(c)) == c
  {
    Digits4(c);
  }

  /** The pieces one character is printed as. */
  lemma CodePrinted(c: Code) returns (ps: seq<S.Piece>)
    ensures CompactPieces(ps) && S.PiecesText(ps) == EscapeCode(c)
  {
    if c >= 0x10000 {
      ps := PairPrinted(0xD800 + (c - 0x10000) / 0x400, 0xDC00 + (c - 0x10000) % 0x400);
    } else {
      var p := PiecePrinted(c);
      OnePiece(p);
      ps := [p];
    }
  }

  lemma PiecePrinted(c: Code) returns (p: S.Piece)
    requires c < 0x10000
    ensures S.PieceOk(p) && CompactPiece(p) && S.PieceText(p) == EscapeCode(c)
  {
    if ShortEscape(c) != 0 {
      p := S.Short(ShortEscape(c));
    } else if 32 <= c < 127 {
      p := S.Raw(c);
    } else {
      UnitPrinted(c);
      p := SmallUnit(c);
    }
  }

  lemma PairPrinted(high: int, low: int) returns (ps: seq<S.Piece>)
    requires 0xD800 <= high < 0xE000 && 0xD800 <= low < 0xE000
    ensures CompactPieces(ps) && S.PiecesText(ps) == Unicode(high) + Unicode(low)
  {
    UnitPrinted(high);
    UnitPrinted(low);
    ps := [SmallUnit(high), SmallUnit(low)];
    OnePiece(SmallUnit(low));
    assert ps[1..] == [SmallUnit(low)];
  }

  lemma OnePiece(p: S.Piece)
    requires S.PieceOk(p) && CompactPiece(p)
    ensures CompactPieces([p]) && S.PiecesText([p]) == S.PieceText(p)
  {
    assert [p][1..] == [];
  }

  lemma {:induction false} PiecesJoin(a: seq<S.Piece>, b: seq<S.Piece>)
    requires S.PiecesOk(a) && S.PiecesOk(b)
    ensures S.PiecesOk(a + b) && S.PiecesText(a + b) == S.PiecesText(a) + S.PiecesText(b)
    decreases |a|
  {
    if a == [] {
      assert a + b == b;
    } else {
      PiecesJoin(a[1..], b);
      assert (a + b)[1..] == a[1..] + b;
    }
  }

  lemma {:induction false} StringPrinted(t: PyStr) returns (ps: seq<S.Piece>)
    ensures CompactPieces(ps) && S.QuotedText(ps) == [QUOTE] + Escapes(t) + [QUOTE]
    ensures S.PiecesText(ps) == Escapes(t)
    decreases |t|
  {
    if t == [] {
      ps := [];
    } else {
      var first := CodePrinted(t[0]);
      var rest := StringPrinted(t[1..]);
      PiecesJoin(first, rest);
      ps := first + rest;
    }
  }

  // ---------------------------------------------------------------- values

  /** A compact spelling of the text. */
  predicate Spells(sp: S.Spelling, text: PyStr) { S.Ok(sp) && Compact(sp) && S.Text(sp) == text }

  lemma {:induction false} DecimalPrinted(n: nat)
    ensures S.Digits(Decimal(n)) && (Decimal(n)[0] == 48 ==> |Decimal(n)| == 1)
    decreases n
  {
    if n >= 10 { DecimalPrinted(n / 10); DecimalLead(n / 10); }
  }

  lemma {:induction false} DecimalLead(n: nat)
    requires n > 0
    ensures Decimal(n)[0] != 48
    decreases n
  {
    if n >= 10 { DecimalLead(n / 10); }
  }

  lemma NumberPrinted(n: int) returns (sp: S.Spelling)
    requires Printable(Int(n))
    ensures Spells(sp, Integer(n))
  {
    var ds := Decimal(if n < 0 then -n else n);
    DecimalPrinted(if n < 0 then -n else n);
    sp := S.Number(n < 0, ds, [], S.NoExponent);
    assert S.FractionText([]) + S.ExponentText(S.NoExponent) == [] && ds + [] == ds;
  }

  lemma FloatPrinted(x: PyStr) returns (sp: S.Spelling)
    requires IsFloat(x)
    ensures Spells(sp, x)
  {
    sp := D.NumberSpelled(x, 0);
    assert x[0..|x|] == x;
  }

  /** What is printed is a compact spelling of the value. */
  lemma {:induction false} PrintSpelled(v: Json) returns (sp: S.Spelling)
    requires Printable(v)
    ensures Spells(sp, Print(v))
    decreases v, 0
  {
    match v
    case Int(n) => sp := NumberPrinted(n);
    case Float(x) => sp := FloatPrinted(x);
    case Str(t) =>
      var ps := StringPrinted(t);
      sp := S.Quoted(ps);
    case Arr(items) => sp := ArrayPrinted(items);
    case Obj(ms) => sp := ObjectPrinted(ms);
    case _ => sp := S.Word(v);
  }

  lemma {:induction false} ArrayPrinted(items: seq<Json>) returns (sp: S.Spelling)
    requires PrintableItems(items)
    ensures Spells(sp, Print(Arr(items)))
    decreases items, 2
  {
    if items == [] {
      sp := S.Array([], []);
    } else {
      var its := ItemsPrinted(items);
      sp := S.Array([], its);
    }
  }

  predicate ItemsSpell(its: seq<S.Item>, text: PyStr) {
    its != [] && S.ItemsOk(its) && CompactItems(its) && S.ItemsText(its) == text
  }

  lemma {:induction false} ItemsPrinted(items: seq<Json>) returns (its: seq<S.Item>)
    requires items != [] && PrintableItems(items)
    ensures ItemsSpell(its, Print(items[0]) + MoreItems(items[1..]))
    decreases items, 1
  {
    var sp := PrintSpelled(items[0]);
    var item := ItemPrinted(Print(items[0]), sp);
    var more := items[1..];
    if more == [] {
      its := [item];
      assert its[1..] == [];
    } else {
      var rest := ItemsPrinted(more);
      its := [item] + rest;
      assert its[1..] == rest;
      assert MoreItems(more) == [COMMA] + S.ItemsText(rest);
    }
  }

  lemma ItemPrinted(text: PyStr, sp: S.Spelling) returns (item: S.Item)
    requires Spells(sp, text)
    ensures S.ItemOk(item) && CompactItem(item) && S.ItemText(item) == text
  {
    item := S.Item([], sp, []);
  }

  lemma {:induction false} ObjectPrinted(ms: seq<Member>) returns (sp: S.Spelling)
    requires PrintableMembers(ms)
    ensures Spells(sp, Print(Obj(ms)))
    decreases ms, 2
  {
    if ms == [] {
      sp := S.Object([], []);
    } else {
      var fields := FieldsPrinted(ms);
      sp := S.Object([], fields);
    }
  }

  predicate FieldsSpell(fields: seq<S.Field>, text: PyStr) {
    fields != [] && S.FieldsOk(fields) && CompactFields(fields) && S.FieldsText(fields) == text
  }

  lemma FieldPrinted(key: PyStr, text: PyStr, sp: S.Spelling) returns (f: S.Field)
    requires Spells(sp, text)
    ensures S.FieldOk(f) && CompactField(f) && S.FieldText(f) == PairText(key, text)
  {
    var ps := StringPrinted(key);
    f := S.Field([], ps, [], S.Item([], sp, []));
    assert S.ItemText(f.item) == text;
  }

  lemma {:induction false} FieldsPrinted(ms: seq<Member>) returns (fields: seq<S.Field>)
    requires ms != [] && PrintableMembers(ms)
    ensures FieldsSpell(fields, PrintMembers(ms))
    decreases ms, 1
  {
    var v := ms[0].value;
    var sp := PrintSpelled(v);
    var f := FieldPrinted(ms[0].key, Print(v), sp);
    if |ms| == 1 {
      fields := [f];
      assert fields[1..] == [] && ms[1..] == [];
    } else {
      var rest := FieldsPrinted(ms[1..]);
      fields := [f] + rest;
      assert fields[1..] == rest;
    }
  }

  /** The encoder against the grammar: of a value the decoder reads back it prints the compact spelling. */
  lemma PrintedCompactly(v: Json) returns (sp: S.Spelling)
    requires Printable(v)
    ensures Spells(sp, Print(v)) && S.Value(sp) == v
  {
    var s := Print(v);
    sp := PrintSpelled(v);
    assert s[0..|s|] == s;
    R.SpellingRead(s, 0, sp, |s|);
    ValueRead(s, 0, v);
  }
}
