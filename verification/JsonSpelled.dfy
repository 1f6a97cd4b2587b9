// The converse of JsonReading: whatever the decoder reads is a spelling of the value it gives.
module JsonSpelled {
  import opened PyText
  import opened Json
  import opened JsonText
  import S = JsonSpelling
  import R = JsonReading

  lemma AtJoin(s: PyStr, i: nat, a: PyStr, b: PyStr)
    requires StartsAt(s, i, a) && StartsAt(s, i + |a|, b)
    ensures StartsAt(s, i, a + b)
  {
    assert s[i..i+|a+b|] == s[i..i+|a|] + s[i+|a|..i+|a|+|b|];
  }

  lemma CodeAt(s: PyStr, i: nat)
    requires i < |s|
    ensures StartsAt(s, i, [s[i]])
  {
    assert s[i..i+1] == [s[i]];
  }

  /** The blanks skipped at i. */
  lemma SpacesSpelled(s: PyStr, i: nat) returns (w: PyStr)
    requires i <= |s|
    ensures S.Spaces(w) && StartsAt(s, i, w) && SkipWs(s, i) == i + |w|
  {
    w := s[i..SkipWs(s, i)];
    forall k | 0 <= k < |w| ensures w[k] in {32, 9, 10, 13} { SkippedAt(s, i, i + k); }
  }

  lemma {:induction false} SkippedAt(s: PyStr, i: nat, k: nat)
    requires i <= |s| && i <= k < SkipWs(s, i)
    ensures k < |s| && s[k] in {32, 9, 10, 13}
    decreases |s| - i
  {
    R.SpaceCodes(s[i]);
    if k > i { SkippedAt(s, i + 1, k); }
  }

  // ---------------------------------------------------------------- strings

  lemma HexSpelled(c: Code) returns (h: S.Hex)
    requires HexVal(c) >= 0
    ensures S.HexText(h) == c
  {
    h := S.Hex(HexVal(c), 65 <= c <= 70);
  }

  lemma UnitSpelled(s: PyStr, i: nat) returns (p: S.Piece)
    requires i + 1 < |s| && s[i] == BACKSLASH && s[i+1] == LOWER_U && Hex4(s, i + 2) >= 0
    ensures p.Unit? && S.PieceOk(p) && StartsAt(s, i, S.PieceText(p)) && |S.PieceText(p)| == 6
    ensures S.PieceCode(p) == Hex4(s, i + 2)
  {
    assert HexVal(s[i+2]) >= 0 && HexVal(s[i+3]) >= 0 && HexVal(s[i+4]) >= 0 && HexVal(s[i+5]) >= 0;
    var a := HexSpelled(s[i+2]);
    var b := HexSpelled(s[i+3]);
    var c := HexSpelled(s[i+4]);
    var d := HexSpelled(s[i+5]);
    p := S.Unit(a, b, c, d);
    assert s[i..i+6] == S.PieceText(p);
    R.UnitRead(s, i, p);
  }

  lemma ShortSpelled(s: PyStr, i: nat) returns (p: S.Piece)
    requires i + 1 < |s| && s[i] == BACKSLASH && EscapeOf(s[i+1]) >= 0
    ensures p.Short? && S.PieceOk(p) && StartsAt(s, i, S.PieceText(p)) && |S.PieceText(p)| == 2
  {
    p := S.Short(s[i+1]);
    assert s[i..i+2] == S.PieceText(p);
  }

  lemma {:induction false} StringSpelled(s: PyStr, i: nat) returns (ps: seq<S.Piece>)
    requires i <= |s| && ScanString(s, i).Done?
    ensures R.PiecesAt(s, i, ps)
    decreases |s| - i
  {
    if s[i] == QUOTE {
      ps := [];
      CodeAt(s, i);
    } else if s[i] == BACKSLASH {
      ps := EscapeSpelled(s, i);
    } else {
      var rest := StringSpelled(s, i + 1);
      CodeAt(s, i);
      ps := PieceBefore(s, i, S.Raw(s[i]), rest);
    }
  }

  lemma PieceBefore(s: PyStr, i: nat, p: S.Piece, rest: seq<S.Piece>) returns (ps: seq<S.Piece>)
    requires S.PieceOk(p) && StartsAt(s, i, S.PieceText(p)) && R.PiecesAt(s, i + |S.PieceText(p)|, rest)
    ensures R.PiecesAt(s, i, ps)
  {
    ps := [p] + rest;
    assert ps[1..] == rest;
    AtJoin(s, i, S.PieceText(p), S.PiecesText(rest) + [34]);
    assert S.PieceText(p) + (S.PiecesText(rest) + [34]) == S.PiecesText(ps) + [34];
  }

  lemma {:induction false} EscapeSpelled(s: PyStr, i: nat) returns (ps: seq<S.Piece>)
    requires i < |s| && s[i] == BACKSLASH && ScanString(s, i).Done?
    ensures R.PiecesAt(s, i, ps)
    decreases |s| - i, 0
  {
    var e := ScanEscape(s, i + 1).end;
    var rest := StringSpelled(s, e);
    var p;
    if s[i+1] == LOWER_U {
      p := UnitSpelled(s, i);
      if e == i + 12 {
        var q := UnitSpelled(s, i + 6);
        rest := PieceBefore(s, i + 6, q, rest);
      }
    } else {
      p := ShortSpelled(s, i);
    }
    ps := PieceBefore(s, i, p, rest);
  }

  /** The string whose opening quote is at i. */
  lemma QuotedSpelled(s: PyStr, i: nat) returns (ps: seq<S.Piece>)
    requires i < |s| && s[i] == QUOTE && ScanString(s, i + 1).Done?
    ensures S.PiecesOk(ps) && StartsAt(s, i, S.QuotedText(ps))
    ensures ScanString(s, i + 1) == Done(S.Chars(ps), i + |S.QuotedText(ps)|)
  {
    ps := StringSpelled(s, i + 1);
    CodeAt(s, i);
    AtJoin(s, i, [34], S.PiecesText(ps) + [34]);
    R.QuotedRead(s, i, ps);
  }

  // ---------------------------------------------------------------- numbers

  lemma DigitsSpelled(s: PyStr, i: nat, j: nat)
    requires i <= j <= |s| && forall k :: i <= k < j ==> IsDigit(s[k])
    ensures S.Digits(s[i..j]) && StartsAt(s, i, s[i..j])
  {
  }

  lemma FractionSpelled(s: PyStr, b: nat) returns (ds: PyStr)
    requires b <= |s|
    ensures S.Digits(ds) && StartsAt(s, b, S.FractionText(ds)) && FractionEnd(s, b) == b + |S.FractionText(ds)|
  {
    var f := FractionEnd(s, b);
    ds := [];
    if f > b {
      ds := s[b+1..f];
      DigitsSpelled(s, b + 1, f);
      assert ds != [];
      CodeAt(s, b);
      AtJoin(s, b, [46], ds);
    }
  }

  lemma ExponentSpelled(s: PyStr, f: nat) returns (x: S.Exponent)
    requires f <= |s|
    ensures S.ExponentOk(x) && StartsAt(s, f, S.ExponentText(x)) && ExponentEnd(s, f) == f + |S.ExponentText(x)|
  {
    var e := ExponentEnd(s, f);
    x := S.NoExponent;
    if e > f {
      var k := if f + 1 < |s| && (s[f+1] == PLUS || s[f+1] == MINUS) then f + 2 else f + 1;
      var letter, sign, ds := s[f], s[f+1..k], s[k..e];
      DigitsSpelled(s, k, e);
      assert ds != [] && IsDigit(s[k]);
      x := S.Exponent(letter == 69, sign, ds);
      CodeAt(s, f);
      AtJoin(s, f + 1, sign, ds);
      AtJoin(s, f, [letter], sign + ds);
    }
  }

  lemma {:induction false} HornerAt(s: PyStr, i: nat, j: nat)
    requires i <= j <= |s| && forall k :: i <= k < j ==> IsDigit(s[k])
    ensures DigitsVal(s, i, j) == S.Horner(s[i..j])
  {
    DigitsSpelled(s, i, j);
    R.DigitsRead(s, i, s[i..j], j);
  }

  /** A spelling of the value v stands at i and ends at e. */
  predicate SpelledAt(s: PyStr, i: nat, sp: S.Spelling, v: Json, e: nat) {
    S.Ok(sp) && StartsAt(s, i, S.Text(sp)) && e == i + |S.Text(sp)| && S.Value(sp) == v
  }

  /** What ScanNumber found: a sign, digits from a to b, and a fraction and an exponent up to e. */
  predicate NumberParts(s: PyStr, i: nat, minus: bool, a: nat, b: nat, e: nat) {
    && i < |s| && minus == (s[i] == MINUS) && a == (if minus then i + 1 else i) && a < b <= e <= |s|
    && (forall k :: a <= k < b ==> IsDigit(s[k])) && (s[a] == 48 ==> b == a + 1)
    && FractionEnd(s, b) <= e && ExponentEnd(s, FractionEnd(s, b)) == e
  }

  function Signed(minus: bool, n: int): int { if minus then -n else n }

  lemma NumberScanned(s: PyStr, i: nat, minus: bool, a: nat, b: nat, e: nat)
    requires i < |s| && ScanNumber(s, i).Done?
    requires minus == (s[i] == MINUS) && a == (if minus then i + 1 else i) && a <= |s|
    requires b == IntegerEnd(s, a) && b <= |s| && e == ExponentEnd(s, FractionEnd(s, b))
    ensures NumberParts(s, i, minus, a, b, e)
    ensures if e > b then ScanNumber(s, i) == Done(Float(s[i..e]), e)
            else b - a <= 4300 && ScanNumber(s, i) == Done(Int(Signed(minus, DigitsVal(s, a, b))), e)
  {
  }

  lemma NumberSpelled(s: PyStr, i: nat) returns (sp: S.Spelling)
    requires i < |s| && ScanNumber(s, i).Done?
    ensures SpelledAt(s, i, sp, ScanNumber(s, i).value, ScanNumber(s, i).end)
  {
    var minus := s[i] == MINUS;
    var a := if minus then i + 1 else i;
    var b := IntegerEnd(s, a);
    var f := FractionEnd(s, b);
    var e := ExponentEnd(s, f);
    NumberScanned(s, i, minus, a, b, e);
    var n := DigitsVal(s, a, b);
    sp := PartsSpelled(s, i, minus, a, b, f, e, n, if e > b then Float(s[i..e]) else Int(Signed(minus, n)));
  }

  lemma PartsSpelled(s: PyStr, i: nat, minus: bool, a: nat, b: nat, f: nat, e: nat, n: int, v: Json)
    returns (sp: S.Spelling)
    requires NumberParts(s, i, minus, a, b, e) && f == FractionEnd(s, b) && n == DigitsVal(s, a, b)
    requires if e > b then v == Float(s[i..e]) else b - a <= 4300 && v == Int(Signed(minus, n))
    ensures SpelledAt(s, i, sp, v, e)
  {
    var fraction := FractionSpelled(s, b);
    var x := ExponentSpelled(s, f);
    HornerAt(s, a, b);
    sp := S.Number(minus, s[a..b], fraction, x);
    NumberJoined(s, i, minus, a, b, f, fraction, x, e);
    NumberNamed(s, i, minus, s[a..b], fraction, x, e);
  }

  lemma NumberJoined(s: PyStr, i: nat, minus: bool, a: nat, b: nat, f: nat, fraction: PyStr, x: S.Exponent, e: nat)
    requires NumberParts(s, i, minus, a, b, e)
    requires S.Digits(fraction) && StartsAt(s, b, S.FractionText(fraction)) && f == b + |S.FractionText(fraction)|
    requires S.ExponentOk(x) && StartsAt(s, f, S.ExponentText(x)) && e == f + |S.ExponentText(x)|
    requires e == b ==> b - a <= 4300
    ensures S.NumberOk(s[a..b], fraction, x) && StartsAt(s, i, S.NumberText(minus, s[a..b], fraction, x))
    ensures e == i + |S.NumberText(minus, s[a..b], fraction, x)|
    ensures fraction == [] && x.NoExponent? <==> e == b
  {
    DigitsSpelled(s, a, b);
    assert s[a..b][0] == s[a];
    TextJoined(s, i, minus, a, s[a..b], f, fraction, x);
  }

  lemma TextJoined(s: PyStr, i: nat, minus: bool, a: nat, ds: PyStr, f: nat, fraction: PyStr, x: S.Exponent)
    requires i < |s| && minus == (s[i] == MINUS) && a == (if minus then i + 1 else i)
    requires StartsAt(s, a, ds) && StartsAt(s, a + |ds|, S.FractionText(fraction))
    requires S.NumberOk(ds, fraction, x)
    requires f == a + |ds| + |S.FractionText(fraction)| && StartsAt(s, f, S.ExponentText(x))
    ensures StartsAt(s, i, S.NumberText(minus, ds, fraction, x))
  {
    AtJoin(s, a + |ds|, S.FractionText(fraction), S.ExponentText(x));
    SignedAt(s, i, minus, a, ds, S.FractionText(fraction) + S.ExponentText(x));
  }

  lemma NumberNamed(s: PyStr, i: nat, minus: bool, ds: PyStr, fraction: PyStr, x: S.Exponent, e: nat)
    requires S.NumberOk(ds, fraction, x) && StartsAt(s, i, S.NumberText(minus, ds, fraction, x))
    requires e == i + |S.NumberText(minus, ds, fraction, x)|
    ensures S.NumberValue(minus, ds, fraction, x) ==
            if fraction == [] && x.NoExponent? then Int(Signed(minus, S.Horner(ds))) else Float(s[i..e])
  {
  }

  lemma SignedAt(s: PyStr, i: nat, minus: bool, a: nat, ds: PyStr, rest: PyStr)
    requires i < |s| && minus == (s[i] == MINUS) && a == (if minus then i + 1 else i)
    requires StartsAt(s, a, ds) && StartsAt(s, a + |ds|, rest)
    ensures StartsAt(s, i, (if minus then [45] else []) + (ds + rest))
  {
    AtJoin(s, a, ds, rest);
    CodeAt(s, i);
    AtJoin(s, i, if minus then [45] else [], ds + rest);
  }

  // ---------------------------------------------------------------- values

  lemma WordSpelled(s: PyStr, i: nat, v: Json) returns (sp: S.Spelling)
    requires S.IsWord(v) && StartsAt(s, i, S.WordText(v))
    ensures SpelledAt(s, i, sp, v, i + |S.WordText(v)|)
  {
    sp := S.Word(v);
  }

  /** The words scan_once compares with. */
  predicate WordStarts(s: PyStr, i: nat) {
    || StartsAt(s, i, NULL_WORD) || StartsAt(s, i, TRUE_WORD) || StartsAt(s, i, FALSE_WORD)
    || StartsAt(s, i, NAN_WORD) || StartsAt(s, i, INF_WORD) || StartsAt(s, i, NEG_INF_WORD)
  }

  lemma WordFound(s: PyStr, i: nat) returns (sp: S.Spelling)
    requires i < |s| && s[i] != QUOTE && s[i] != OPEN_BRACE && s[i] != OPEN_BRACKET && WordStarts(s, i)
    ensures ParseValue(s, i).Done? && SpelledAt(s, i, sp, ParseValue(s, i).value, ParseValue(s, i).end)
  {
    if StartsAt(s, i, NULL_WORD) { sp := WordSpelled(s, i, Null);
    } else if StartsAt(s, i, TRUE_WORD) { sp := WordSpelled(s, i, Bool(true));
    } else if StartsAt(s, i, FALSE_WORD) { sp := WordSpelled(s, i, Bool(false));
    } else if StartsAt(s, i, NAN_WORD) { sp := WordSpelled(s, i, Constant(NAN_WORD));
    } else if StartsAt(s, i, INF_WORD) { sp := WordSpelled(s, i, Constant(INF_WORD));
    } else { sp := WordSpelled(s, i, Constant(NEG_INF_WORD)); }
  }

  /** Whatever the decoder reads is a spelling of the value it gives, up to where it stops. */
  lemma {:induction false} ValueSpelled(s: PyStr, i: nat, v: Json, e: nat) returns (sp: S.Spelling)
    requires i <= |s| && ParseValue(s, i) == Done(v, e)
    ensures SpelledAt(s, i, sp, v, e)
    decreases |s| - i, 0
  {
    if s[i] == QUOTE {
      var ps := QuotedSpelled(s, i);
      sp := S.Quoted(ps);
    } else if s[i] == OPEN_BRACE {
      sp := ObjectSpelled(s, i, v.members, e);
    } else if s[i] == OPEN_BRACKET {
      sp := ArraySpelled(s, i, v.items, e);
    } else if WordStarts(s, i) {
      sp := WordFound(s, i);
    } else {
      sp := NumberSpelled(s, i);
    }
  }

  lemma ClosedSpelled(s: PyStr, i: nat, close: Code) returns (w: PyStr)
    requires i < |s| && SkipWs(s, i + 1) < |s| && s[SkipWs(s, i + 1)] == close
    ensures S.Spaces(w) && StartsAt(s, i, [s[i]] + (w + [close])) && SkipWs(s, i + 1) == i + 1 + |w|
  {
    w := SpacesSpelled(s, i + 1);
    CodeAt(s, i);
    CodeAt(s, i + 1 + |w|);
    AtJoin(s, i + 1, w, [close]);
    AtJoin(s, i, [s[i]], w + [close]);
  }

  lemma {:induction false} ArraySpelled(s: PyStr, i: nat, vs: seq<Json>, e: nat) returns (sp: S.Spelling)
    requires i < |s| && s[i] == OPEN_BRACKET && ParseArray(s, i + 1) == Done(vs, e)
    ensures SpelledAt(s, i, sp, Arr(vs), e)
    decreases |s| - i - 1, 3
  {
    var j := SkipWs(s, i + 1);
    if j < |s| && s[j] == CLOSE_BRACKET {
      var w := ClosedSpelled(s, i, CLOSE_BRACKET);
      sp := S.Array(w, []);
    } else {
      var items := ItemsSpelled(s, i + 1, vs, e);
      sp := ArrayJoined(s, i, items, vs, e);
    }
  }

  lemma ArrayJoined(s: PyStr, i: nat, items: seq<S.Item>, values: seq<Json>, e: nat) returns (sp: S.Spelling)
    requires i < |s| && s[i] == OPEN_BRACKET && ItemsAt(s, i + 1, items, values, e)
    ensures SpelledAt(s, i, sp, Arr(values), e)
  {
    CodeAt(s, i);
    AtJoin(s, i, [91], S.ItemsText(items));
    sp := S.Array([], items);
  }

  predicate ItemsAt(s: PyStr, i: nat, items: seq<S.Item>, values: seq<Json>, e: nat) {
    && items != [] && S.ItemsOk(items) && StartsAt(s, i, S.ItemsText(items)) && e == i + |S.ItemsText(items)|
    && S.Values(items) == values
  }

  predicate ItemAt(s: PyStr, i: nat, item: S.Item, v: Json, c: nat) {
    && S.ItemOk(item) && StartsAt(s, i, S.ItemText(item)) && c == i + |S.ItemText(item)| && S.Value(item.value) == v
  }

  lemma ItemJoined(s: PyStr, i: nat, before: PyStr, sp: S.Spelling, after: PyStr, v: Json, e: nat)
    returns (item: S.Item)
    requires S.Spaces(before) && S.Spaces(after) && StartsAt(s, i, before)
    requires SpelledAt(s, i + |before|, sp, v, e) && StartsAt(s, e, after)
    ensures ItemAt(s, i, item, v, e + |after|)
  {
    item := S.Item(before, sp, after);
    AtJoin(s, i + |before|, S.Text(sp), after);
    AtJoin(s, i, before, S.Text(sp) + after);
  }

  predicate ValueDone(s: PyStr, i: nat, v: Json, e: nat) {
    i <= |s| && ParseValue(s, SkipWs(s, i)) == Done(v, e)
  }

  /** The value after the blanks at i, with the blanks after it up to c. */
  lemma {:induction false} ItemSpelled(s: PyStr, i: nat, v: Json, e: nat, c: nat) returns (item: S.Item)
    requires i <= |s| && ValueDone(s, i, v, e) && c == SkipWs(s, e)
    ensures ItemAt(s, i, item, v, c)
    decreases |s| - i, 1
  {
    var before := SpacesSpelled(s, i);
    var sp := ValueSpelled(s, SkipWs(s, i), v, e);
    var after := SpacesSpelled(s, e);
    item := ItemJoined(s, i, before, sp, after, v, e);
  }

  predicate ElementsDone(s: PyStr, i: nat, vs: seq<Json>, e: nat) {
    i <= |s| && ParseElements(s, SkipWs(s, i)) == Done(vs, e)
  }

  lemma {:induction false} ItemsSpelled(s: PyStr, i: nat, vs: seq<Json>, e: nat) returns (items: seq<S.Item>)
    requires i <= |s| && ElementsDone(s, i, vs, e)
    ensures ItemsAt(s, i, items, vs, e)
    decreases |s| - i, 2
  {
    var f, c := ElementsParts(s, SkipWs(s, i), vs, e);
    var item := ItemSpelled(s, i, vs[0], f, c);
    if s[c] == CLOSE_BRACKET {
      items := LastItem(s, i, item, vs[0], c);
    } else {
      var rest := ItemsSpelled(s, c + 1, vs[1..], e);
      items := ItemBefore(s, i, item, vs[0], c, rest, vs[1..], e);
    }
  }

  /** Where the first of the elements that start at q ends, and what stands after it. */
  lemma ElementsParts(s: PyStr, q: nat, vs: seq<Json>, e: nat) returns (f: nat, c: nat)
    requires q <= |s| && ParseElements(s, q) == Done(vs, e)
    ensures vs != [] && vs == [vs[0]] + vs[1..] && ParseValue(s, q) == Done(vs[0], f)
    ensures c == SkipWs(s, f) && q < c < |s|
    ensures if s[c] == CLOSE_BRACKET then vs == [vs[0]] && e == c + 1
            else s[c] == COMMA && ElementsDone(s, c + 1, vs[1..], e)
  {
    var r := ParseValue(s, q);
    f := r.end;
    c := SkipWs(s, f);
    assert ParseElements(s, q) == Prepend(r.value, MoreElements(s, f));
    assert vs == [r.value] + MoreElements(s, f).value;
  }

  lemma LastItem(s: PyStr, i: nat, item: S.Item, v: Json, c: nat) returns (items: seq<S.Item>)
    requires ItemAt(s, i, item, v, c) && c < |s| && s[c] == CLOSE_BRACKET
    ensures ItemsAt(s, i, items, [v], c + 1)
  {
    items := [item];
    CodeAt(s, c);
    AtJoin(s, i, S.ItemText(item), [93]);
    assert items[1..] == [];
  }

  lemma ItemBefore(s: PyStr, i: nat, item: S.Item, v: Json, c: nat, rest: seq<S.Item>, vs: seq<Json>, e: nat)
    returns (items: seq<S.Item>)
    requires ItemAt(s, i, item, v, c) && c < |s| && s[c] == COMMA && ItemsAt(s, c + 1, rest, vs, e)
    ensures ItemsAt(s, i, items, [v] + vs, e)
  {
    items := [item] + rest;
    assert items[1..] == rest;
    CodeAt(s, c);
    AtJoin(s, c, [44], S.ItemsText(rest));
    AtJoin(s, i, S.ItemText(item), [44] + S.ItemsText(rest));
  }

  lemma {:induction false} ObjectSpelled(s: PyStr, i: nat, ms: seq<Member>, e: nat) returns (sp: S.Spelling)
    requires i < |s| && s[i] == OPEN_BRACE && ParseObject(s, i + 1) == Done(ms, e)
    ensures SpelledAt(s, i, sp, Obj(ms), e)
    decreases |s| - i - 1, 4
  {
    var j := SkipWs(s, i + 1);
    if j < |s| && s[j] == CLOSE_BRACE {
      var w := ClosedSpelled(s, i, CLOSE_BRACE);
      sp := S.Object(w, []);
    } else {
      var fields := FieldsSpelled(s, i + 1, ms, e);
      sp := ObjectJoined(s, i, fields, ms, e);
    }
  }

  lemma ObjectJoined(s: PyStr, i: nat, fields: seq<S.Field>, ms: seq<Member>, e: nat) returns (sp: S.Spelling)
    requires i < |s| && s[i] == OPEN_BRACE && FieldsAt(s, i + 1, fields, ms, e)
    ensures SpelledAt(s, i, sp, Obj(ms), e)
  {
    CodeAt(s, i);
    AtJoin(s, i, [123], S.FieldsText(fields));
    sp := S.Object([], fields);
  }

  predicate FieldsAt(s: PyStr, i: nat, fields: seq<S.Field>, ms: seq<Member>, e: nat) {
    && fields != [] && S.FieldsOk(fields) && StartsAt(s, i, S.FieldsText(fields)) && e == i + |S.FieldsText(fields)|
    && S.MembersOf(fields) == ms
  }

  predicate FieldAt(s: PyStr, i: nat, f: S.Field, m: Member, c: nat) {
    && S.FieldOk(f) && StartsAt(s, i, S.FieldText(f)) && c == i + |S.FieldText(f)|
    && S.Chars(f.key) == m.key && S.ItemOk(f.item) && S.Value(f.item.value) == m.value
  }

  /** The key of a member and the blanks around it, from i up to the colon at n. */
  predicate KeyAt(s: PyStr, i: nat, lead: PyStr, key: seq<S.Piece>, middle: PyStr, n: nat) {
    && S.Spaces(lead) && S.PiecesOk(key) && S.Spaces(middle)
    && StartsAt(s, i, lead + (S.QuotedText(key) + middle))
    && n == i + |lead + (S.QuotedText(key) + middle)| && n < |s| && s[n] == COLON
  }

  predicate HeadAt(s: PyStr, i: nat, f: S.Field, n: nat, m: Member) {
    KeyAt(s, i, f.lead, f.key, f.middle, n) && S.Chars(f.key) == m.key
  }

  lemma KeyJoined(s: PyStr, i: nat, lead: PyStr, key: seq<S.Piece>, k: nat, middle: PyStr, n: nat)
    requires S.Spaces(lead) && StartsAt(s, i, lead) && S.PiecesOk(key) && StartsAt(s, i + |lead|, S.QuotedText(key))
    requires k == i + |lead| + |S.QuotedText(key)| && S.Spaces(middle) && StartsAt(s, k, middle)
    requires n == k + |middle| && n < |s| && s[n] == COLON
    ensures KeyAt(s, i, lead, key, middle, n)
  {
    AtJoin(s, i + |lead|, S.QuotedText(key), middle);
    AtJoin(s, i, lead, S.QuotedText(key) + middle);
  }

  lemma Regrouped(a: PyStr, b: PyStr, c: PyStr, d: PyStr)
    ensures (a + (b + c)) + d == a + (b + (c + d))
  {
  }

  lemma FieldJoined(s: PyStr, i: nat, f: S.Field, n: nat, item: S.Item, m: Member, c: nat) returns (joined: S.Field)
    requires HeadAt(s, i, f, n, m) && ItemAt(s, n + 1, item, m.value, c)
    ensures FieldAt(s, i, joined, m, c)
  {
    joined := f.(item := item);
    var head := f.lead + (S.QuotedText(f.key) + f.middle);
    CodeAt(s, n);
    AtJoin(s, n, [58], S.ItemText(item));
    AtJoin(s, i, head, [58] + S.ItemText(item));
    Regrouped(f.lead, S.QuotedText(f.key), f.middle, [58] + S.ItemText(item));
  }

  /** The key of the member at q and the blanks around it. */
  lemma KeySpelled(s: PyStr, i: nat, q: nat, name: PyStr, k: nat, n: nat)
    returns (lead: PyStr, key: seq<S.Piece>, middle: PyStr)
    requires i <= |s| && q == SkipWs(s, i) && q < |s| && s[q] == QUOTE && ScanString(s, q + 1) == Done(name, k)
    requires n == SkipWs(s, k) && n < |s| && s[n] == COLON
    ensures KeyAt(s, i, lead, key, middle, n) && S.Chars(key) == name
  {
    lead := SpacesSpelled(s, i);
    key := QuotedSpelled(s, q);
    middle := SpacesSpelled(s, k);
    KeyJoined(s, i, lead, key, k, middle, n);
  }

  /** The member after the blanks at i, with the blanks after it up to c. */
  lemma {:induction false} FieldSpelled(s: PyStr, i: nat, q: nat, m: Member, e: nat, c: nat) returns (f: S.Field)
    requires i <= |s| && q == SkipWs(s, i) && ParsePair(s, q) == Done(m, e) && c == SkipWs(s, e)
    ensures FieldAt(s, i, f, m, c)
    decreases |s| - i, 2
  {
    var n;
    f, n := HeadSpelled(s, i, q, m, e);
    var item := ItemSpelled(s, n + 1, m.value, e, c);
    f := FieldJoined(s, i, f, n, item, m, c);
  }

  /** The key of a member, with nothing yet for its value. */
  lemma HeadSpelled(s: PyStr, i: nat, q: nat, m: Member, e: nat) returns (f: S.Field, n: nat)
    requires i <= |s| && q == SkipWs(s, i) && ParsePair(s, q) == Done(m, e)
    ensures n >= i && HeadAt(s, i, f, n, m) && ValueDone(s, n + 1, m.value, e)
  {
    var k;
    k, n := PairParts(s, q, m, e);
    var lead, key, middle := KeySpelled(s, i, q, m.key, k, n);
    f := S.Field(lead, key, middle, S.Item([], S.Word(Null), []));
  }

  /** Where the key of a member ends and where its colon stands. */
  lemma PairParts(s: PyStr, q: nat, m: Member, e: nat) returns (k: nat, n: nat)
    requires q <= |s| && ParsePair(s, q) == Done(m, e)
    ensures q < |s| && s[q] == QUOTE && ScanString(s, q + 1) == Done(m.key, k)
    ensures n == SkipWs(s, k) && q < n < |s| && s[n] == COLON
    ensures ValueDone(s, n + 1, m.value, e)
  {
    k := ScanString(s, q + 1).end;
    n := SkipWs(s, k);
  }

  predicate MembersDone(s: PyStr, i: nat, ms: seq<Member>, e: nat) {
    i <= |s| && ParseMembers(s, SkipWs(s, i)) == Done(ms, e)
  }

  lemma {:induction false} FieldsSpelled(s: PyStr, i: nat, ms: seq<Member>, e: nat) returns (fields: seq<S.Field>)
    requires i <= |s| && MembersDone(s, i, ms, e)
    ensures FieldsAt(s, i, fields, ms, e)
    decreases |s| - i, 3
  {
    var q := SkipWs(s, i);
    var k, c := MembersParts(s, q, ms, e);
    var f := FieldSpelled(s, i, q, ms[0], k, c);
    if s[c] == CLOSE_BRACE {
      fields := LastField(s, i, f, ms[0], c);
    } else {
      var rest := FieldsSpelled(s, c + 1, ms[1..], e);
      fields := FieldBefore(s, i, f, ms[0], c, rest, ms[1..], e);
    }
  }

  /** Where the first of the members that start at q ends, and what stands after it. */
  lemma MembersParts(s: PyStr, q: nat, ms: seq<Member>, e: nat) returns (k: nat, c: nat)
    requires q <= |s| && ParseMembers(s, q) == Done(ms, e)
    ensures ms != [] && ms == [ms[0]] + ms[1..] && ParsePair(s, q) == Done(ms[0], k)
    ensures c == SkipWs(s, k) && q < c < |s|
    ensures if s[c] == CLOSE_BRACE then ms == [ms[0]] && e == c + 1
            else s[c] == COMMA && MembersDone(s, c + 1, ms[1..], e)
  {
    var r := ParsePair(s, q);
    k := r.end;
    c := SkipWs(s, k);
    assert ParseMembers(s, q) == Prepend(r.value, MoreMembers(s, k));
    assert ms == [r.value] + MoreMembers(s, k).value;
  }

  lemma LastField(s: PyStr, i: nat, f: S.Field, m: Member, c: nat) returns (fields: seq<S.Field>)
    requires FieldAt(s, i, f, m, c) && c < |s| && s[c] == CLOSE_BRACE
    ensures FieldsAt(s, i, fields, [m], c + 1)
  {
    fields := [f];
    CodeAt(s, c);
    AtJoin(s, i, S.FieldText(f), [125]);
    assert fields[1..] == [];
  }

  lemma FieldBefore(s: PyStr, i: nat, f: S.Field, m: Member, c: nat, rest: seq<S.Field>, ms: seq<Member>, e: nat)
    returns (fields: seq<S.Field>)
    requires FieldAt(s, i, f, m, c) && c < |s| && s[c] == COMMA && FieldsAt(s, c + 1, rest, ms, e)
    ensures FieldsAt(s, i, fields, [m] + ms, e)
  {
    fields := [f] + rest;
    assert fields[1..] == rest;
    CodeAt(s, c);
    AtJoin(s, c, [44], S.FieldsText(rest));
    AtJoin(s, i, S.FieldText(f), [44] + S.FieldsText(rest));
  }

  // ---------------------------------------------------------------- whole documents

  /** json.loads reads every spelling between blanks as its value. */
  lemma DocumentRead(before: PyStr, sp: S.Spelling, after: PyStr)
    requires S.Ok(sp) && S.Spaces(before) && S.Spaces(after)
    ensures var s := before + (S.Text(sp) + after); Loads(s) == Done(S.Value(sp), |s|)
  {
    var s := before + (S.Text(sp) + after);
    R.AtParts(s, before, S.Text(sp), after);
    DocumentAt(s, before, sp, after, |before|, |before| + |S.Text(sp)|);
  }

  lemma DocumentAt(s: PyStr, before: PyStr, sp: S.Spelling, after: PyStr, i: nat, e: nat)
    requires S.Ok(sp) && S.Spaces(before) && S.Spaces(after) && |s| == e + |after|
    requires i == |before| && e == i + |S.Text(sp)|
    requires StartsAt(s, 0, before) && StartsAt(s, i, S.Text(sp)) && StartsAt(s, e, after)
    ensures Loads(s) == Done(S.Value(sp), |s|)
  {
    if after != [] { AtFirst(s, e, after); assert after[0] in {32, 9, 10, 13}; }
    R.SpellingRead(s, i, sp, e);
    R.SpacesSkipped(s, 0, before);
    R.SpacesSkipped(s, e, after);
  }

  /** Whatever json.loads reads is a spelling of the value it gives, between blanks. */
  lemma DocumentSpelled(s: PyStr) returns (before: PyStr, sp: S.Spelling, after: PyStr)
    requires Loads(s).Done?
    ensures S.Ok(sp) && S.Spaces(before) && S.Spaces(after)
    ensures s == before + (S.Text(sp) + after) && Loads(s).value == S.Value(sp)
  {
    before := SpacesSpelled(s, 0);
    var r := ParseValue(s, |before|);
    sp := ValueSpelled(s, |before|, r.value, r.end);
    after := SpacesSpelled(s, r.end);
    AtJoin(s, |before|, S.Text(sp), after);
    AtJoin(s, 0, before, S.Text(sp) + after);
    assert s[0..|s|] == s;
  }
}
