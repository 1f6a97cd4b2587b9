// The decoder against the grammar: it reads every spelling as its value, and whatever it reads is a
// spelling of the value it gives.
module JsonReading {
  import opened PyText
  import opened Json
  import opened JsonText
  import S = JsonSpelling
  import T = JsonText

  // ---------------------------------------------------------------- spaces

  lemma SpaceCodes(c: Code)
    ensures IsWs(c) <==> c in {32, 9, 10, 13}
  {
  }

  lemma {:induction false} SpacesSkipped(s: PyStr, i: nat, w: PyStr)
    requires S.Spaces(w) && StartsAt(s, i, w)
    requires i + |w| < |s| ==> !IsWs(s[i+|w|])
    ensures SkipWs(s, i) == i + |w|
    decreases |w|
  {
    if w != [] {
      AtFirst(s, i, w);
      assert w[0] in {32, 9, 10, 13};
      AtTail(s, i, w);
      SpacesSkipped(s, i + 1, w[1..]);
    }
  }

  lemma AtParts(s: PyStr, a: PyStr, b: PyStr, c: PyStr)
    requires s == a + (b + c)
    ensures StartsAt(s, 0, a) && StartsAt(s, |a|, b) && StartsAt(s, |a| + |b|, c)
  {
    assert s[0..|s|] == s;
    AtSplit(s, 0, a, b + c);
    AtSplit(s, |a|, b, c);
  }

  lemma AtTail(s: PyStr, i: nat, t: PyStr)
    requires StartsAt(s, i, t) && t != []
    ensures StartsAt(s, i + 1, t[1..])
  {
    assert t == [t[0]] + t[1..];
    AtSplit(s, i, [t[0]], t[1..]);
  }

  // ---------------------------------------------------------------- strings

  lemma HexRead(h: S.Hex)
    ensures HexVal(S.HexText(h)) == h.value
  {
  }

  lemma UnitRead(s: PyStr, i: nat, p: S.Piece)
    requires S.PieceOk(p) && p.Unit? && StartsAt(s, i, S.PieceText(p))
    ensures i + 6 <= |s| && s[i] == BACKSLASH && s[i+1] == LOWER_U && Hex4(s, i + 2) == S.PieceCode(p)
  {
    var t := S.PieceText(p);
    AtIndex(s, i, t, 0); AtIndex(s, i, t, 1); AtIndex(s, i, t, 2);
    AtIndex(s, i, t, 3); AtIndex(s, i, t, 4); AtIndex(s, i, t, 5);
    HexRead(p.h0); HexRead(p.h1); HexRead(p.h2); HexRead(p.h3);
  }

  lemma ShortRead(s: PyStr, i: nat, letter: Code)
    requires S.ShortCode(letter) != 0 && StartsAt(s, i, [92, letter])
    ensures ReadsAs(s, i, S.ShortCode(letter), i + 2) && letter != LOWER_U
    ensures s[i] == BACKSLASH && i + 1 < |s| && s[i+1] == letter
  {
    AtIndex(s, i, [92, letter], 0);
    AtIndex(s, i, [92, letter], 1);
  }

  predicate PiecesAt(s: PyStr, i: nat, ps: seq<S.Piece>) {
    S.PiecesOk(ps) && StartsAt(s, i, S.PiecesText(ps) + [34])
  }

  lemma PiecesSplit(s: PyStr, i: nat, ps: seq<S.Piece>)
    requires PiecesAt(s, i, ps) && ps != []
    ensures StartsAt(s, i, S.PieceText(ps[0])) && PiecesAt(s, i + |S.PieceText(ps[0])|, ps[1..])
    ensures |S.PiecesText(ps)| == |S.PieceText(ps[0])| + |S.PiecesText(ps[1..])|
  {
    var a, b := S.PieceText(ps[0]), S.PiecesText(ps[1..]);
    assert S.PiecesText(ps) + [34] == a + (b + [34]);
    AtSplit(s, i, a, b + [34]);
  }

  /** No low surrogate is escaped where these pieces start. */
  lemma NoLowAt(s: PyStr, i: nat, ps: seq<S.Piece>)
    requires PiecesAt(s, i, ps)
    requires ps != [] && ps[0].Unit? ==> !IsLow(S.PieceCode(ps[0]))
    ensures NoLow(s, i)
  {
    if ps == [] {
      AtFirst(s, i, S.PiecesText(ps) + [34]);
    } else {
      PiecesSplit(s, i, ps);
      assert S.PieceOk(ps[0]);
      match ps[0]
      case Raw(c) => AtFirst(s, i, [c]);
      case Short(letter) => ShortRead(s, i, letter);
      case Unit(_, _, _, _) => UnitRead(s, i, ps[0]);
    }
  }

  lemma PieceRead(s: PyStr, i: nat, p: S.Piece, e: nat)
    requires S.PieceOk(p) && StartsAt(s, i, S.PieceText(p)) && e == i + |S.PieceText(p)|
    requires IsHigh(S.PieceCode(p)) ==> NoLow(s, e)
    ensures ReadsAs(s, i, S.PieceCode(p), e)
  {
    match p
    case Raw(c) => AtFirst(s, i, [c]);
    case Short(letter) => ShortRead(s, i, letter);
    case Unit(_, _, _, _) => UnitRead(s, i, p);
  }

  lemma PairRead(s: PyStr, i: nat, p: S.Piece, q: S.Piece)
    requires S.PieceOk(p) && S.PieceOk(q) && S.Pairs(p, q)
    requires StartsAt(s, i, S.PieceText(p)) && StartsAt(s, i + 6, S.PieceText(q))
    ensures ReadsAs(s, i, S.Joined(S.PieceCode(p), S.PieceCode(q)), i + 12)
  {
    UnitRead(s, i, p);
    UnitRead(s, i + 6, q);
  }

  lemma {:induction false} PiecesRead(s: PyStr, i: nat, ps: seq<S.Piece>)
    requires PiecesAt(s, i, ps)
    ensures ScanString(s, i) == Done(S.Chars(ps), i + |S.PiecesText(ps)| + 1)
    decreases |ps|, 1
  {
    if ps == [] {
      AtFirst(s, i, S.PiecesText(ps) + [34]);
    } else {
      PiecesSplit(s, i, ps);
      var e := i + |S.PieceText(ps[0])|;
      assert S.PieceOk(ps[0]);
      if |ps| > 1 && S.Pairs(ps[0], ps[1]) {
        PairedPieces(s, i, ps);
      } else {
        if IsHigh(S.PieceCode(ps[0])) && ps[0].Unit? { NoLowAt(s, e, ps[1..]); }
        PiecesRead(s, e, ps[1..]);
        SinglePiece(s, i, ps, e);
      }
    }
  }

  lemma SinglePiece(s: PyStr, i: nat, ps: seq<S.Piece>, e: nat)
    requires S.PiecesOk(ps) && ps != [] && S.PieceOk(ps[0]) && !(|ps| > 1 && S.Pairs(ps[0], ps[1]))
    requires StartsAt(s, i, S.PieceText(ps[0])) && e == i + |S.PieceText(ps[0])|
    requires IsHigh(S.PieceCode(ps[0])) && ps[0].Unit? ==> NoLow(s, e)
    requires e <= |s| && ScanString(s, e) == Done(S.Chars(ps[1..]), e + |S.PiecesText(ps[1..])| + 1)
    ensures ScanString(s, i) == Done(S.Chars(ps), e + |S.PiecesText(ps[1..])| + 1)
  {
    if ps[0].Raw? { AtFirst(s, i, [ps[0].c]); } else { PieceRead(s, i, ps[0], e); }
    ScanOne(s, i, S.PieceCode(ps[0]), e, S.Chars(ps[1..]), e + |S.PiecesText(ps[1..])| + 1);
  }

  lemma PairedSplit(s: PyStr, i: nat, ps: seq<S.Piece>)
    requires PiecesAt(s, i, ps) && |ps| > 1 && ps[0].Unit? && ps[1].Unit?
    ensures StartsAt(s, i, S.PieceText(ps[0])) && StartsAt(s, i + 6, S.PieceText(ps[1]))
    ensures PiecesAt(s, i + 12, ps[2..]) && |S.PiecesText(ps)| == 12 + |S.PiecesText(ps[2..])|
  {
    PiecesSplit(s, i, ps);
    PiecesSplit(s, i + 6, ps[1..]);
    assert ps[1..][1..] == ps[2..];
  }

  lemma {:induction false} PairedPieces(s: PyStr, i: nat, ps: seq<S.Piece>)
    requires PiecesAt(s, i, ps) && |ps| > 1 && S.PieceOk(ps[0]) && S.PieceOk(ps[1]) && S.Pairs(ps[0], ps[1])
    ensures ScanString(s, i) == Done(S.Chars(ps), i + |S.PiecesText(ps)| + 1)
    decreases |ps|, 0
  {
    PairedSplit(s, i, ps);
    PiecesRead(s, i + 12, ps[2..]);
    PairRead(s, i, ps[0], ps[1]);
    PairedChars(s, i, ps, S.Joined(S.PieceCode(ps[0]), S.PieceCode(ps[1])), i + |S.PiecesText(ps)| + 1);
  }

  lemma PairedChars(s: PyStr, i: nat, ps: seq<S.Piece>, c: Code, f: nat)
    requires S.PiecesOk(ps) && |ps| > 1 && S.PieceOk(ps[0]) && S.PieceOk(ps[1]) && S.Pairs(ps[0], ps[1])
    requires c == S.Joined(S.PieceCode(ps[0]), S.PieceCode(ps[1]))
    requires i + 12 <= |s| && ReadsAs(s, i, c, i + 12) && ScanString(s, i + 12) == Done(S.Chars(ps[2..]), f)
    ensures ScanString(s, i) == Done(S.Chars(ps), f)
  {
    ScanOne(s, i, c, i + 12, S.Chars(ps[2..]), f);
  }

  lemma QuotedRead(s: PyStr, i: nat, ps: seq<S.Piece>)
    requires S.PiecesOk(ps) && StartsAt(s, i, S.QuotedText(ps))
    ensures i < |s| && s[i] == QUOTE && ScanString(s, i + 1) == Done(S.Chars(ps), i + |S.QuotedText(ps)|)
  {
    AtSplit(s, i, [34], S.PiecesText(ps) + [34]);
    AtFirst(s, i, [34]);
    PiecesRead(s, i + 1, ps);
  }

  // ---------------------------------------------------------------- numbers

  lemma DigitsStand(s: PyStr, i: nat, ds: PyStr)
    requires S.Digits(ds) && StartsAt(s, i, ds)
    ensures forall k :: i <= k < i + |ds| ==> IsDigit(s[k])
  {
    forall k | i <= k < i + |ds| ensures IsDigit(s[k]) { AtIndex(s, i, ds, k - i); }
  }

  lemma {:induction false} DigitsRead(s: PyStr, i: nat, ds: PyStr, e: nat)
    requires S.Digits(ds) && StartsAt(s, i, ds) && e == i + |ds|
    ensures e <= |s| && (forall k :: i <= k < e ==> IsDigit(s[k])) && DigitsVal(s, i, e) == S.Horner(ds)
    decreases |ds|
  {
    DigitsStand(s, i, ds);
    if ds != [] {
      var n := |ds| - 1;
      assert ds == ds[..n] + [ds[n]];
      AtSplit(s, i, ds[..n], [ds[n]]);
      AtIndex(s, i, ds, n);
      DigitsRead(s, i, ds[..n], e - 1);
    }
  }

  /** A run of digits that something else follows. */
  lemma RunRead(s: PyStr, i: nat, ds: PyStr)
    requires S.Digits(ds) && StartsAt(s, i, ds) && (i + |ds| < |s| ==> !IsDigit(s[i+|ds|]))
    ensures SkipDigits(s, i) == i + |ds|
  {
    DigitsStand(s, i, ds);
    SkipsDigits(s, i, i + |ds|);
  }

  /** What may follow a number: no digit, no point, no exponent. */
  predicate NumberEnds(s: PyStr, j: nat) {
    j < |s| ==> !IsDigit(s[j]) && s[j] != DOT && s[j] != 101 && s[j] != 69
  }

  lemma ExponentFrom(s: PyStr, i: nat, k: nat, e: nat)
    requires i < |s| && (s[i] == 101 || s[i] == 69)
    requires k == (if i + 1 < |s| && (s[i+1] == PLUS || s[i+1] == MINUS) then i + 2 else i + 1)
    requires k < |s| && IsDigit(s[k]) && SkipDigits(s, k) == e
    ensures ExponentEnd(s, i) == e && !IsDigit(s[i]) && s[i] != DOT
  {
  }

  lemma SignRead(s: PyStr, i: nat, sign: PyStr, ds: PyStr)
    requires ds != [] && S.Digits(ds) && (sign == [] || sign == [43] || sign == [45]) && StartsAt(s, i, sign + ds)
    ensures StartsAt(s, i + |sign|, ds) && i < |s|
    ensures i + |sign| == if s[i] == PLUS || s[i] == MINUS then i + 1 else i
  {
    AtSplit(s, i, sign, ds);
    DigitsStand(s, i + |sign|, ds);
    if sign != [] { AtFirst(s, i, sign); }
    assert IsDigit(s[i+|sign|]);
  }

  lemma ExponentRead(s: PyStr, i: nat, x: S.Exponent, e: nat)
    requires S.ExponentOk(x) && StartsAt(s, i, S.ExponentText(x)) && e == i + |S.ExponentText(x)| && NumberEnds(s, e)
    ensures ExponentEnd(s, i) == e
    ensures i < |s| ==> !IsDigit(s[i]) && s[i] != DOT
  {
    if x.Exponent? { MarkedRead(s, i, if x.capital then 69 else 101, x.sign, x.digits, e); }
  }

  lemma MarkedRead(s: PyStr, i: nat, letter: Code, sign: PyStr, ds: PyStr, e: nat)
    requires letter == 69 || letter == 101
    requires ds != [] && S.Digits(ds) && (sign == [] || sign == [43] || sign == [45])
    requires StartsAt(s, i, [letter] + (sign + ds)) && e == i + 1 + |sign| + |ds| && NumberEnds(s, e)
    ensures ExponentEnd(s, i) == e && !IsDigit(s[i]) && s[i] != DOT
  {
    AtSplit(s, i, [letter], sign + ds);
    AtFirst(s, i, [letter]);
    SignRead(s, i + 1, sign, ds);
    ExponentDigits(s, i, i + 1 + |sign|, ds, e);
  }

  lemma ExponentDigits(s: PyStr, i: nat, k: nat, ds: PyStr, e: nat)
    requires i + 1 < |s| && (s[i] == 101 || s[i] == 69)
    requires k == if s[i+1] == PLUS || s[i+1] == MINUS then i + 2 else i + 1
    requires ds != [] && S.Digits(ds) && StartsAt(s, k, ds) && e == k + |ds| && NumberEnds(s, e)
    ensures ExponentEnd(s, i) == e && !IsDigit(s[i]) && s[i] != DOT
  {
    DigitsStand(s, k, ds);
    RunRead(s, k, ds);
    assert IsDigit(s[k]);
    ExponentFrom(s, i, k, e);
  }

  lemma FractionRead(s: PyStr, i: nat, ds: PyStr)
    requires S.Digits(ds) && StartsAt(s, i, S.FractionText(ds))
    requires i + |S.FractionText(ds)| < |s| ==>
      !IsDigit(s[i+|S.FractionText(ds)|]) && s[i+|S.FractionText(ds)|] != DOT
    ensures FractionEnd(s, i) == i + |S.FractionText(ds)|
    ensures i < |s| ==> !IsDigit(s[i])
  {
    if ds != [] {
      AtSplit(s, i, [46], ds);
      AtFirst(s, i, [46]);
      DigitsStand(s, i + 1, ds);
      RunRead(s, i + 1, ds);
      assert IsDigit(s[i+1]);
    }
  }

  lemma RestRead(s: PyStr, i: nat, ds: PyStr, x: S.Exponent)
    requires S.Digits(ds) && S.ExponentOk(x) && StartsAt(s, i, S.FractionText(ds) + S.ExponentText(x))
    requires NumberEnds(s, i + |S.FractionText(ds) + S.ExponentText(x)|)
    ensures ExponentEnd(s, FractionEnd(s, i)) == i + |S.FractionText(ds) + S.ExponentText(x)|
    ensures i < |s| ==> !IsDigit(s[i])
  {
    AtSplit(s, i, S.FractionText(ds), S.ExponentText(x));
    ExponentRead(s, i + |S.FractionText(ds)|, x, i + |S.FractionText(ds) + S.ExponentText(x)|);
    FractionRead(s, i, ds);
  }

  lemma WholeRead(s: PyStr, a: nat, ds: PyStr)
    requires ds != [] && S.Digits(ds) && (ds[0] == 48 ==> |ds| == 1) && StartsAt(s, a, ds)
    requires a + |ds| < |s| ==> !IsDigit(s[a+|ds|])
    ensures a < |s| && IsDigit(s[a]) && IntegerEnd(s, a) == a + |ds|
  {
    DigitsStand(s, a, ds);
    RunRead(s, a, ds);
  }

  lemma NumberSplit(s: PyStr, i: nat, minus: bool, ds: PyStr, rest: PyStr)
    requires ds != [] && S.Digits(ds) && StartsAt(s, i, (if minus then [45] else []) + (ds + rest))
    ensures var a := if minus then i + 1 else i;
      && StartsAt(s, a, ds) && StartsAt(s, a + |ds|, rest)
      && i < |s| && minus == (s[i] == MINUS) && (!minus ==> IsDigit(s[i]))
  {
    var sign: PyStr := if minus then [45] else [];
    var a := i + |sign|;
    AtSplit(s, i, sign, ds + rest);
    AtSplit(s, a, ds, rest);
    DigitsStand(s, a, ds);
    if minus { AtFirst(s, i, sign); } else { assert IsDigit(s[a]); }
  }

  /** Where a number that stands at i has its first digit, the end of its integer part and its end. */
  predicate NumberAt(s: PyStr, i: nat, minus: bool, a: nat, b: nat, e: nat) {
    && i < |s| && minus == (s[i] == MINUS) && a == (if minus then i + 1 else i)
    && a < b <= e <= |s| && IsDigit(s[a]) && IntegerEnd(s, a) == b
    && ExponentEnd(s, FractionEnd(s, b)) == e
  }

  /** A sign, a digit run and the rest of the text of a number stand at i. */
  predicate PartsAt(s: PyStr, i: nat, minus: bool, ds: PyStr, rest: PyStr, text: PyStr) {
    && ds != [] && S.Digits(ds) && (ds[0] == 48 ==> |ds| == 1)
    && text == (if minus then [45] else []) + (ds + rest) && StartsAt(s, i, text)
  }

  /** No digit stands at b, and a fraction and an exponent read from there end at e. */
  predicate RestAt(s: PyStr, b: nat, e: nat) {
    b <= e <= |s| && ExponentEnd(s, FractionEnd(s, b)) == e && (b < |s| ==> !IsDigit(s[b]))
  }

  lemma NumberPlaced(s: PyStr, i: nat, minus: bool, ds: PyStr, rest: PyStr, text: PyStr, a: nat, b: nat, e: nat)
    requires PartsAt(s, i, minus, ds, rest, text) && RestAt(s, b, e)
    requires a == (if minus then i + 1 else i) && b == a + |ds|
    ensures NumberAt(s, i, minus, a, b, e) && StartsAt(s, a, ds) && (IsDigit(s[i]) || s[i] == MINUS)
  {
    NumberSplit(s, i, minus, ds, rest);
    WholeRead(s, a, ds);
  }

  lemma NumberRead(s: PyStr, i: nat, minus: bool, ds: PyStr, fraction: PyStr, x: S.Exponent, e: nat)
    requires S.NumberOk(ds, fraction, x) && StartsAt(s, i, S.NumberText(minus, ds, fraction, x))
    requires e == i + |S.NumberText(minus, ds, fraction, x)| && NumberEnds(s, e)
    ensures ParseValue(s, i) == Done(S.NumberValue(minus, ds, fraction, x), e)
    ensures i < |s| && (IsDigit(s[i]) || s[i] == MINUS)
  {
    var text, rest := S.NumberText(minus, ds, fraction, x), S.FractionText(fraction) + S.ExponentText(x);
    var a := if minus then i + 1 else i;
    var b := a + |ds|;
    NumberParts(s, i, minus, ds, fraction, x, text, rest);
    NumberRest(s, i, minus, ds, fraction, x, text, rest, b, e);
    NumberPlaced(s, i, minus, ds, rest, text, a, b, e);
    NumberScanned(s, i, minus, a, ds, b, rest, text, e, S.NumberValue(minus, ds, fraction, x));
  }

  lemma NumberScanned(s: PyStr, i: nat, minus: bool, a: nat, ds: PyStr, b: nat, rest: PyStr, text: PyStr,
                      e: nat, v: Json)
    requires NumberAt(s, i, minus, a, b, e) && b == a + |ds| && e == i + |text| && e == b + |rest|
    requires StartsAt(s, i, text) && StartsAt(s, a, ds) && S.Digits(ds)
    requires v == NumberNamed(minus, ds, rest, text) && (rest == [] ==> |ds| <= 4300)
    ensures ParseValue(s, i) == Done(v, e)
  {
    if rest == [] {
      WholeNumber(s, i, minus, a, ds, e, S.Horner(ds));
    } else {
      FloatNumber(s, i, minus, a, b, text, e);
    }
  }

  function NumberNamed(minus: bool, ds: PyStr, rest: PyStr, text: PyStr): Json {
    if rest == [] then Int(if minus then -S.Horner(ds) else S.Horner(ds)) else Float(text)
  }

  lemma NumberParts(s: PyStr, i: nat, minus: bool, ds: PyStr, fraction: PyStr, x: S.Exponent, text: PyStr, rest: PyStr)
    requires S.NumberOk(ds, fraction, x) && text == S.NumberText(minus, ds, fraction, x) && StartsAt(s, i, text)
    requires rest == S.FractionText(fraction) + S.ExponentText(x)
    ensures PartsAt(s, i, minus, ds, rest, text) && (rest == [] ==> |ds| <= 4300)
    ensures |text| == (if minus then 1 else 0) + |ds| + |rest|
    ensures S.NumberValue(minus, ds, fraction, x) == NumberNamed(minus, ds, rest, text)
  {
    if !(fraction == [] && x.NoExponent?) { assert |rest| > 0; }
  }

  lemma NumberRest(s: PyStr, i: nat, minus: bool, ds: PyStr, fraction: PyStr, x: S.Exponent,
                   text: PyStr, rest: PyStr, b: nat, e: nat)
    requires S.Digits(fraction) && S.ExponentOk(x) && rest == S.FractionText(fraction) + S.ExponentText(x)
    requires PartsAt(s, i, minus, ds, rest, text) && NumberEnds(s, e) && e == b + |rest|
    requires b == (if minus then i + 1 else i) + |ds|
    ensures RestAt(s, b, e)
  {
    NumberSplit(s, i, minus, ds, rest);
    RestRead(s, b, fraction, x);
  }

  lemma FloatNumber(s: PyStr, i: nat, minus: bool, a: nat, b: nat, text: PyStr, e: nat)
    requires NumberAt(s, i, minus, a, b, e) && b < e == i + |text| && StartsAt(s, i, text)
    ensures ParseValue(s, i) == Done(Float(text), e)
  {
    NumberStarts(s, i);
    FloatJoined(s, i, a, e);
  }

  lemma WholeNumber(s: PyStr, i: nat, minus: bool, a: nat, ds: PyStr, b: nat, n: int)
    requires NumberAt(s, i, minus, a, b, b) && b == a + |ds| && |ds| <= 4300 && S.Digits(ds) && StartsAt(s, a, ds)
    requires n == S.Horner(ds)
    ensures ParseValue(s, i) == Done(Int(if minus then -n else n), b)
  {
    DigitsRead(s, a, ds, b);
    WholeScanned(s, i, minus, a, b, n);
  }

  lemma WholeScanned(s: PyStr, i: nat, minus: bool, a: nat, b: nat, n: int)
    requires NumberAt(s, i, minus, a, b, b) && b - a <= MAX_INT_DIGITS
    requires (forall k :: a <= k < b ==> IsDigit(s[k])) && DigitsVal(s, a, b) == n
    ensures ParseValue(s, i) == Done(Int(if minus then -n else n), b)
  {
    NumberStarts(s, i);
    T.NumberRead(s, i, minus, b);
  }

  // ---------------------------------------------------------------- values

  lemma WordRead(s: PyStr, i: nat, v: Json)
    requires S.IsWord(v) && StartsAt(s, i, S.WordText(v))
    ensures ParseValue(s, i) == Done(v, i + |S.WordText(v)|)
    ensures i < |s| && !IsWs(s[i]) && s[i] != CLOSE_BRACKET
  {
    assert S.WordText(v) == Print(v);
    AtFirst(s, i, S.WordText(v));
    T.WordRead(s, i, v);
  }

  /** A value at v that ends at e, blanks before it from i on and after it up to c. */
  predicate ItemAt(s: PyStr, i: nat, v: nat, value: Json, e: nat, c: nat) {
    && i <= v < e <= c < |s| && SkipWs(s, i) == v && ParseValue(s, v) == Done(value, e) && SkipWs(s, e) == c
    && s[v] != CLOSE_BRACKET
  }

  /** Every spelling is read as its value, wherever it stands. */
  lemma {:induction false} SpellingRead(s: PyStr, i: nat, sp: S.Spelling, e: nat)
    requires S.Ok(sp) && StartsAt(s, i, S.Text(sp)) && e == i + |S.Text(sp)|
    requires sp.Number? ==> NumberEnds(s, e)
    ensures ParseValue(s, i) == Done(S.Value(sp), e)
    ensures i < |s| && !IsWs(s[i]) && s[i] != CLOSE_BRACKET
    decreases sp, 0
  {
    match sp
    case Word(v) => WordRead(s, i, v);
    case Number(minus, ds, fraction, x) => NumberRead(s, i, minus, ds, fraction, x, e);
    case Quoted(ps) => QuotedRead(s, i, ps);
    case Array(inside, items) =>
      if items == [] { EmptyArrayRead(s, i, inside); } else { ArrayRead(s, i, sp, e); }
    case Object(inside, fields) =>
      if fields == [] { EmptyObjectRead(s, i, inside); } else { ObjectRead(s, i, sp, e); }
  }

  lemma EmptyArrayRead(s: PyStr, i: nat, inside: PyStr)
    requires S.Spaces(inside) && StartsAt(s, i, [91] + (inside + [93]))
    ensures i < |s| && s[i] == OPEN_BRACKET && ParseArray(s, i + 1) == Done([], i + |inside| + 2)
  {
    ClosedAfter(s, i, 91, inside, 93);
  }

  lemma EmptyObjectRead(s: PyStr, i: nat, inside: PyStr)
    requires S.Spaces(inside) && StartsAt(s, i, [123] + (inside + [125]))
    ensures i < |s| && s[i] == OPEN_BRACE && ParseObject(s, i + 1) == Done([], i + |inside| + 2)
  {
    ClosedAfter(s, i, 123, inside, 125);
  }

  lemma ClosedAfter(s: PyStr, i: nat, open: Code, inside: PyStr, close: Code)
    requires S.Spaces(inside) && StartsAt(s, i, [open] + (inside + [close])) && close in {93, 125}
    ensures i < |s| && s[i] == open && i + 1 + |inside| < |s| && s[i+1+|inside|] == close
    ensures SkipWs(s, i + 1) == i + 1 + |inside|
  {
    AtSplit(s, i, [open], inside + [close]);
    AtFirst(s, i, [open]);
    AtSplit(s, i + 1, inside, [close]);
    AtFirst(s, i + 1 + |inside|, [close]);
    SpacesSkipped(s, i + 1, inside);
  }

  lemma {:induction false} ArrayRead(s: PyStr, i: nat, sp: S.Spelling, e: nat)
    requires sp.Array? && sp.items != [] && S.Ok(sp) && StartsAt(s, i, [91] + S.ItemsText(sp.items))
    requires e == i + 1 + |S.ItemsText(sp.items)|
    ensures i < |s| && s[i] == OPEN_BRACKET && ParseArray(s, i + 1) == Done(S.Values(sp.items), e)
    decreases sp.items, 2
  {
    AtSplit(s, i, [91], S.ItemsText(sp.items));
    AtFirst(s, i, [91]);
    ItemsRead(s, i + 1, sp.items, e);
  }

  lemma {:induction false} ObjectRead(s: PyStr, i: nat, sp: S.Spelling, e: nat)
    requires sp.Object? && sp.fields != [] && S.Ok(sp) && StartsAt(s, i, [123] + S.FieldsText(sp.fields))
    requires e == i + 1 + |S.FieldsText(sp.fields)|
    ensures i < |s| && s[i] == OPEN_BRACE && ParseObject(s, i + 1) == Done(S.MembersOf(sp.fields), e)
    decreases sp.fields, 2
  {
    AtSplit(s, i, [123], S.FieldsText(sp.fields));
    AtFirst(s, i, [123]);
    FieldsRead(s, i + 1, sp.fields, e);
  }

  lemma ItemSplit(s: PyStr, i: nat, item: S.Item, v: nat, e: nat, c: nat)
    requires S.ItemOk(item) && StartsAt(s, i, S.ItemText(item)) && c == i + |S.ItemText(item)|
    requires v == i + |item.before| && e == v + |S.Text(item.value)|
    ensures StartsAt(s, i, item.before) && StartsAt(s, v, S.Text(item.value)) && StartsAt(s, e, item.after)
    ensures c == e + |item.after|
  {
    AtSplit(s, i, item.before, S.Text(item.value) + item.after);
    AtSplit(s, v, S.Text(item.value), item.after);
  }

  /** Blanks, or what follows them, end a number. */
  lemma SpacesEnd(s: PyStr, e: nat, w: PyStr)
    requires S.Spaces(w) && StartsAt(s, e, w) && e + |w| < |s| && s[e+|w|] in {44, 93, 125}
    ensures NumberEnds(s, e) && SkipWs(s, e) == e + |w|
  {
    if w != [] { AtFirst(s, e, w); assert w[0] in {32, 9, 10, 13}; }
    SpacesSkipped(s, e, w);
  }

  lemma {:induction false} ItemRead(s: PyStr, i: nat, item: S.Item, sp: S.Spelling, c: nat) returns (v: nat, e: nat)
    requires S.ItemOk(item) && StartsAt(s, i, S.ItemText(item)) && c == i + |S.ItemText(item)|
    requires c < |s| && s[c] in {44, 93, 125} && sp == item.value
    ensures ItemAt(s, i, v, S.Value(sp), e, c)
    decreases sp, 2
  {
    v := i + |item.before|;
    e := v + |S.Text(sp)|;
    ItemSplit(s, i, item, v, e, c);
    ItemScanned(s, i, item.before, sp, item.after, v, e, c);
  }

  lemma {:induction false} ItemScanned(s: PyStr, i: nat, before: PyStr, sp: S.Spelling, after: PyStr,
                                       v: nat, e: nat, c: nat)
    requires S.Spaces(before) && S.Spaces(after) && S.Ok(sp) && c < |s| && s[c] in {44, 93, 125}
    requires StartsAt(s, i, before) && StartsAt(s, v, S.Text(sp)) && StartsAt(s, e, after)
    requires v == i + |before| && e == v + |S.Text(sp)| && c == e + |after|
    ensures ItemAt(s, i, v, S.Value(sp), e, c)
    decreases sp, 1
  {
    SpacesEnd(s, e, after);
    SpellingRead(s, v, sp, e);
    SpacesSkipped(s, i, before);
  }

  lemma CommaSplit(s: PyStr, i: nat, head: PyStr, rest: PyStr)
    requires StartsAt(s, i, head + ([44] + rest))
    ensures StartsAt(s, i, head) && i + |head| < |s| && s[i+|head|] == 44 && StartsAt(s, i + |head| + 1, rest)
  {
    AtSplit(s, i, head, [44] + rest);
    AtSplit(s, i + |head|, [44], rest);
    AtFirst(s, i + |head|, [44]);
  }

  lemma ItemsSplit(s: PyStr, i: nat, items: seq<S.Item>, c: nat, e: nat)
    requires items != [] && S.ItemsOk(items) && S.ItemOk(items[0]) && StartsAt(s, i, S.ItemsText(items))
    requires e == i + |S.ItemsText(items)| && c == i + |S.ItemText(items[0])|
    ensures StartsAt(s, i, S.ItemText(items[0])) && c < |s|
    ensures |items| == 1 ==> s[c] == 93 && e == c + 1
    ensures |items| > 1 ==> ItemsAfter(s, c, items[1..], e)
  {
    var head := S.ItemText(items[0]);
    if |items| == 1 {
      AtSplit(s, i, head, [93]);
      AtFirst(s, c, [93]);
    } else {
      CommaSplit(s, i, head, S.ItemsText(items[1..]));
    }
  }

  /** A comma at c, and after it the rest, up to e. */
  predicate ItemsAfter(s: PyStr, c: nat, rest: seq<S.Item>, e: nat) {
    && rest != [] && S.ItemsOk(rest) && c < |s| && s[c] == 44
    && StartsAt(s, c + 1, S.ItemsText(rest)) && e == c + 1 + |S.ItemsText(rest)|
  }

  lemma {:induction false} ItemsRead(s: PyStr, i: nat, items: seq<S.Item>, e: nat)
    requires items != [] && S.ItemsOk(items) && StartsAt(s, i, S.ItemsText(items)) && e == i + |S.ItemsText(items)|
    ensures ElementsAt(s, i, S.Values(items), e)
    decreases items, 1
  {
    FirstItem(items);
    var item, rest := items[0], items[1..];
    var c := i + |S.ItemText(item)|;
    ItemsSplit(s, i, items, c, e);
    var v, f := ItemRead(s, i, item, item.value, c);
    if rest == [] {
      ItemsEnded(s, i, v, S.Value(item.value), f, c, S.Values(rest));
    } else {
      ItemsRead(s, c + 1, rest, e);
      ItemsJoined(s, i, v, S.Value(item.value), f, c, S.Values(rest), e);
    }
  }

  lemma FirstItem(items: seq<S.Item>)
    requires items != [] && S.ItemsOk(items)
    ensures S.ItemOk(items[0]) && S.ItemsOk(items[1..])
    ensures S.Values(items) == [S.Value(items[0].value)] + S.Values(items[1..])
  {
  }

  /** The elements of an array that ends at e, blanks before them from i on. */
  predicate ElementsAt(s: PyStr, i: nat, values: seq<Json>, e: nat) {
    && i <= |s| && SkipWs(s, i) < |s| && s[SkipWs(s, i)] != CLOSE_BRACKET
    && ParseElements(s, SkipWs(s, i)) == Done(values, e)
  }

  lemma ItemsEnded(s: PyStr, i: nat, v: nat, x: Json, f: nat, c: nat, rest: seq<Json>)
    requires ItemAt(s, i, v, x, f, c) && s[c] == 93 && rest == []
    ensures ElementsAt(s, i, [x] + rest, c + 1)
  {
    assert MoreElements(s, f) == Done([], c + 1);
  }

  lemma ItemsJoined(s: PyStr, i: nat, v: nat, x: Json, f: nat, c: nat, rest: seq<Json>, e: nat)
    requires ItemAt(s, i, v, x, f, c) && s[c] == 44 && ElementsAt(s, c + 1, rest, e)
    ensures ElementsAt(s, i, [x] + rest, e)
  {
    assert MoreElements(s, f) == Done(rest, e);
  }

  lemma FourSplit(s: PyStr, i: nat, a: PyStr, b: PyStr, c: PyStr, d: PyStr)
    requires StartsAt(s, i, a + (b + (c + d)))
    ensures StartsAt(s, i, a) && StartsAt(s, i + |a|, b) && StartsAt(s, i + |a| + |b|, c)
    ensures StartsAt(s, i + |a| + |b| + |c|, d)
  {
    AtSplit(s, i, a, b + (c + d));
    AtSplit(s, i + |a|, b, c + d);
    AtSplit(s, i + |a| + |b|, c, d);
  }

  /** Where the parts of a member stand: its key at q, the colon at m, its value from m + 1 on. */
  lemma FieldSplit(s: PyStr, i: nat, f: S.Field, c: nat, q: nat, k: nat, m: nat)
    requires S.FieldOk(f) && StartsAt(s, i, S.FieldText(f)) && c == i + |S.FieldText(f)|
    requires q == i + |f.lead| && k == q + |S.QuotedText(f.key)| && m == k + |f.middle|
    ensures StartsAt(s, i, f.lead) && StartsAt(s, q, S.QuotedText(f.key)) && StartsAt(s, k, f.middle)
    ensures m < |s| && s[m] == 58 && StartsAt(s, m + 1, S.ItemText(f.item)) && c == m + 1 + |S.ItemText(f.item)|
  {
    var item := [58] + S.ItemText(f.item);
    FourSplit(s, i, f.lead, S.QuotedText(f.key), f.middle, item);
    AtSplit(s, m, [58], S.ItemText(f.item));
    AtFirst(s, m, item);
  }

  lemma KeyRead(s: PyStr, i: nat, f: S.Field, c: nat, q: nat, k: nat, m: nat)
    requires S.FieldOk(f) && StartsAt(s, i, S.FieldText(f)) && c == i + |S.FieldText(f)|
    requires q == i + |f.lead| && k == q + |S.QuotedText(f.key)| && m == k + |f.middle|
    ensures q < |s| && SkipWs(s, i) == q && s[q] == QUOTE && ScanString(s, q + 1) == Done(S.Chars(f.key), k)
    ensures SkipWs(s, k) == m && m < |s| && s[m] == COLON
  {
    FieldSplit(s, i, f, c, q, k, m);
    QuotedRead(s, q, f.key);
    SpacesSkipped(s, i, f.lead);
    SpacesSkipped(s, k, f.middle);
  }

  lemma PairParsed(s: PyStr, q: nat, key: PyStr, k: nat, m: nat, v: nat, value: Json, e: nat)
    requires q < |s| && s[q] == QUOTE && ScanString(s, q + 1) == Done(key, k)
    requires SkipWs(s, k) == m && m < |s| && s[m] == COLON && SkipWs(s, m + 1) == v
    requires ParseValue(s, v) == Done(value, e)
    ensures ParsePair(s, q) == Done(Member(key, value), e)
  {
    var c := SkipWs(s, k);
    assert c == m;
    var w := SkipWs(s, c + 1);
    assert w == v;
    var r := ParseValue(s, w);
    assert r.Done? && r.value == value && r.end == e;
  }

  /** The member m whose key stands at q and which ends at e, blanks before it from i on and after it up to c. */
  predicate FieldAt(s: PyStr, i: nat, q: nat, m: Member, e: nat, c: nat) {
    && i <= q < e <= c < |s| && SkipWs(s, i) == q && s[q] == QUOTE && ParsePair(s, q) == Done(m, e)
    && SkipWs(s, e) == c
  }

  lemma {:induction false} FieldRead(s: PyStr, i: nat, f: S.Field, sp: S.Spelling, c: nat) returns (q: nat, e: nat)
    requires S.FieldOk(f) && sp == f.item.value && S.Ok(sp) && StartsAt(s, i, S.FieldText(f))
    requires c == i + |S.FieldText(f)| && c < |s| && s[c] in {44, 125}
    ensures FieldAt(s, i, q, Member(S.Chars(f.key), S.Value(sp)), e, c)
    decreases sp, 3
  {
    q := i + |f.lead|;
    var k := q + |S.QuotedText(f.key)|;
    var m := k + |f.middle|;
    FieldSplit(s, i, f, c, q, k, m);
    KeyRead(s, i, f, c, q, k, m);
    var v;
    v, e := ItemRead(s, m + 1, f.item, sp, c);
    PairParsed(s, q, S.Chars(f.key), k, m, v, S.Value(sp), e);
  }

  lemma FieldsSplit(s: PyStr, i: nat, fields: seq<S.Field>, c: nat, e: nat)
    requires fields != [] && S.FieldsOk(fields) && S.FieldOk(fields[0]) && StartsAt(s, i, S.FieldsText(fields))
    requires e == i + |S.FieldsText(fields)| && c == i + |S.FieldText(fields[0])|
    ensures StartsAt(s, i, S.FieldText(fields[0])) && c < |s|
    ensures |fields| == 1 ==> s[c] == 125 && e == c + 1
    ensures |fields| > 1 ==> FieldsAfter(s, c, fields[1..], e)
  {
    var head := S.FieldText(fields[0]);
    if |fields| == 1 {
      AtSplit(s, i, head, [125]);
      AtFirst(s, c, [125]);
    } else {
      CommaSplit(s, i, head, S.FieldsText(fields[1..]));
    }
  }

  /** A comma at c, and after it the rest, up to e. */
  predicate FieldsAfter(s: PyStr, c: nat, rest: seq<S.Field>, e: nat) {
    && rest != [] && S.FieldsOk(rest) && c < |s| && s[c] == 44
    && StartsAt(s, c + 1, S.FieldsText(rest)) && e == c + 1 + |S.FieldsText(rest)|
  }

  lemma {:induction false} FieldsRead(s: PyStr, i: nat, fields: seq<S.Field>, e: nat)
    requires fields != [] && S.FieldsOk(fields) && StartsAt(s, i, S.FieldsText(fields))
    requires e == i + |S.FieldsText(fields)|
    ensures MembersAt(s, i, S.MembersOf(fields), e)
    decreases fields, 1
  {
    FirstField(fields);
    var field, rest := fields[0], fields[1..];
    var c := i + |S.FieldText(field)|;
    FieldsSplit(s, i, fields, c, e);
    var sp := field.item.value;
    var q, f := FieldRead(s, i, field, sp, c);
    if rest == [] {
      FieldsEnded(s, i, q, Member(S.Chars(field.key), S.Value(sp)), f, c, S.MembersOf(rest));
    } else {
      FieldsRead(s, c + 1, rest, e);
      FieldsJoined(s, i, q, Member(S.Chars(field.key), S.Value(sp)), f, c, S.MembersOf(rest), e);
    }
  }

  lemma FirstField(fields: seq<S.Field>)
    requires fields != [] && S.FieldsOk(fields)
    ensures S.FieldOk(fields[0]) && S.ItemOk(fields[0].item) && S.FieldsOk(fields[1..])
    ensures S.MembersOf(fields) ==
            [Member(S.Chars(fields[0].key), S.Value(fields[0].item.value))] + S.MembersOf(fields[1..])
  {
  }

  /** The members of an object that ends at e, blanks before them from i on. */
  predicate MembersAt(s: PyStr, i: nat, ms: seq<Member>, e: nat) {
    && i <= |s| && SkipWs(s, i) < |s| && s[SkipWs(s, i)] == QUOTE
    && ParseMembers(s, SkipWs(s, i)) == Done(ms, e)
  }

  lemma FieldsEnded(s: PyStr, i: nat, q: nat, x: Member, f: nat, c: nat, rest: seq<Member>)
    requires FieldAt(s, i, q, x, f, c) && s[c] == 125 && rest == []
    ensures MembersAt(s, i, [x] + rest, c + 1)
  {
    assert MoreMembers(s, f) == Done([], c + 1);
  }

  lemma FieldsJoined(s: PyStr, i: nat, q: nat, x: Member, f: nat, c: nat, rest: seq<Member>, e: nat)
    requires FieldAt(s, i, q, x, f, c) && s[c] == 44 && MembersAt(s, c + 1, rest, e)
    ensures MembersAt(s, i, [x] + rest, e)
  {
    assert MoreMembers(s, f) == Done(rest, e);
  }
}
