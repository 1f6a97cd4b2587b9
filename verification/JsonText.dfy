// The encoder of Python's json module with compact separators and ASCII output, and the proof that
// the decoder undoes it.
module JsonText {
  import opened PyText
  import opened Json

  // ---------------------------------------------------------------- numbers

  function Decimal(n: nat): (r: PyStr)
    ensures r != [] && forall k :: 0 <= k < |r| ==> IsDigit(r[k])
  {
    if n < 10 then [48 + n] else Decimal(n / 10) + [48 + n % 10]
  }

  function Integer(n: int): PyStr { if n < 0 then [MINUS] + Decimal(-n) else Decimal(n) }

  function Power10(k: nat): nat { if k == 0 then 1 else 10 * Power10(k - 1) }

  lemma {:induction false} DecimalLength(n: nat, k: nat)
    requires k > 0
    ensures |Decimal(n)| <= k <==> n < Power10(k)
    decreases k
  {
    if k > 1 && n >= 10 { DecimalLength(n / 10, k - 1); }
    PowerPositive(k);
  }

  lemma {:induction false} PowerPositive(k: nat)
    ensures Power10(k) >= 1 && (k > 0 ==> Power10(k) >= 10)
  {
    if k > 0 { PowerPositive(k - 1); }
  }

  // ---------------------------------------------------------------- strings

  function HexDigit(d: int): Code
    requires 0 <= d < 16
  {
    if d < 10 then 48 + d else 87 + d
  }

  /** A backslash, u and four digits. */
  function Unicode(c: int): PyStr
    requires 0 <= c < 0x10000
  {
    [BACKSLASH, LOWER_U, HexDigit(c / 4096), HexDigit(c / 256 % 16), HexDigit(c / 16 % 16), HexDigit(c % 16)]
  }

  /** The letter of a one-letter escape, or 0. */
  function ShortEscape(c: Code): Code {
    if c == QUOTE || c == BACKSLASH then c
    else if c == 8 then 98
    else if c == 12 then 102
    else if c == 10 then 110
    else if c == 13 then 114
    else if c == 9 then 116
    else 0
  }

  function EscapeCode(c: Code): PyStr {
    if ShortEscape(c) != 0 then [BACKSLASH, ShortEscape(c)]
    else if 32 <= c < 127 then [c]
    else if c < 0x10000 then Unicode(c)
    else Unicode(0xD800 + (c - 0x10000) / 0x400) + Unicode(0xDC00 + (c - 0x10000) % 0x400)
  }

  function Escapes(t: PyStr): PyStr {
    if t == [] then [] else EscapeCode(t[0]) + Escapes(t[1..])
  }

  // ---------------------------------------------------------------- values

  function Print(v: Json): PyStr {
    match v
    case Null => NULL_WORD
    case Bool(b) => if b then TRUE_WORD else FALSE_WORD
    case Int(n) => Integer(n)
    case Float(lexeme) => lexeme
    case Constant(name) => if name == INF_WORD || name == NEG_INF_WORD then name else NAN_WORD
    case Str(text) => [QUOTE] + Escapes(text) + [QUOTE]
    case Arr(items) => [OPEN_BRACKET] + PrintItems(items)
    case Obj(ms) => [OPEN_BRACE] + PrintMembers(ms)
  }

  function PrintItems(items: seq<Json>): PyStr {
    if items == [] then [CLOSE_BRACKET] else Print(items[0]) + MoreItems(items[1..])
  }

  function MoreItems(items: seq<Json>): PyStr {
    if items == [] then [CLOSE_BRACKET] else [COMMA] + (Print(items[0]) + MoreItems(items[1..]))
  }

  function PairText(key: PyStr, value: PyStr): PyStr { [QUOTE] + Escapes(key) + [QUOTE] + ([COLON] + value) }

  function PrintMembers(ms: seq<Member>): PyStr {
    if ms == [] then [CLOSE_BRACE]
    else var v := ms[0].value; PairText(ms[0].key, Print(v)) + MoreMembersText(ms[1..])
  }

  function MoreMembersText(ms: seq<Member>): PyStr {
    if ms == [] then [CLOSE_BRACE]
    else
      var v := ms[0].value;
      [COMMA] + (PairText(ms[0].key, Print(v)) + MoreMembersText(ms[1..]))
  }

  /** No high surrogate directly before a low one: the decoder would join the two escapes. */
  predicate Paired(t: PyStr) { forall i {:trigger IsLow(t[i])} :: 0 < i < |t| ==> !(IsHigh(t[i-1]) && IsLow(t[i])) }

  /** A floating-point lexeme: a number with a fraction or an exponent, and nothing else. */
  predicate IsFloat(x: PyStr) { ScanNumber(x, 0) == Done(Float(x), |x|) }

  /** Values whose text the decoder reads back: integers of at most 4300 digits, floating-point
      lexemes, the three constants, strings without a split surrogate pair, and what is built of them. */
  predicate Printable(v: Json) {
    match v
    case Int(n) => |Decimal(if n < 0 then -n else n)| <= MAX_INT_DIGITS
    case Float(lexeme) => IsFloat(lexeme)
    case Constant(name) => name == NAN_WORD || name == INF_WORD || name == NEG_INF_WORD
    case Str(text) => Paired(text)
    case Arr(items) => PrintableItems(items)
    case Obj(ms) => PrintableMembers(ms)
    case _ => true
  }

  predicate PrintableItems(items: seq<Json>) {
    items == [] || (Printable(items[0]) && PrintableItems(items[1..]))
  }

  predicate PrintableMembers(ms: seq<Member>) {
    ms == [] || (var v := ms[0].value; Paired(ms[0].key) && Printable(v) && PrintableMembers(ms[1..]))
  }

  // ---------------------------------------------------------------- text at a position

  lemma AtSplit(s: PyStr, i: nat, a: PyStr, b: PyStr)
    requires StartsAt(s, i, a + b)
    ensures StartsAt(s, i, a) && StartsAt(s, i + |a|, b)
  {
    assert s[i..i+|a|] == (a + b)[..|a|];
    assert s[i+|a|..i+|a|+|b|] == (a + b)[|a|..];
  }

  lemma AtFirst(s: PyStr, i: nat, t: PyStr)
    requires StartsAt(s, i, t) && t != []
    ensures i < |s| && s[i] == t[0]
  {
    assert s[i..i+|t|][0] == t[0];
  }

  lemma AtIndex(s: PyStr, i: nat, t: PyStr, k: nat)
    requires StartsAt(s, i, t) && k < |t|
    ensures i + k < |s| && s[i+k] == t[k]
  {
    assert s[i..i+|t|][k] == t[k];
  }

  // ---------------------------------------------------------------- reading numbers back

  lemma {:induction false} DecimalRead(s: PyStr, i: nat, n: nat)
    requires StartsAt(s, i, Decimal(n))
    ensures forall k :: i <= k < i + |Decimal(n)| ==> IsDigit(s[k])
    ensures DigitsVal(s, i, i + |Decimal(n)|) == n
    ensures s[i] == ZERO <==> n == 0
    ensures n == 0 ==> |Decimal(n)| == 1
  {
    var d := Decimal(n);
    forall k | i <= k < i + |d| ensures IsDigit(s[k]) { AtIndex(s, i, d, k - i); }
    if n < 10 {
      AtFirst(s, i, d);
      assert DigitsVal(s, i, i) == 0;
    } else {
      AtSplit(s, i, Decimal(n / 10), [48 + n % 10]);
      DecimalRead(s, i, n / 10);
      AtFirst(s, i + |d| - 1, [48 + n % 10]);
    }
  }

  lemma {:induction false} SkipsDigits(s: PyStr, i: nat, j: nat)
    requires i <= j <= |s| && (forall k :: i <= k < j ==> IsDigit(s[k])) && (j < |s| ==> !IsDigit(s[j]))
    ensures SkipDigits(s, i) == j
    decreases j - i
  {
    if i < j { SkipsDigits(s, i + 1, j); }
  }

  /** What may follow a value. */
  predicate Stops(s: PyStr, j: nat) {
    j >= |s| || s[j] == COMMA || s[j] == CLOSE_BRACKET || s[j] == CLOSE_BRACE || IsWs(s[j])
  }

  lemma NoFraction(s: PyStr, j: nat)
    requires j <= |s| && Stops(s, j)
    ensures ExponentEnd(s, FractionEnd(s, j)) == j && (j < |s| ==> !IsDigit(s[j]))
  {
  }

  lemma DigitsRead(s: PyStr, a: nat, m: nat)
    requires StartsAt(s, a, Decimal(m)) && Stops(s, a + |Decimal(m)|)
    ensures var b := a + |Decimal(m)|;
      && a < b <= |s| && IsDigit(s[a])
      && (if s[a] == ZERO then a + 1 else SkipDigits(s, a)) == b
      && (forall k :: a <= k < b ==> IsDigit(s[k])) && DigitsVal(s, a, b) == m
  {
    DecimalRead(s, a, m);
    NoFraction(s, a + |Decimal(m)|);
    SkipsDigits(s, a, a + |Decimal(m)|);
  }

  lemma NumberRead(s: PyStr, i: nat, neg: bool, b: nat)
    requires i < |s| && neg == (s[i] == MINUS)
    requires var a := if neg then i + 1 else i;
      && a < b <= |s| && IsDigit(s[a]) && (if s[a] == ZERO then a + 1 else SkipDigits(s, a)) == b
      && (forall k :: a <= k < b ==> IsDigit(s[k])) && b - a <= MAX_INT_DIGITS
    requires ExponentEnd(s, FractionEnd(s, b)) == b
    ensures var v: int := DigitsVal(s, if neg then i + 1 else i, b);
      ScanNumber(s, i) == Done(Int(if neg then -v else v), b)
  {
  }

  lemma IntegerRead(s: PyStr, i: nat, n: int)
    requires StartsAt(s, i, Integer(n)) && Stops(s, i + |Integer(n)|) && Printable(Int(n))
    ensures ScanNumber(s, i) == Done(Int(n), i + |Integer(n)|)
    ensures i < |s| && (s[i] == MINUS || IsDigit(s[i]))
    ensures s[i] == MINUS ==> i + 1 < |s| && IsDigit(s[i+1])
  {
    var b := i + |Integer(n)|;
    if n < 0 {
      AtSplit(s, i, [MINUS], Decimal(-n));
      AtFirst(s, i, [MINUS]);
      DigitsRead(s, i + 1, -n);
      NoFraction(s, b);
      NumberRead(s, i, true, b);
    } else {
      DigitsRead(s, i, n);
      NoFraction(s, b);
      NumberRead(s, i, false, b);
    }
  }

  // A number reads the same wherever it stands before a character that may follow a value.

  /** The text x stands at i in s and something else follows it. */
  predicate Standing(s: PyStr, i: nat, x: PyStr) { StartsAt(s, i, x) && Stops(s, i + |x|) }

  lemma {:induction false} SkipDigitsStanding(s: PyStr, i: nat, x: PyStr, k: nat)
    requires Standing(s, i, x) && k <= |x|
    ensures SkipDigits(s, i + k) == i + SkipDigits(x, k)
    decreases |x| - k
  {
    if k < |x| {
      AtIndex(s, i, x, k);
      if IsDigit(x[k]) { SkipDigitsStanding(s, i, x, k + 1); }
    }
  }

  lemma FractionStanding(s: PyStr, i: nat, x: PyStr, k: nat)
    requires Standing(s, i, x) && k <= |x|
    ensures FractionEnd(s, i + k) == i + FractionEnd(x, k)
  {
    if k < |x| { AtIndex(s, i, x, k); }
    if k + 1 < |x| {
      AtIndex(s, i, x, k + 1);
      SkipDigitsStanding(s, i, x, k + 1);
    }
  }

  lemma ExponentStanding(s: PyStr, i: nat, x: PyStr, k: nat)
    requires Standing(s, i, x) && k <= |x|
    ensures ExponentEnd(s, i + k) == i + ExponentEnd(x, k)
  {
    if k < |x| { AtIndex(s, i, x, k); }
    if k < |x| && (x[k] == 101 || x[k] == 69) { ExponentDigits(s, i, x, k); }
  }

  lemma ExponentDigits(s: PyStr, i: nat, x: PyStr, k: nat)
    requires Standing(s, i, x) && k < |x| && (x[k] == 101 || x[k] == 69) && s[i+k] == x[k]
    ensures ExponentEnd(s, i + k) == i + ExponentEnd(x, k)
  {
    if k + 1 < |x| { AtIndex(s, i, x, k + 1); }
    var d := if k + 1 < |x| && (x[k+1] == PLUS || x[k+1] == MINUS) then k + 2 else k + 1;
    assert d == (if i + k + 1 < |s| && (s[i+k+1] == PLUS || s[i+k+1] == MINUS) then i + k + 2 else i + k + 1) - i;
    if d < |x| {
      AtIndex(s, i, x, d);
      SkipDigitsStanding(s, i, x, d);
    }
  }

  /** Where the integer part, and then the whole number, of a text end. */
  function IntegerEnd(x: PyStr, a: nat): nat
    requires a < |x|
  {
    if x[a] == ZERO then a + 1 else SkipDigits(x, a)
  }

  lemma FloatParts(x: PyStr)
    requires IsFloat(x)
    ensures var a := if x[0] == MINUS then 1 else 0;
      && a < |x| && IsDigit(x[a]) && IntegerEnd(x, a) <= |x|
      && ExponentEnd(x, FractionEnd(x, IntegerEnd(x, a))) == |x| > IntegerEnd(x, a)
  {
  }

  lemma FloatJoined(s: PyStr, i: nat, a: nat, e: nat)
    requires i < |s| && a == (if s[i] == MINUS then i + 1 else i) && a < |s| && IsDigit(s[a])
    requires IntegerEnd(s, a) <= |s| && ExponentEnd(s, FractionEnd(s, IntegerEnd(s, a))) == e > IntegerEnd(s, a)
    ensures ScanNumber(s, i) == Done(Float(s[i..e]), e)
  {
  }

  lemma FloatRead(s: PyStr, i: nat, x: PyStr)
    requires IsFloat(x) && Standing(s, i, x)
    ensures i < |s| && (IsDigit(s[i]) || (s[i] == MINUS && i + 1 < |s| && IsDigit(s[i+1])))
    ensures ScanNumber(s, i) == Done(Float(x), i + |x|)
  {
    FloatParts(x);
    FloatAt(s, i, x, if x[0] == MINUS then 1 else 0);
  }

  lemma FloatAt(s: PyStr, i: nat, x: PyStr, a: nat)
    requires Standing(s, i, x) && x != [] && a == (if x[0] == MINUS then 1 else 0) && a < |x| && IsDigit(x[a])
    requires IntegerEnd(x, a) <= |x| && ExponentEnd(x, FractionEnd(x, IntegerEnd(x, a))) == |x| > IntegerEnd(x, a)
    ensures i < |s| && s[i] == x[0] && i + a < |s| && IsDigit(s[i+a])
    ensures ScanNumber(s, i) == Done(Float(x), i + |x|)
  {
    AtFirst(s, i, x);
    FloatMoved(s, i, x, a);
    FloatJoined(s, i, i + a, i + |x|);
  }

  lemma FloatMoved(s: PyStr, i: nat, x: PyStr, a: nat)
    requires Standing(s, i, x) && a < |x| && IsDigit(x[a])
    requires IntegerEnd(x, a) <= |x| && ExponentEnd(x, FractionEnd(x, IntegerEnd(x, a))) == |x| > IntegerEnd(x, a)
    ensures i + a < |s| && s[i+a] == x[a] && IntegerEnd(s, i + a) == i + IntegerEnd(x, a)
    ensures ExponentEnd(s, FractionEnd(s, IntegerEnd(s, i + a))) == i + |x|
  {
    AtIndex(s, i, x, a);
    IntegerStanding(s, i, x, a);
    PartsStanding(s, i, x, IntegerEnd(x, a));
  }

  lemma IntegerStanding(s: PyStr, i: nat, x: PyStr, a: nat)
    requires Standing(s, i, x) && a < |x|
    ensures i + a < |s| && IntegerEnd(s, i + a) == i + IntegerEnd(x, a)
  {
    AtIndex(s, i, x, a);
    SkipDigitsStanding(s, i, x, a);
  }

  lemma PartsStanding(s: PyStr, i: nat, x: PyStr, b: nat)
    requires Standing(s, i, x) && b <= |x|
    ensures ExponentEnd(s, FractionEnd(s, i + b)) == i + ExponentEnd(x, FractionEnd(x, b))
  {
    FractionStanding(s, i, x, b);
    ExponentStanding(s, i, x, FractionEnd(x, b));
  }

  // ---------------------------------------------------------------- reading strings back

  lemma HexRead(d: int)
    requires 0 <= d < 16
    ensures HexVal(HexDigit(d)) == d
  {
  }

  lemma UnicodeRead(s: PyStr, i: nat, c: int)
    requires 0 <= c < 0x10000 && StartsAt(s, i, Unicode(c))
    ensures i + 6 <= |s| && s[i] == BACKSLASH && s[i+1] == LOWER_U && Hex4(s, i + 2) == c
  {
    var u := Unicode(c);
    AtIndex(s, i, u, 0); AtIndex(s, i, u, 1); AtIndex(s, i, u, 2);
    AtIndex(s, i, u, 3); AtIndex(s, i, u, 4); AtIndex(s, i, u, 5);
    HexRead(c / 4096); HexRead(c / 256 % 16); HexRead(c / 16 % 16); HexRead(c % 16);
    Digits4(c);
  }

  lemma Digits4(c: int)
    requires 0 <= c < 0x10000
    ensures 4096 * (c / 4096) + 256 * (c / 256 % 16) + 16 * (c / 16 % 16) + c % 16 == c
  {
    var q := c / 16;
    var p := q / 16;
    assert c / 256 == p && c / 4096 == p / 16;
  }

  /** No escape of a low surrogate starts here. */
  predicate NoLow(s: PyStr, i: nat) {
    i + 1 < |s| && s[i] == BACKSLASH && s[i+1] == LOWER_U ==> Hex4(s, i + 2) >= 0 && !IsLow(Hex4(s, i + 2))
  }

  /** What reading one character's text at i means. */
  predicate ReadsAs(s: PyStr, i: nat, c: Code, e: nat) {
    && i < |s|
    && if s[i] == BACKSLASH then ScanEscape(s, i + 1) == Escaped(c, e)
       else s[i] == c && c >= 32 && c != QUOTE && e == i + 1
  }

  lemma ShortRead(s: PyStr, i: nat, c: Code)
    requires ShortEscape(c) != 0 && StartsAt(s, i, [BACKSLASH, ShortEscape(c)])
    ensures ReadsAs(s, i, c, i + 2)
  {
    AtIndex(s, i, [BACKSLASH, ShortEscape(c)], 0);
    AtIndex(s, i, [BACKSLASH, ShortEscape(c)], 1);
  }

  lemma PairEscapeRead(s: PyStr, i: nat, c: Code)
    requires c >= 0x10000 && StartsAt(s, i, EscapeCode(c))
    ensures ReadsAs(s, i, c, i + 12)
  {
    var hi, lo := 0xD800 + (c - 0x10000) / 0x400, 0xDC00 + (c - 0x10000) % 0x400;
    AtSplit(s, i, Unicode(hi), Unicode(lo));
    UnicodeRead(s, i, hi);
    UnicodeRead(s, i + 6, lo);
  }

  lemma CodeRead(s: PyStr, i: nat, c: Code)
    requires StartsAt(s, i, EscapeCode(c)) && (IsHigh(c) ==> NoLow(s, i + |EscapeCode(c)|))
    ensures ReadsAs(s, i, c, i + |EscapeCode(c)|)
  {
    if ShortEscape(c) != 0 {
      ShortRead(s, i, c);
    } else if c < 127 && c >= 32 {
      AtFirst(s, i, [c]);
    } else if c < 0x10000 {
      UnicodeRead(s, i, c);
    } else {
      PairEscapeRead(s, i, c);
    }
  }

  lemma CodeNoLow(s: PyStr, i: nat, c: Code)
    requires StartsAt(s, i, EscapeCode(c)) && !IsLow(c)
    ensures NoLow(s, i)
  {
    var t := EscapeCode(c);
    AtFirst(s, i, t);
    if ShortEscape(c) != 0 {
      AtIndex(s, i, t, 1);
    } else if c < 127 && c >= 32 {
    } else if c < 0x10000 {
      UnicodeRead(s, i, c);
    } else {
      var hi, lo := 0xD800 + (c - 0x10000) / 0x400, 0xDC00 + (c - 0x10000) % 0x400;
      AtSplit(s, i, Unicode(hi), Unicode(lo));
      UnicodeRead(s, i, hi);
    }
  }

  lemma EscapesSplit(s: PyStr, i: nat, t: PyStr)
    requires StartsAt(s, i, Escapes(t) + [QUOTE]) && t != []
    ensures StartsAt(s, i, EscapeCode(t[0])) && StartsAt(s, i + |EscapeCode(t[0])|, Escapes(t[1..]) + [QUOTE])
    ensures |Escapes(t)| == |EscapeCode(t[0])| + |Escapes(t[1..])|
  {
    assert Escapes(t) + [QUOTE] == EscapeCode(t[0]) + (Escapes(t[1..]) + [QUOTE]);
    AtSplit(s, i, EscapeCode(t[0]), Escapes(t[1..]) + [QUOTE]);
  }

  lemma FollowedByNoLow(s: PyStr, i: nat, t: PyStr)
    requires StartsAt(s, i, Escapes(t) + [QUOTE]) && (t != [] ==> !IsLow(t[0]))
    ensures NoLow(s, i)
  {
    AtFirst(s, i, Escapes(t) + [QUOTE]);
    if t != [] {
      EscapesSplit(s, i, t);
      CodeNoLow(s, i, t[0]);
    }
  }

  lemma PairedTail(t: PyStr)
    requires Paired(t) && t != []
    ensures Paired(t[1..]) && (|t| > 1 && IsHigh(t[0]) ==> !IsLow(t[1]))
  {
    forall k | 0 < k < |t[1..]| ensures !(IsHigh(t[1..][k-1]) && IsLow(t[1..][k])) {
      assert t[1..][k-1] == t[k] && t[1..][k] == t[k+1];
    }
  }

  lemma ScanOne(s: PyStr, i: nat, c: Code, e: nat, rest: PyStr, f: nat)
    requires e <= |s| && i < |s|
    requires ReadsAs(s, i, c, e)
    requires ScanString(s, e) == Done(rest, f)
    ensures ScanString(s, i) == Done([c] + rest, f)
  {
  }

  /** One character of a printed string, and where the rest of it stands. */
  lemma HeadRead(s: PyStr, i: nat, t: PyStr)
    requires StartsAt(s, i, Escapes(t) + [QUOTE]) && Paired(t) && t != []
    ensures var e := i + |EscapeCode(t[0])|;
      && ReadsAs(s, i, t[0], e) && StartsAt(s, e, Escapes(t[1..]) + [QUOTE]) && Paired(t[1..])
      && |Escapes(t)| == |EscapeCode(t[0])| + |Escapes(t[1..])|
  {
    EscapesSplit(s, i, t);
    PairedTail(t);
    if IsHigh(t[0]) { FollowedByNoLow(s, i + |EscapeCode(t[0])|, t[1..]); }
    CodeRead(s, i, t[0]);
  }

  lemma {:induction false} StringRead(s: PyStr, i: nat, t: PyStr)
    requires StartsAt(s, i, Escapes(t) + [QUOTE]) && Paired(t)
    ensures ScanString(s, i) == Done(t, i + |Escapes(t)| + 1)
    decreases |t|
  {
    if t == [] {
      AtFirst(s, i, Escapes(t) + [QUOTE]);
    } else {
      HeadRead(s, i, t);
      var e := i + |EscapeCode(t[0])|;
      StringRead(s, e, t[1..]);
      ScanOne(s, i, t[0], e, t[1..], i + |Escapes(t)| + 1);
      assert t == [t[0]] + t[1..];
    }
  }

  // ---------------------------------------------------------------- reading values back

  lemma PrintFirst(v: Json)
    requires Printable(v)
    ensures Print(v) != [] && !IsWs(Print(v)[0]) && Print(v)[0] != CLOSE_BRACE && Print(v)[0] != CLOSE_BRACKET
  {
    if v.Int? && v.n >= 0 { assert IsDigit(Decimal(v.n)[0]); }
    if v.Float? { FloatParts(v.lexeme); }
  }

  /** A document that is a word of the grammar. */
  lemma WordRead(s: PyStr, i: nat, v: Json)
    requires v.Null? || v.Bool? || v.Constant?
    requires Printable(v) && StartsAt(s, i, Print(v))
    ensures ParseValue(s, i) == Done(v, i + |Print(v)|)
  {
    var t := Print(v);
    AtFirst(s, i, t);
    AtIndex(s, i, t, 1);
    WordAt(s, i, NULL_WORD, 0);
    WordAt(s, i, TRUE_WORD, 0);
    WordAt(s, i, FALSE_WORD, 0);
    WordAt(s, i, NAN_WORD, 0);
    WordAt(s, i, INF_WORD, 0);
    WordAt(s, i, NEG_INF_WORD, 0);
    WordValue(s, i, v);
  }

  lemma WordValue(s: PyStr, i: nat, v: Json)
    requires i < |s| && (v.Null? || v.Bool? || v.Constant?) && Printable(v)
    requires StartsAt(s, i, Print(v)) && s[i] == Print(v)[0]
    requires StartsAt(s, i, NULL_WORD) ==> s[i] == 110
    requires StartsAt(s, i, TRUE_WORD) ==> s[i] == 116
    requires StartsAt(s, i, FALSE_WORD) ==> s[i] == 102
    requires StartsAt(s, i, NAN_WORD) ==> s[i] == 78
    requires StartsAt(s, i, INF_WORD) ==> s[i] == 73
    requires StartsAt(s, i, NEG_INF_WORD) ==> s[i] == 45
    ensures ParseValue(s, i) == Done(v, i + |Print(v)|)
  {
  }

  lemma NumberValueRead(s: PyStr, i: nat, n: int)
    requires StartsAt(s, i, Integer(n)) && Stops(s, i + |Integer(n)|) && Printable(Int(n))
    ensures ParseValue(s, i) == Done(Int(n), i + |Integer(n)|)
  {
    IntegerRead(s, i, n);
    NumberStarts(s, i);
  }

  lemma FloatValueRead(s: PyStr, i: nat, x: PyStr)
    requires IsFloat(x) && Standing(s, i, x)
    ensures ParseValue(s, i) == Done(Float(x), i + |x|)
  {
    FloatRead(s, i, x);
    NumberStarts(s, i);
  }

  lemma StringValueRead(s: PyStr, i: nat, t: PyStr)
    requires StartsAt(s, i, [QUOTE] + Escapes(t) + [QUOTE]) && Paired(t)
    ensures i < |s| && s[i] == QUOTE
    ensures ScanString(s, i + 1) == Done(t, i + |Escapes(t)| + 2)
  {
    assert [QUOTE] + Escapes(t) + [QUOTE] == [QUOTE] + (Escapes(t) + [QUOTE]);
    AtSplit(s, i, [QUOTE], Escapes(t) + [QUOTE]);
    AtFirst(s, i, [QUOTE]);
    StringRead(s, i + 1, t);
  }

  /** The decoder reads a printed value back, whatever surrounds it. */
  lemma {:induction false} ValueRead(s: PyStr, i: nat, v: Json)
    requires Printable(v) && StartsAt(s, i, Print(v)) && Stops(s, i + |Print(v)|)
    ensures ParseValue(s, i) == Done(v, i + |Print(v)|)
    decreases v, 0
  {
    match v
    case Int(n) => NumberValueRead(s, i, n);
    case Float(lexeme) => FloatValueRead(s, i, lexeme);
    case Str(t) => StringValueRead(s, i, t);
    case Arr(items) =>
      AtSplit(s, i, [OPEN_BRACKET], PrintItems(items));
      AtFirst(s, i, [OPEN_BRACKET]);
      ItemsRead(s, i + 1, items);
    case Obj(ms) =>
      AtSplit(s, i, [OPEN_BRACE], PrintMembers(ms));
      AtFirst(s, i, [OPEN_BRACE]);
      MembersRead(s, i + 1, ms);
    case _ => WordRead(s, i, v);
  }

  lemma {:induction false} ItemsRead(s: PyStr, i: nat, items: seq<Json>)
    requires PrintableItems(items) && StartsAt(s, i, PrintItems(items))
    ensures ParseArray(s, i) == Done(items, i + |PrintItems(items)|)
    decreases items, 1
  {
    AtFirst(s, i, PrintItems(items));
    if items != [] {
      PrintFirst(items[0]);
      ElementsRead(s, i, items);
    }
  }

  lemma {:induction false} ElementsRead(s: PyStr, i: nat, items: seq<Json>)
    requires items != [] && PrintableItems(items) && StartsAt(s, i, Print(items[0]) + MoreItems(items[1..]))
    ensures ParseElements(s, i) == Done(items, i + |Print(items[0])| + |MoreItems(items[1..])|)
    decreases items, 0
  {
    var v, rest := items[0], items[1..];
    var j := i + |Print(v)|;
    AtSplit(s, i, Print(v), MoreItems(rest));
    AtFirst(s, j, MoreItems(rest));
    ValueRead(s, i, v);
    MoreItemsRead(s, j, rest);
    ElementsJoined(s, i, items, j, j + |MoreItems(rest)|);
  }

  lemma ElementsJoined(s: PyStr, i: nat, items: seq<Json>, j: nat, e: nat)
    requires items != [] && i <= |s|
    requires ParseValue(s, i) == Done(items[0], j) && MoreElements(s, j) == Done(items[1..], e)
    ensures ParseElements(s, i) == Done(items, e)
  {
    assert items == [items[0]] + items[1..];
  }

  lemma {:induction false} MoreItemsRead(s: PyStr, j: nat, items: seq<Json>)
    requires PrintableItems(items) && StartsAt(s, j, MoreItems(items))
    ensures MoreElements(s, j) == Done(items, j + |MoreItems(items)|)
    decreases items, 1
  {
    AtFirst(s, j, MoreItems(items));
    if items != [] {
      var text := Print(items[0]) + MoreItems(items[1..]);
      AtSplit(s, j, [COMMA], text);
      PrintFirst(items[0]);
      AtFirst(s, j + 1, text);
      ElementsRead(s, j + 1, items);
    }
  }

  lemma {:induction false} MembersRead(s: PyStr, i: nat, ms: seq<Member>)
    requires PrintableMembers(ms) && StartsAt(s, i, PrintMembers(ms))
    ensures ParseObject(s, i) == Done(ms, i + |PrintMembers(ms)|)
    decreases ms, 1
  {
    AtFirst(s, i, PrintMembers(ms));
    if ms != [] {
      PairsRead(s, i, ms);
    }
  }

  /** Where the parts of a printed member stand, ending at j. */
  predicate PairAt(s: PyStr, i: nat, key: PyStr, value: PyStr, j: nat) {
    var k := i + |Escapes(key)| + 2;
    && i < |s| && s[i] == QUOTE && ScanString(s, i + 1) == Done(key, k)
    && k < |s| && s[k] == COLON && StartsAt(s, k + 1, value) && j == k + 1 + |value|
  }

  lemma PairRead(s: PyStr, i: nat, key: PyStr, value: PyStr)
    requires Paired(key) && StartsAt(s, i, PairText(key, value))
    ensures PairAt(s, i, key, value, i + |PairText(key, value)|)
  {
    var head := [QUOTE] + Escapes(key) + [QUOTE];
    AtSplit(s, i, head, [COLON] + value);
    AtSplit(s, i + |head|, [COLON], value);
    AtFirst(s, i + |head|, [COLON]);
    StringValueRead(s, i, key);
  }

  lemma NoWs(s: PyStr, i: nat, v: Json)
    requires Printable(v) && StartsAt(s, i, Print(v))
    ensures SkipWs(s, i) == i
  {
    PrintFirst(v);
    AtFirst(s, i, Print(v));
  }

  lemma PairParsed(s: PyStr, i: nat, key: PyStr, k: nat, v: Json, j: nat)
    requires i < |s| && s[i] == QUOTE && ScanString(s, i + 1) == Done(key, k)
    requires k < |s| && s[k] == COLON && SkipWs(s, k + 1) == k + 1 && ParseValue(s, k + 1) == Done(v, j)
    ensures ParsePair(s, i) == Done(Member(key, v), j)
  {
    var c := SkipWs(s, k);
    assert c == k;
    var w := SkipWs(s, c + 1);
    assert w == k + 1;
    var r := ParseValue(s, w);
    assert r.Done? && r.value == v && r.end == j;
  }

  /** The text of the member m stands at i and ends at j. */
  predicate MemberAt(s: PyStr, i: nat, m: Member, j: nat) {
    var v := m.value;
    StartsAt(s, i, PairText(m.key, Print(v))) && Stops(s, j) && j == i + |PairText(m.key, Print(v))|
  }

  lemma MembersSplit(s: PyStr, i: nat, ms: seq<Member>) returns (j: nat)
    requires ms != [] && StartsAt(s, i, PrintMembers(ms))
    ensures MemberAt(s, i, ms[0], j) && StartsAt(s, j, MoreMembersText(ms[1..]))
    ensures j + |MoreMembersText(ms[1..])| == i + |PrintMembers(ms)|
  {
    var text := PairText(ms[0].key, Print(ms[0].value));
    AtSplit(s, i, text, MoreMembersText(ms[1..]));
    j := i + |text|;
    AtFirst(s, j, MoreMembersText(ms[1..]));
  }

  lemma MembersJoin(s: PyStr, i: nat, m: Member, j: nat, rest: seq<Member>, e: nat)
    requires i <= |s| && ParsePair(s, i) == Done(m, j) && MoreMembers(s, j) == Done(rest, e)
    ensures ParseMembers(s, i) == Done([m] + rest, e)
  {
  }

  predicate ReadAt(s: PyStr, i: nat, v: Json, j: nat) {
    i <= |s| && SkipWs(s, i) == i && ParseValue(s, i) == Done(v, j)
  }

  lemma PairJoined(s: PyStr, i: nat, key: PyStr, text: PyStr, v: Json, j: nat)
    requires PairAt(s, i, key, text, j) && ReadAt(s, i + |Escapes(key)| + 3, v, j)
    ensures ParsePair(s, i) == Done(Member(key, v), j)
  {
    PairParsed(s, i, key, i + |Escapes(key)| + 2, v, j);
  }

  lemma {:induction false} PairValueRead(s: PyStr, i: nat, v: Json, j: nat)
    requires Printable(v) && StartsAt(s, i, Print(v)) && Stops(s, j) && j == i + |Print(v)|
    ensures ReadAt(s, i, v, j)
    decreases v, 1
  {
    NoWs(s, i, v);
    ValueRead(s, i, v);
  }

  lemma {:induction false} OnePairRead(s: PyStr, i: nat, key: PyStr, v: Json, text: PyStr)
    requires Paired(key) && Printable(v) && text == Print(v) && StartsAt(s, i, PairText(key, text))
    requires Stops(s, i + |PairText(key, text)|)
    ensures ParsePair(s, i) == Done(Member(key, v), i + |PairText(key, text)|)
    decreases v, 2
  {
    var j := i + |PairText(key, text)|;
    PairRead(s, i, key, text);
    PairValueRead(s, i + |Escapes(key)| + 3, v, j);
    PairJoined(s, i, key, text, v, j);
  }

  lemma {:induction false} MemberRead(s: PyStr, i: nat, m: Member, v: Json, j: nat)
    requires v == m.value && Paired(m.key) && Printable(v) && MemberAt(s, i, m, j)
    ensures ParsePair(s, i) == Done(m, j)
    decreases v, 3
  {
    OnePairRead(s, i, m.key, v, Print(v));
  }

  /** One member and what is printed after it. */
  lemma {:induction false} PairsRead(s: PyStr, i: nat, ms: seq<Member>)
    requires ms != [] && PrintableMembers(ms) && StartsAt(s, i, PrintMembers(ms))
    ensures ParseMembers(s, i) == Done(ms, i + |PrintMembers(ms)|)
    decreases ms, 0
  {
    var j := MembersSplit(s, i, ms);
    var v := ms[0].value;
    MemberRead(s, i, ms[0], v, j);
    MoreMembersRead(s, j, ms[1..]);
    MembersJoined(s, i, ms, j, i + |PrintMembers(ms)|);
  }

  lemma MembersJoined(s: PyStr, i: nat, ms: seq<Member>, j: nat, e: nat)
    requires ms != [] && i <= |s| && ParsePair(s, i) == Done(ms[0], j) && MoreMembers(s, j) == Done(ms[1..], e)
    ensures ParseMembers(s, i) == Done(ms, e)
  {
    MembersJoin(s, i, ms[0], j, ms[1..], e);
    assert ms == [ms[0]] + ms[1..];
  }

  lemma {:induction false} MoreMembersRead(s: PyStr, j: nat, ms: seq<Member>)
    requires PrintableMembers(ms) && StartsAt(s, j, MoreMembersText(ms))
    ensures MoreMembers(s, j) == Done(ms, j + |MoreMembersText(ms)|)
    decreases ms, 1
  {
    AtFirst(s, j, MoreMembersText(ms));
    if ms != [] {
      AtSplit(s, j, [COMMA], PrintMembers(ms));
      AtFirst(s, j + 1, PrintMembers(ms));
      PairsRead(s, j + 1, ms);
    }
  }

  // ---------------------------------------------------------------- whole documents

  /** json.loads: a value with nothing but JSON white space around it. */
  function Loads(s: PyStr): Parsed<Json> {
    match ParseValue(s, SkipWs(s, 0))
    case Done(v, end) => if SkipWs(s, end) == |s| then Done(v, |s|) else Bad
    case r => r
  }

  /** Printing and parsing undo each other. */
  lemma RoundTrip(v: Json)
    requires Printable(v)
    ensures Loads(Print(v)) == Done(v, |Print(v)|)
  {
    PrintFirst(v);
    assert Print(v)[0..|Print(v)|] == Print(v);
    ValueRead(Print(v), 0, v);
  }

  // ---------------------------------------------------------------- what the decoder can give

  predicate NoSurrogates(s: PyStr) { forall i :: 0 <= i < |s| ==> !IsHigh(s[i]) && !IsLow(s[i]) }

  lemma PairedCons(c: Code, t: PyStr)
    requires Paired(t) && !(IsHigh(c) && t != [] && IsLow(t[0]))
    ensures Paired([c] + t)
  {
    forall k | 0 < k < |[c] + t| ensures !(IsHigh(([c] + t)[k-1]) && IsLow(([c] + t)[k])) {
      if k > 1 { assert ([c] + t)[k-1] == t[k-2] && ([c] + t)[k] == t[k-1]; }
    }
  }

  predicate LowEscape(s: PyStr, i: nat) {
    i + 1 < |s| && s[i] == BACKSLASH && s[i+1] == LOWER_U && Hex4(s, i + 2) >= 0 && IsLow(Hex4(s, i + 2))
  }

  /** From text without surrogates the decoder never builds a high one directly before a low one. */
  lemma {:induction false} ScanPaired(s: PyStr, i: nat)
    requires i <= |s| && NoSurrogates(s) && ScanString(s, i).Done?
    ensures var t := ScanString(s, i).value; Paired(t) && (t != [] && IsLow(t[0]) ==> LowEscape(s, i))
    decreases |s| - i
  {
    if s[i] == BACKSLASH {
      var e := ScanEscape(s, i + 1);
      ScanPaired(s, e.end);
      EscapePaired(s, i);
      PairedCons(e.code, ScanString(s, e.end).value);
    } else if s[i] != QUOTE {
      ScanPaired(s, i + 1);
      PairedCons(s[i], ScanString(s, i + 1).value);
    }
  }

  lemma EscapePaired(s: PyStr, i: nat)
    requires i < |s| && s[i] == BACKSLASH && ScanEscape(s, i + 1).Escaped?
    ensures var e := ScanEscape(s, i + 1);
      && (IsHigh(e.code) ==> !LowEscape(s, e.end))
      && (IsLow(e.code) ==> LowEscape(s, i))
  {
  }

  /** Keys and string values of an object. */
  predicate TextsPaired(ms: seq<Member>) {
    forall i :: 0 <= i < |ms| ==> Paired(ms[i].key) && (ms[i].value.Str? ==> Paired(ms[i].value.text))
  }

  lemma PairPaired(s: PyStr, i: nat)
    requires i <= |s| && NoSurrogates(s) && ParsePair(s, i).Done?
    ensures TextsPaired([ParsePair(s, i).value])
  {
    ScanPaired(s, i + 1);
    var v := SkipWs(s, SkipWs(s, ScanString(s, i + 1).end) + 1);
    if ParseValue(s, v).value.Str? { StringPaired(s, v); }
  }

  lemma {:induction false} MembersPaired(s: PyStr, i: nat)
    requires i <= |s| && NoSurrogates(s) && ParseMembers(s, i).Done?
    ensures TextsPaired(ParseMembers(s, i).value)
    decreases |s| - i
  {
    var pair := ParsePair(s, i);
    PairPaired(s, i);
    MembersParts(s, i);
    var n := SkipWs(s, pair.end);
    if s[n] == COMMA { MembersPaired(s, SkipWs(s, n + 1)); }
    TextsPairedCons(pair.value, MoreMembers(s, pair.end).value);
  }

  lemma MembersParts(s: PyStr, i: nat)
    requires i <= |s| && ParseMembers(s, i).Done?
    ensures ParsePair(s, i).Done? && MoreMembers(s, ParsePair(s, i).end).Done?
    ensures ParseMembers(s, i).value == [ParsePair(s, i).value] + MoreMembers(s, ParsePair(s, i).end).value
  {
  }

  lemma TextsPairedCons(m: Member, ms: seq<Member>)
    requires TextsPaired([m]) && TextsPaired(ms)
    ensures TextsPaired([m] + ms)
  {
    assert ([m] + ms)[0] == [m][0];
    assert forall i :: 0 < i < |[m] + ms| ==> ([m] + ms)[i] == ms[i-1];
  }

  lemma StringPaired(s: PyStr, i: nat)
    requires i <= |s| && NoSurrogates(s) && ParseValue(s, i).Done? && ParseValue(s, i).value.Str?
    ensures Paired(ParseValue(s, i).value.text)
  {
    ScanPaired(s, i + 1);
  }

  lemma ObjectInside(s: PyStr, i: nat)
    requires i <= |s| && ParseValue(s, i).Done? && ParseValue(s, i).value.Obj?
    ensures i < |s| && s[i] == OPEN_BRACE && ParseObject(s, i + 1).Done?
    ensures ParseObject(s, i + 1).value == ParseValue(s, i).value.members
  {
  }

  lemma LoadsPaired(s: PyStr)
    requires NoSurrogates(s) && Loads(s).Done? && Loads(s).value.Obj?
    ensures TextsPaired(Loads(s).value.members)
  {
    var i := SkipWs(s, 0);
    ObjectInside(s, i);
    var j := SkipWs(s, i + 1);
    if j == |s| || s[j] != CLOSE_BRACE { MembersPaired(s, j); }
  }

  // ---------------------------------------------------------------- the text is ASCII

  predicate Ascii(s: PyStr) { forall i :: 0 <= i < |s| ==> s[i] < 128 }

  predicate AsciiFloats(v: Json) {
    match v
    case Float(lexeme) => Ascii(lexeme)
    case Arr(items) => AsciiFloatItems(items)
    case Obj(ms) => AsciiFloatMembers(ms)
    case _ => true
  }

  predicate AsciiFloatItems(items: seq<Json>) { items == [] || (AsciiFloats(items[0]) && AsciiFloatItems(items[1..])) }

  predicate AsciiFloatMembers(ms: seq<Member>) {
    ms == [] || (var v := ms[0].value; AsciiFloats(v) && AsciiFloatMembers(ms[1..]))
  }

  lemma {:induction false} EscapesAscii(t: PyStr)
    ensures Ascii(Escapes(t))
    decreases |t|
  {
    if t != [] { EscapesAscii(t[1..]); }
  }

  lemma {:induction false} PrintAscii(v: Json)
    requires AsciiFloats(v)
    ensures Ascii(Print(v))
    decreases v, 0
  {
    match v
    case Str(t) => EscapesAscii(t);
    case Arr(items) => ItemsAscii(items);
    case Obj(ms) => MoreMembersAscii(ms);
    case Int(n) => IntegerAscii(n);
    case _ =>
  }

  lemma IntegerAscii(n: int)
    ensures Ascii(Integer(n))
  {
    forall i | 0 <= i < |Integer(n)| ensures Integer(n)[i] < 128 {
      if n < 0 && i > 0 { assert Integer(n)[i] == Decimal(-n)[i-1]; assert IsDigit(Decimal(-n)[i-1]); }
      if n >= 0 { assert IsDigit(Decimal(n)[i]); }
    }
  }

  lemma {:induction false} ItemsAscii(items: seq<Json>)
    requires AsciiFloatItems(items)
    ensures Ascii(PrintItems(items))
    decreases items, 1
  {
    if items != [] { PrintAscii(items[0]); MoreItemsAscii(items[1..]); }
  }

  lemma {:induction false} MoreItemsAscii(items: seq<Json>)
    requires AsciiFloatItems(items)
    ensures Ascii(MoreItems(items))
    decreases items
  {
    if items != [] { PrintAscii(items[0]); MoreItemsAscii(items[1..]); }
  }

  lemma AsciiConcat(a: PyStr, b: PyStr)
    requires Ascii(a) && Ascii(b)
    ensures Ascii(a + b)
  {
  }

  lemma PairAscii(key: PyStr, value: PyStr)
    requires Ascii(value)
    ensures Ascii(PairText(key, value))
  {
    EscapesAscii(key);
    AsciiConcat([COLON], value);
    AsciiConcat([QUOTE] + Escapes(key) + [QUOTE], [COLON] + value);
  }

  lemma {:induction false} MoreMembersAscii(ms: seq<Member>)
    requires AsciiFloatMembers(ms)
    ensures Ascii(MoreMembersText(ms)) && Ascii(PrintMembers(ms))
    decreases ms
  {
    if ms != [] {
      var v := ms[0].value;
      PrintAscii(v);
      PairAscii(ms[0].key, Print(v));
      MoreMembersAscii(ms[1..]);
      AsciiConcat(PairText(ms[0].key, Print(v)), MoreMembersText(ms[1..]));
      AsciiConcat([COMMA], PairText(ms[0].key, Print(v)) + MoreMembersText(ms[1..]));
    }
  }

  lemma AsciiPaired(s: PyStr)
    requires Ascii(s)
    ensures Paired(s) && NoSurrogates(s)
  {
  }

  /** A string survives printing and parsing iff it has no high surrogate directly before a low one. */
  lemma StringRoundTrip(t: PyStr)
    ensures (Loads(Print(Str(t))).Done? && Loads(Print(Str(t))).value == Str(t)) <==> Paired(t)
  {
    var s := Print(Str(t));
    if Paired(t) { RoundTrip(Str(t)); }
    PrintAscii(Str(t));
    AsciiPaired(s);
    if Loads(s).Done? && Loads(s).value.Str? { StringPaired(s, SkipWs(s, 0)); }
  }
}
