// The decoder of Python's json module, as json.JSONDecoder().raw_decode runs it.
module Json {
  import opened PyText

  /** A decoded document. Members keep their source order and their duplicates; the two
      dictionary hooks the runner uses are applied afterwards (LastWins here, Unique in Canonical). */
  datatype Json =
    | Null
    | Bool(b: bool)
    | Int(n: int)
    | Float(lexeme: PyStr)
    | Constant(name: PyStr)
    | Str(text: PyStr)
    | Arr(items: seq<Json>)
    | Obj(members: seq<Member>)

  datatype Member = Member(key: PyStr, value: Json)

  /** Bad is JSONDecodeError. Limit is the plain ValueError int() raises above 4300 digits,
      which is not a JSONDecodeError. */
  datatype Parsed<+T> = Done(value: T, end: nat) | Bad | Limit

  const MAX_INT_DIGITS := 4300

  function Prepend<T>(x: T, r: Parsed<seq<T>>): Parsed<seq<T>> {
    if r.Done? then Done([x] + r.value, r.end) else r
  }

  predicate IsWs(c: Code) { c == SPACE || c == TAB || c == NL || c == CR }

  function SkipWs(s: PyStr, i: nat): (j: nat)
    requires i <= |s|
    ensures i <= j <= |s|
    decreases |s| - i
  {
    if i < |s| && IsWs(s[i]) then SkipWs(s, i + 1) else i
  }

  // ---------------------------------------------------------------- strings

  function HexVal(c: Code): (r: int)
    ensures -1 <= r < 16
  {
    if ZERO <= c <= NINE then c - ZERO
    else if 97 <= c <= 102 then c - 87
    else if 65 <= c <= 70 then c - 55
    else -1
  }

  /** Four hexadecimal digits at i, or -1. */
  function Hex4(s: PyStr, i: nat): (r: int)
    ensures -1 <= r < 0x10000
    ensures r >= 0 ==> i + 4 <= |s| && forall k :: i <= k < i + 4 ==> HexVal(s[k]) >= 0
  {
    if i + 4 <= |s| && HexVal(s[i]) >= 0 && HexVal(s[i+1]) >= 0 && HexVal(s[i+2]) >= 0 && HexVal(s[i+3]) >= 0
    then 4096 * HexVal(s[i]) + 256 * HexVal(s[i+1]) + 16 * HexVal(s[i+2]) + HexVal(s[i+3])
    else -1
  }

  predicate IsHigh(c: int) { 0xD800 <= c <= 0xDBFF }
  predicate IsLow(c: int) { 0xDC00 <= c <= 0xDFFF }

  /** One-letter escapes; -1 for a letter that is not one. */
  function EscapeOf(c: Code): (r: int)
    ensures -1 <= r < 128
    ensures r >= 0 ==> c != OPEN_BRACE
  {
    if c == QUOTE || c == BACKSLASH || c == SLASH then c
    else if c == 98 then 8
    else if c == 102 then 12
    else if c == 110 then 10
    else if c == 114 then 13
    else if c == 116 then 9
    else -1
  }

  datatype Escaped = Escaped(code: Code, end: nat) | BadEscape

  /** The escape whose backslash is at i - 1. */
  function ScanEscape(s: PyStr, i: nat): (r: Escaped)
    ensures r.Escaped? ==> i < r.end <= |s|
  {
    if i >= |s| then BadEscape
    else if s[i] == LOWER_U then
      var hi := Hex4(s, i + 1);
      if hi < 0 then BadEscape
      else if IsHigh(hi) && i + 6 < |s| && s[i+5] == BACKSLASH && s[i+6] == LOWER_U then
        var lo := Hex4(s, i + 7);
        if lo < 0 then BadEscape
        else if IsLow(lo) then Escaped(0x10000 + (hi - 0xD800) * 0x400 + (lo - 0xDC00), i + 11)
        else Escaped(hi, i + 5)
      else Escaped(hi, i + 5)
    else if EscapeOf(s[i]) >= 0 then Escaped(EscapeOf(s[i]), i + 1)
    else BadEscape
  }

  /** scanstring with strict=True; i is the position after the opening quote. */
  function ScanString(s: PyStr, i: nat): (r: Parsed<PyStr>)
    requires i <= |s|
    ensures r.Done? ==> i < r.end <= |s|
    ensures !r.Limit?
    decreases |s| - i
  {
    if i == |s| then Bad
    else if s[i] == QUOTE then Done([], i + 1)
    else if s[i] == BACKSLASH then
      match ScanEscape(s, i + 1)
      case BadEscape => Bad
      case Escaped(code, end) =>
        (match ScanString(s, end)
         case Done(rest, e) => Done([code] + rest, e)
         case _ => Bad)
    else if s[i] < 32 then Bad
    else
      match ScanString(s, i + 1)
      case Done(rest, e) => Done([s[i]] + rest, e)
      case _ => Bad
  }

  // ---------------------------------------------------------------- numbers

  function SkipDigits(s: PyStr, i: nat): (j: nat)
    requires i <= |s|
    ensures i <= j <= |s|
    ensures forall k :: i <= k < j ==> IsDigit(s[k])
    ensures j < |s| ==> !IsDigit(s[j])
    decreases |s| - i
  {
    if i < |s| && IsDigit(s[i]) then SkipDigits(s, i + 1) else i
  }

  function DigitsVal(s: PyStr, i: nat, j: nat): nat
    requires i <= j <= |s|
    requires forall k :: i <= k < j ==> IsDigit(s[k])
    decreases j
  {
    if i == j then 0 else assert IsDigit(s[j-1]); 10 * DigitsVal(s, i, j - 1) + (s[j-1] - ZERO)
  }

  function FractionEnd(s: PyStr, i: nat): (j: nat)
    requires i <= |s|
    ensures i <= j <= |s|
  {
    if i + 1 < |s| && s[i] == DOT && IsDigit(s[i+1]) then SkipDigits(s, i + 1) else i
  }

  function ExponentEnd(s: PyStr, i: nat): (j: nat)
    requires i <= |s|
    ensures i <= j <= |s|
  {
    if i < |s| && (s[i] == 101 || s[i] == 69) then
      var k := if i + 1 < |s| && (s[i+1] == PLUS || s[i+1] == MINUS) then i + 2 else i + 1;
      if k < |s| && IsDigit(s[k]) then SkipDigits(s, k) else i
    else i
  }

  function ScanNumber(s: PyStr, i: nat): (r: Parsed<Json>)
    requires i <= |s|
    ensures r.Done? ==> i < r.end <= |s|
  {
    var neg := i < |s| && s[i] == MINUS;
    var a := if neg then i + 1 else i;
    if a >= |s| || !IsDigit(s[a]) then Bad
    else
      var b := if s[a] == ZERO then a + 1 else SkipDigits(s, a);
      var e := ExponentEnd(s, FractionEnd(s, b));
      if e > b then Done(Float(s[i..e]), e)
      else if b - a > MAX_INT_DIGITS then Limit
      else
        var v: int := DigitsVal(s, a, b);
        Done(Int(if neg then -v else v), b)
  }

  // ---------------------------------------------------------------- values

  predicate StartsAt(s: PyStr, i: nat, word: PyStr) {
    i + |word| <= |s| && s[i..i+|word|] == word
  }

  const NULL_WORD: PyStr := [110, 117, 108, 108]
  const TRUE_WORD: PyStr := [116, 114, 117, 101]
  const FALSE_WORD: PyStr := [102, 97, 108, 115, 101]
  const NAN_WORD: PyStr := [78, 97, 78]
  const INF_WORD: PyStr := [73, 110, 102, 105, 110, 105, 116, 121]
  const NEG_INF_WORD: PyStr := [45] + INF_WORD

  /** scan_once. */
  function ParseValue(s: PyStr, i: nat): (r: Parsed<Json>)
    requires i <= |s|
    ensures r.Done? ==> i < r.end <= |s|
    decreases |s| - i, 0
  {
    if i == |s| then Bad
    else if s[i] == QUOTE then
      (match ScanString(s, i + 1)
       case Done(t, e) => Done(Str(t), e)
       case _ => Bad)
    else if s[i] == OPEN_BRACE then
      (match ParseObject(s, i + 1)
       case Done(ms, e) => Done(Obj(ms), e)
       case Bad => Bad
       case Limit => Limit)
    else if s[i] == OPEN_BRACKET then
      (match ParseArray(s, i + 1)
       case Done(vs, e) => Done(Arr(vs), e)
       case Bad => Bad
       case Limit => Limit)
    else if StartsAt(s, i, NULL_WORD) then Done(Null, i + 4)
    else if StartsAt(s, i, TRUE_WORD) then Done(Bool(true), i + 4)
    else if StartsAt(s, i, FALSE_WORD) then Done(Bool(false), i + 5)
    else if StartsAt(s, i, NAN_WORD) then Done(Constant(NAN_WORD), i + 3)
    else if StartsAt(s, i, INF_WORD) then Done(Constant(INF_WORD), i + 8)
    else if StartsAt(s, i, NEG_INF_WORD) then Done(Constant(NEG_INF_WORD), i + 9)
    else ScanNumber(s, i)
  }

  lemma WordAt(s: PyStr, i: nat, word: PyStr, k: nat)
    requires k < |word| && i + k < |s|
    ensures StartsAt(s, i, word) ==> s[i+k] == word[k]
  {
    if StartsAt(s, i, word) { assert s[i..i+|word|][k] == s[i+k]; }
  }

  /** A digit, or a minus sign before one, starts a number and no word. */
  lemma NumberStarts(s: PyStr, i: nat)
    requires i < |s| && (IsDigit(s[i]) || (s[i] == MINUS && i + 1 < |s| && IsDigit(s[i+1])))
    ensures ParseValue(s, i) == ScanNumber(s, i)
  {
    WordAt(s, i, NULL_WORD, 0);
    WordAt(s, i, TRUE_WORD, 0);
    WordAt(s, i, FALSE_WORD, 0);
    WordAt(s, i, NAN_WORD, 0);
    WordAt(s, i, INF_WORD, 0);
    WordAt(s, i, NEG_INF_WORD, if s[i] == MINUS then 1 else 0);
  }

  /** The object whose opening brace is at i - 1. */
  function ParseObject(s: PyStr, i: nat): (r: Parsed<seq<Member>>)
    requires i <= |s|
    ensures r.Done? ==> i < r.end <= |s| && s[r.end-1] == CLOSE_BRACE
    decreases |s| - i, 3
  {
    var j := SkipWs(s, i);
    if j < |s| && s[j] == CLOSE_BRACE then Done([], j + 1)
    else ParseMembers(s, j)
  }

  /** One member, its key starting at i. */
  function ParsePair(s: PyStr, i: nat): (r: Parsed<Member>)
    requires i <= |s|
    ensures r.Done? ==> i < r.end <= |s|
    decreases |s| - i, 1
  {
    if i == |s| || s[i] != QUOTE then Bad
    else
      match ScanString(s, i + 1)
      case Bad => Bad
      case Limit => Bad
      case Done(key, k) =>
        var c := SkipWs(s, k);
        if c == |s| || s[c] != COLON then Bad
        else
          match ParseValue(s, SkipWs(s, c + 1))
          case Bad => Bad
          case Limit => Limit
          case Done(v, e) => Done(Member(key, v), e)
  }

  /** One or more members, the first one's key starting at i. */
  function ParseMembers(s: PyStr, i: nat): (r: Parsed<seq<Member>>)
    requires i <= |s|
    ensures r.Done? ==> i < r.end <= |s| && s[r.end-1] == CLOSE_BRACE
    decreases |s| - i, 2
  {
    match ParsePair(s, i)
    case Bad => Bad
    case Limit => Limit
    case Done(m, e) =>
      Prepend(m, MoreMembers(s, e))
  }

  /** What follows a member that ends at i: the closing brace, or a comma and more members. */
  function MoreMembers(s: PyStr, i: nat): (r: Parsed<seq<Member>>)
    requires i <= |s|
    ensures r.Done? ==> i < r.end <= |s| && s[r.end-1] == CLOSE_BRACE
    decreases |s| - i, 3
  {
    var n := SkipWs(s, i);
    if n == |s| then Bad
    else if s[n] == CLOSE_BRACE then Done([], n + 1)
    else if s[n] == COMMA then ParseMembers(s, SkipWs(s, n + 1))
    else Bad
  }

  /** The array whose opening bracket is at i - 1. */
  function ParseArray(s: PyStr, i: nat): (r: Parsed<seq<Json>>)
    requires i <= |s|
    ensures r.Done? ==> i < r.end <= |s|
    decreases |s| - i, 2
  {
    var j := SkipWs(s, i);
    if j < |s| && s[j] == CLOSE_BRACKET then Done([], j + 1)
    else ParseElements(s, j)
  }

  function ParseElements(s: PyStr, i: nat): (r: Parsed<seq<Json>>)
    requires i <= |s|
    ensures r.Done? ==> i < r.end <= |s|
    decreases |s| - i, 1
  {
    match ParseValue(s, i)
    case Bad => Bad
    case Limit => Limit
    case Done(v, e) =>
      Prepend(v, MoreElements(s, e))
  }

  function MoreElements(s: PyStr, i: nat): (r: Parsed<seq<Json>>)
    requires i <= |s|
    ensures r.Done? ==> i < r.end <= |s|
    decreases |s| - i, 2
  {
    var n := SkipWs(s, i);
    if n == |s| then Bad
    else if s[n] == CLOSE_BRACKET then Done([], n + 1)
    else if s[n] == COMMA then ParseElements(s, SkipWs(s, n + 1))
    else Bad
  }

  // ---------------------------------------------------------------- dictionaries

  /** The default dict(pairs): a repeated key keeps its first place and takes the last value. */
  function LastWins(ms: seq<Member>): map<PyStr, Json>
    decreases |ms|
  {
    if ms == [] then map[]
    else LastWins(ms[..|ms|-1])[ms[|ms|-1].key := ms[|ms|-1].value]
  }
}
