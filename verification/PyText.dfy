// Python text: a str is a sequence of code points, lone surrogates included, so it is
// modelled on integers and not on Dafny's char.
module PyText {

  type Code = c: int | 0 <= c < 0x110000
  type PyStr = seq<Code>

  const TAB: Code := 9
  const NL: Code := 10
  const CR: Code := 13
  const SPACE: Code := 32
  const QUOTE: Code := 34
  const PLUS: Code := 43
  const COMMA: Code := 44
  const MINUS: Code := 45
  const DOT: Code := 46
  const SLASH: Code := 47
  const ZERO: Code := 48
  const NINE: Code := 57
  const COLON: Code := 58
  const OPEN_BRACKET: Code := 91
  const BACKSLASH: Code := 92
  const CLOSE_BRACKET: Code := 93
  const LOWER_U: Code := 117
  const OPEN_BRACE: Code := 123
  const CLOSE_BRACE: Code := 125

  /** The code points of a Dafny string literal. */
  function Lit(s: string): (r: PyStr)
    ensures |r| == |s|
    ensures forall i :: 0 <= i < |s| ==> r[i] == s[i] as int
  {
    seq(|s|, i requires 0 <= i < |s| => s[i] as int)
  }

  predicate IsDigit(c: Code) { ZERO <= c <= NINE }

  /** str.isspace on one character: what str.strip() removes. */
  predicate IsPySpace(c: Code) {
    || 9 <= c <= 13
    || 0x1c <= c <= 0x20
    || c == 0x85 || c == 0xa0 || c == 0x1680
    || 0x2000 <= c <= 0x200a
    || c == 0x2028 || c == 0x2029 || c == 0x202f || c == 0x205f || c == 0x3000
  }

  predicate Blank(s: PyStr) { forall i :: 0 <= i < |s| ==> IsPySpace(s[i]) }

  /** str.strip. */
  function Lstrip(v: PyStr): PyStr { if v != [] && IsPySpace(v[0]) then Lstrip(v[1..]) else v }

  function Rstrip(v: PyStr): PyStr
    decreases |v|
  {
    if v != [] && IsPySpace(v[|v|-1]) then Rstrip(v[..|v|-1]) else v
  }

  function Strip(v: PyStr): PyStr { Rstrip(Lstrip(v)) }

  predicate StartsWith(s: PyStr, prefix: PyStr) { |prefix| <= |s| && s[..|prefix|] == prefix }

  predicate EndsWith(s: PyStr, suffix: PyStr) { |suffix| <= |s| && s[|s|-|suffix|..] == suffix }
}
