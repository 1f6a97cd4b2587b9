// The two quote lexers of validate_workflows.py and the reference substitution.
module Quoting {

  datatype Quote = Bare | Single | Double

  /** What a position of a command is, by the lexers' reading. Escaped covers a backslash outside
      single quotes and the character after it. */
  datatype Class = Active | Mark | Escaped | Squoted | Dquoted

  function Classes(s: string, q: Quote): (r: seq<Class>)
    ensures |r| == |s|
    decreases |s|
  {
    if s == "" then []
    else if q != Single && s[0] == '\\' then
      if |s| == 1 then [Escaped] else [Escaped, Escaped] + Classes(s[2..], q)
    else [HeadClass(s[0], q)] + Classes(s[1..], After(s[0], q))
  }

  /** The class of a character that is not a backslash outside single quotes. */
  function HeadClass(c: char, q: Quote): Class {
    match q
    case Bare => if c == '\'' || c == '"' then Mark else Active
    case Single => if c == '\'' then Mark else Squoted
    case Double => if c == '"' then Mark else Dquoted
  }

  function After(c: char, q: Quote): Quote {
    match q
    case Bare => if c == '\'' then Single else if c == '"' then Double else Bare
    case Single => if c == '\'' then Bare else Single
    case Double => if c == '"' then Bare else Double
  }

  predicate Kept(k: Class, expansion: bool) { k == Active || (expansion && k == Dquoted) }

  function Show(c: char, k: Class, expansion: bool): char { if Kept(k, expansion) then c else ' ' }

  /** The text left for a scan: kept positions as they are, every other one a space. */
  function Visible(s: string, q: Quote, expansion: bool): (r: string)
    ensures |r| == |s|
  {
    seq(|s|, i requires 0 <= i < |s| => Show(s[i], Classes(s, q)[i], expansion))
  }

  /** The lexers' step: the state q at position i stands for everything before i. */
  ghost predicate InState(s: string, i: nat, q: Quote) {
    i <= |s| ==> Classes(s, Bare)[i..] == Classes(s[i..], q)
  }

  lemma Advance(s: string, i: nat, q: Quote)
    requires i < |s| && InState(s, i, q)
    ensures var ks := Classes(s, Bare);
      if q != Single && s[i] == '\\' then
        && ks[i] == Escaped && (i + 1 < |s| ==> ks[i+1] == Escaped)
        && InState(s, i + 2, q)
      else
        ks[i] == HeadClass(s[i], q) && InState(s, i + 1, After(s[i], q))
  {
    var ks := Classes(s, Bare);
    assert ks[i] == ks[i..][0];
    if i + 1 < |s| { assert ks[i+1] == ks[i..][1]; }
    assert s[i..][1..] == s[i+1..] && ks[i..][1..] == ks[i+1..];
    if i + 2 <= |s| { assert s[i..][2..] == s[i+2..] && ks[i..][2..] == ks[i+2..]; }
  }

  method ShellActiveText(command: string, expansion: bool) returns (rendered: string)
    ensures rendered == Visible(command, Bare, expansion)
  {
    rendered := "";
    var quote := Bare;
    var index := 0;
    while index < |command|
      invariant index <= |command| + 1
      invariant |rendered| == if index <= |command| then index else |command|
      invariant forall i :: 0 <= i < |rendered| ==>
                  rendered[i] == Show(command[i], Classes(command, Bare)[i], expansion)
      invariant InState(command, index, quote)
    {
      var character := command[index];
      Advance(command, index, quote);
      if quote == Bare {
        if character == '\'' || character == '"' {
          quote := if character == '\'' then Single else Double;
          rendered := rendered + " ";
        } else if character == '\\' {
          rendered := rendered + " ";
          index := index + 1;
          if index < |command| { rendered := rendered + " "; }
        } else {
          rendered := rendered + [character];
        }
      } else if character == (if quote == Single then '\'' else '"') {
        quote := Bare;
        rendered := rendered + " ";
      } else if quote == Double && character == '\\' {
        rendered := rendered + " ";
        index := index + 1;
        if index < |command| { rendered := rendered + " "; }
      } else {
        rendered := rendered + [if expansion && quote == Double then character else ' '];
      }
      index := index + 1;
    }
  }

  method DoubleQuotedMask(command: string) returns (mask: array<bool>)
    ensures fresh(mask) && mask.Length == |command|
    ensures forall i :: 0 <= i < |command| ==> (mask[i] <==> Classes(command, Bare)[i] == Dquoted)
  {
    mask := new bool[|command|](_ => false);
    var quote := Bare;
    var index := 0;
    while index < |command|
      invariant index <= |command| + 1
      invariant forall i :: 0 <= i < |command| ==> (mask[i] <==> i < index && Classes(command, Bare)[i] == Dquoted)
      invariant InState(command, index, quote)
    {
      var character := command[index];
      Advance(command, index, quote);
      if quote == Bare {
        if character == '\'' || character == '"' {
          quote := if character == '\'' then Single else Double;
        } else if character == '\\' {
          index := index + 1;
        }
      } else if character == (if quote == Single then '\'' else '"') {
        quote := Bare;
      } else if quote == Double && character == '\\' {
        index := index + 1;
      } else {
        mask[index] := quote == Double;
      }
      index := index + 1;
    }
  }

  // ---------------------------------------------------------------- POSIX section 2.2

  predicate Special(c: char) { c == '$' || c == '`' || c == '"' || c == '\\' || c == '\n' }

  /** Section 2.2: inside double quotes a backslash escapes only the five special characters and
      is an ordinary quoted character before any other. */
  function PosixClasses(s: string, q: Quote): (r: seq<Class>)
    ensures |r| == |s|
    decreases |s|
  {
    if s == "" then []
    else if s[0] == '\\' && q == Bare && |s| == 1 then [Escaped]
    else if s[0] == '\\' && (q == Bare || (q == Double && |s| > 1 && Special(s[1]))) then
      [Escaped, Escaped] + PosixClasses(s[2..], q)
    else [HeadClass(s[0], q)] + PosixClasses(s[1..], After(s[0], q))
  }

  /** A backslash POSIX reads as an ordinary double-quoted character. */
  predicate OrdinaryBackslash(s: string, q: Quote, i: nat)
    requires i < |s|
  {
    s[i] == '\\' && PosixClasses(s, q)[i] == Dquoted
  }

  /** The lexers never disagree with POSIX about the quote state: they only mark an ordinary
      backslash and its follower Escaped where POSIX has them double-quoted. */
  lemma {:induction false} PosixClassesAgree(s: string, q: Quote, i: nat)
    requires i < |s|
    ensures Classes(s, q)[i] != PosixClasses(s, q)[i] <==>
            OrdinaryBackslash(s, q, i) || (i > 0 && OrdinaryBackslash(s, q, i - 1) && s[i] != '\\')
    ensures Classes(s, q)[i] != PosixClasses(s, q)[i] ==>
            Classes(s, q)[i] == Escaped && PosixClasses(s, q)[i] == Dquoted
    decreases |s|
  {
    if s[0] == '\\' && q != Single {
      if |s| == 1 {
      } else if q == Bare || Special(s[1]) {
        if i >= 2 { PosixClassesAgree(s[2..], q, i - 2); }
      } else {
        assert PosixClasses(s, q) == [Dquoted] + PosixClasses(s[1..], q);
        assert PosixClasses(s[1..], q) == [Dquoted] + PosixClasses(s[1..][1..], q);
        assert s[1..][1..] == s[2..];
        if i >= 2 { PosixClassesAgree(s[2..], q, i - 2); }
      }
    } else if i > 0 {
      PosixClassesAgree(s[1..], After(s[0], q), i - 1);
    }
  }

  // ---------------------------------------------------------------- bounded references

  predicate Upper(c: char) { 'A' <= c <= 'Z' }
  predicate RefChar(c: char) { Upper(c) || '0' <= c <= '9' || c == '_' }

  function RefRun(s: string): (n: nat)
    ensures n <= |s|
    ensures forall i :: 0 <= i < n ==> RefChar(s[i])
  {
    if s != "" && RefChar(s[0]) then 1 + RefRun(s[1..]) else 0
  }

  function RefBody(s: string, k: nat): (n: nat)
    requires k <= |s|
    requires forall i :: 1 <= i < k ==> RefChar(s[i])
    ensures n > 0 ==> k < n <= |s| && forall i :: 1 <= i < n ==> RefChar(s[i])
  {
    if k < |s| && Upper(s[k]) then k + 1 + RefRun(s[k+1..]) else 0
  }

  const LOBSTER_PREFIX := "$LOBSTER_ARG_"
  const VCOPS_PREFIX := "$VCOPS_"

  /** The length of the bounded reference that starts the text, 0 when none does. */
  function RefLen(s: string): (n: nat)
    ensures n > 0 ==> 7 < n <= |s| && s[0] == '$' && forall i :: 1 <= i < n ==> RefChar(s[i])
  {
    if LOBSTER_PREFIX <= s then RefBody(s, |LOBSTER_PREFIX|)
    else if VCOPS_PREFIX <= s then RefBody(s, |VCOPS_PREFIX|)
    else 0
  }

  /** _substitute_bounded_references once no step reference is left. */
  function Substitute(s: string): (r: string)
    ensures |r| <= |s|
    decreases |s|
  {
    if s == "" then ""
    else if RefLen(s) > 0 then "1" + Substitute(s[RefLen(s)..])
    else [s[0]] + Substitute(s[1..])
  }

  predicate Neutral(c: char) { c != '\'' && c != '"' && c != '\\' }

  lemma {:induction false} NeutralPrefix(s: string, q: Quote, n: nat)
    requires n <= |s| && forall i :: 0 <= i < n ==> Neutral(s[i])
    ensures Classes(s, q)[n..] == Classes(s[n..], q)
    decreases n
  {
    if n > 0 {
      assert Neutral(s[0]);
      NeutralPrefix(s[1..], q, n - 1);
      assert s[1..][n-1..] == s[n..];
      assert Classes(s, q)[n..] == Classes(s[1..], q)[n-1..];
    }
  }

  lemma RefNeutral(s: string)
    requires RefLen(s) > 0
    ensures forall i :: 0 <= i < RefLen(s) ==> Neutral(s[i])
  {
    forall i | 0 <= i < RefLen(s) ensures Neutral(s[i]) { if i > 0 { assert RefChar(s[i]); } }
  }

  // ---------------------------------------------------------------- any such substitution

  /** len gives the length of what starts the text and is replaced, 0 for nothing. */
  predicate NeutralAt(len: string -> nat, s: string) {
    && len(s) <= |s|
    && (len(s) > 0 ==> s[0] == '$')
    && forall i :: 0 <= i < len(s) ==> Neutral(s[i])
  }

  ghost predicate NeutralLen(len: string -> nat) { forall s: string :: NeutralAt(len, s) }

  /** Every match, from the left, replaced by a `1`. */
  ghost function Replace(s: string, len: string -> nat): string
    requires NeutralLen(len)
    decreases |s|
  {
    if s == "" then ""
    else
      assert NeutralAt(len, s);
      if len(s) > 0 then "1" + Replace(s[len(s)..], len) else [s[0]] + Replace(s[1..], len)
  }

  /** One class per position, with each match reduced to its first. */
  ghost function Collapse(s: string, ks: seq<Class>, len: string -> nat): seq<Class>
    requires NeutralLen(len) && |ks| == |s|
    decreases |s|
  {
    if s == "" then []
    else
      assert NeutralAt(len, s);
      if len(s) > 0 then [ks[0]] + Collapse(s[len(s)..], ks[len(s)..], len)
      else [ks[0]] + Collapse(s[1..], ks[1..], len)
  }

  /** Such a substitution never moves a quote boundary: every remaining character keeps its class,
      and the `1` has the class its match started with. */
  lemma {:induction false} ReplaceKeepsClasses(s: string, q: Quote, len: string -> nat)
    requires NeutralLen(len)
    ensures Classes(Replace(s, len), q) == Collapse(s, Classes(s, q), len)
    decreases |s|
  {
    if s != "" {
      assert NeutralAt(len, s);
      if len(s) > 0 {
        NeutralPrefix(s, q, len(s));
        ReplaceKeepsClasses(s[len(s)..], q, len);
        assert Replace(s, len)[1..] == Replace(s[len(s)..], len);
      } else if q != Single && s[0] == '\\' {
        if |s| > 1 { PairKeepsClasses(s, q, len); }
      } else {
        ReplaceKeepsClasses(s[1..], After(s[0], q), len);
        assert Replace(s, len)[1..] == Replace(s[1..], len);
      }
    }
  }

  ghost function HeadSize(t: string, len: string -> nat): (n: nat)
    requires t != "" && NeutralLen(len)
    ensures 1 <= n <= |t|
  {
    assert NeutralAt(len, t);
    if len(t) > 0 then len(t) else 1
  }

  lemma PairKeepsClasses(s: string, q: Quote, len: string -> nat)
    requires NeutralLen(len) && |s| > 1 && q != Single && s[0] == '\\'
    ensures Classes(Replace(s, len), q) == Collapse(s, Classes(s, q), len)
    decreases |s|, 0
  {
    ReplaceKeepsClasses(s[1..][HeadSize(s[1..], len)..], q, len);
    PairReplaced(s, q, len);
    PairCollapsed(s, q, len);
  }

  lemma PairReplaced(s: string, q: Quote, len: string -> nat)
    requires NeutralLen(len) && |s| > 1 && q != Single && s[0] == '\\'
    ensures Classes(Replace(s, len), q) ==
            [Escaped, Escaped] + Classes(Replace(s[1..][HeadSize(s[1..], len)..], len), q)
  {
    var t := s[1..];
    var rest := Replace(t[HeadSize(t, len)..], len);
    assert NeutralAt(len, s);
    assert Replace(t, len)[1..] == rest;
    assert Replace(s, len) == [s[0]] + Replace(t, len);
    assert Replace(s, len)[2..] == rest;
  }

  lemma CollapseHead(t: string, ks: seq<Class>, len: string -> nat)
    requires NeutralLen(len) && t != "" && |ks| == |t|
    ensures var n := HeadSize(t, len);
      Collapse(t, ks, len) == [ks[0]] + Collapse(t[n..], ks[n..], len)
  {
  }

  lemma PairCollapsed(s: string, q: Quote, len: string -> nat)
    requires NeutralLen(len) && |s| > 1 && q != Single && s[0] == '\\'
    ensures var rest := s[1..][HeadSize(s[1..], len)..];
      Collapse(s, Classes(s, q), len) == [Escaped, Escaped] + Collapse(rest, Classes(rest, q), len)
  {
    var t := s[1..];
    var ks := [Escaped] + Classes(t[1..], q);
    SkipEscaped(t, q, len);
    CollapseHead(t, ks, len);
    PairHead(s, q, ks, len);
    CollapseHead(s, Classes(s, q), len);
  }

  lemma PairHead(s: string, q: Quote, ks: seq<Class>, len: string -> nat)
    requires NeutralLen(len) && |s| > 1 && q != Single && s[0] == '\\'
    requires ks == [Escaped] + Classes(s[1..][1..], q)
    ensures Classes(s, q)[0] == Escaped && Classes(s, q)[1..] == ks && HeadSize(s, len) == 1
  {
    assert s[2..] == s[1..][1..];
    assert NeutralAt(len, s);
  }

  lemma SkipEscaped(t: string, q: Quote, len: string -> nat)
    requires NeutralLen(len) && t != ""
    ensures var n := HeadSize(t, len);
      ([Escaped] + Classes(t[1..], q))[n..] == Classes(t[n..], q)
  {
    var n := HeadSize(t, len);
    assert NeutralAt(len, t);
    if len(t) > 0 {
      assert forall i :: 0 <= i < n - 1 ==> t[1..][i] == t[i + 1];
      NeutralPrefix(t[1..], q, n - 1);
      assert t[1..][n-1..] == t[n..];
    }
  }

  lemma RefsNeutral()
    ensures NeutralLen(RefLen)
  {
    forall s: string ensures NeutralAt(RefLen, s) { if RefLen(s) > 0 { RefNeutral(s); } }
  }

  lemma {:induction false} SubstituteIsReplace(s: string)
    requires NeutralLen(RefLen)
    ensures Substitute(s) == Replace(s, RefLen)
    decreases |s|
  {
    if s != "" { SubstituteIsReplace(if RefLen(s) > 0 then s[RefLen(s)..] else s[1..]); }
  }
}
