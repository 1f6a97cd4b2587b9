// How /bin/sh builds the argument vector of a simple command: quoting and token recognition
// (sections 2.2 and 2.3 of the Shell Command Language volume of POSIX.1-2017) and word
// expansion (section 2.6). Beside it, Python's shlex.split, on which the validator relies.
module Posix {
  import opened Quoting

  // ---------------------------------------------------------------- tokens

  /** A piece of a word. Quotes marks that the word holds quotation marks, so that it stays a field
      even when empty. */
  datatype Part = Ch(c: char, quoted: bool) | Param(name: string, quoted: bool) | Quotes

  datatype Pending = NoWord | Begun(parts: seq<Part>)

  /** Refused: not a simple command of this model. That is an operator, a syntax error, or an
      expansion other than a plain parameter name. */
  datatype Lexed = Words(ws: seq<seq<Part>>) | Refused

  function Add(w: Pending, p: Part): Pending {
    Begun((if w.Begun? then w.parts else []) + [p])
  }

  function Finish(w: Pending, r: Lexed): Lexed {
    if r.Words? && w.Begun? then Words([w.parts] + r.ws) else r
  }

  predicate NameStart(c: char) { 'A' <= c <= 'Z' || 'a' <= c <= 'z' || c == '_' }
  predicate NameChar(c: char) { NameStart(c) || '0' <= c <= '9' }

  function NameRun(s: string): (n: nat)
    ensures n <= |s|
  {
    if s != "" && NameChar(s[0]) then 1 + NameRun(s[1..]) else 0
  }

  /** Section 3.235 (Name): the longest valid name at the start of the text. */
  function NameLen(s: string): (n: nat)
    ensures n <= |s|
  {
    if s != "" && NameStart(s[0]) then NameRun(s) else 0
  }

  predicate IsBlank(c: char) { c == ' ' || c == '\t' }
  predicate IsOperator(c: char) {
    c == ';' || c == '|' || c == '&' || c == '<' || c == '>' || c == '(' || c == ')' || c == '\n'
  }

  /** Token recognition from state q with the word w begun. */
  function Lex(s: string, q: Quote, w: Pending): Lexed
    decreases |s|, 2
  {
    match q
    case Bare => LexBare(s, w)
    case Single =>
      if s == "" then Refused
      else if s[0] == '\'' then Lex(s[1..], Bare, w)
      else Lex(s[1..], Single, Add(w, Ch(s[0], true)))
    case Double =>
      if s == "" || s[0] == '`' then Refused
      else if s[0] == '"' then Lex(s[1..], Bare, w)
      else if s[0] == '\\' then LexBackslash(s, w)
      else if s[0] == '$' then LexParam(s, Double, w)
      else Lex(s[1..], Double, Add(w, Ch(s[0], true)))
  }

  function LexBare(s: string, w: Pending): Lexed
    decreases |s|, 1
  {
    if s == "" then Finish(w, Words([]))
    else if IsBlank(s[0]) then Finish(w, Lex(s[1..], Bare, NoWord))
    else if IsOperator(s[0]) || s[0] == '`' then Refused
    else if s[0] == '#' && w.NoWord? then (if '\n' in s then Refused else Words([]))
    else if s[0] == '\'' then Lex(s[1..], Single, Add(w, Quotes))
    else if s[0] == '"' then Lex(s[1..], Double, Add(w, Quotes))
    else if s[0] == '\\' then
      if |s| == 1 then Refused
      else if s[1] == '\n' then Lex(s[2..], Bare, w)
      else Lex(s[2..], Bare, Add(w, Ch(s[1], true)))
    else if s[0] == '$' then LexParam(s, Bare, w)
    else Lex(s[1..], Bare, Add(w, Ch(s[0], false)))
  }

  /** A backslash inside double quotes (section 2.2.3). */
  function LexBackslash(s: string, w: Pending): Lexed
    requires s != ""
    decreases |s|, 0
  {
    if |s| > 1 && s[1] == '\n' then Lex(s[2..], Double, w)
    else if |s| > 1 && Special(s[1]) then Lex(s[2..], Double, Add(w, Ch(s[1], true)))
    else Lex(s[1..], Double, Add(w, Ch('\\', true)))
  }

  function LexParam(s: string, q: Quote, w: Pending): Lexed
    requires s != ""
    decreases |s|, 0
  {
    var n := NameLen(s[1..]);
    if n == 0 then Refused else Lex(s[n+1..], q, Add(w, Param(s[1..n+1], q == Double)))
  }

  // ---------------------------------------------------------------- expansion

  /** A character of a word under expansion; expanded when a parameter produced it. */
  datatype Cell = Cell(c: char, quoted: bool, expanded: bool) | Quoting

  /** Everything the outside world decides: variable values, and any behaviour at all for tilde and
      pathname expansion. */
  datatype Env = Env(vars: string -> string, tilde: seq<Part> -> seq<Part>, glob: seq<Cell> -> seq<string>)

  function TildeExpand(w: seq<Part>, env: Env): seq<Part> {
    if w != [] && w[0] == Ch('~', false) then env.tilde(w) else w
  }

  function Cells(p: Part, vars: string -> string): seq<Cell> {
    match p
    case Ch(c, quoted) => [Cell(c, quoted, false)]
    case Param(name, quoted) => seq(|vars(name)|, i requires 0 <= i < |vars(name)| => Cell(vars(name)[i], quoted, true))
    case Quotes => [Quoting]
  }

  function ParamExpand(w: seq<Part>, vars: string -> string): seq<Cell> {
    if w == [] then [] else Cells(w[0], vars) + ParamExpand(w[1..], vars)
  }

  predicate Separates(x: Cell) {
    x.Cell? && x.expanded && !x.quoted && (x.c == ' ' || x.c == '\t' || x.c == '\n')
  }

  datatype Field = NoField | Open(cells: seq<Cell>)

  /** Field splitting under the default IFS: only unquoted results of an expansion split. */
  function Split(xs: seq<Cell>, cur: Field): seq<seq<Cell>> {
    if xs == [] then (if cur.Open? then [cur.cells] else [])
    else if Separates(xs[0]) then (if cur.Open? then [cur.cells] else []) + Split(xs[1..], NoField)
    else Split(xs[1..], Open((if cur.Open? then cur.cells else []) + [xs[0]]))
  }

  predicate GlobChar(c: char) { c == '*' || c == '?' || c == '[' }

  predicate Globs(xs: seq<Cell>) { exists i :: 0 <= i < |xs| && xs[i].Cell? && !xs[i].quoted && GlobChar(xs[i].c) }

  /** Quote removal. */
  function Text(xs: seq<Cell>): string {
    if xs == [] then "" else (if xs[0].Cell? then [xs[0].c] else "") + Text(xs[1..])
  }

  function FieldsOf(parts: seq<seq<Cell>>, env: Env): seq<string> {
    if parts == [] then []
    else (if Globs(parts[0]) then env.glob(parts[0]) else [Text(parts[0])]) + FieldsOf(parts[1..], env)
  }

  function Expand(w: seq<Part>, env: Env): seq<string> {
    FieldsOf(Split(ParamExpand(TildeExpand(w, env), env.vars), NoField), env)
  }

  function ExpandAll(ws: seq<seq<Part>>, env: Env): seq<string> {
    if ws == [] then [] else Expand(ws[0], env) + ExpandAll(ws[1..], env)
  }

  datatype Argv = Args(fields: seq<string>) | NotSimple

  /** The argument vector of the command line s. */
  function Shell(s: string, env: Env): Argv {
    match Lex(s, Bare, NoWord)
    case Refused => NotSimple
    case Words(ws) => Args(ExpandAll(ws, env))
  }

  // ---------------------------------------------------------------- one word, one field

  function Render(w: seq<Part>, vars: string -> string): string {
    if w == [] then ""
    else (match w[0] case Ch(c, _) => [c] case Param(name, _) => vars(name) case Quotes => "") + Render(w[1..], vars)
  }

  function RenderAll(ws: seq<seq<Part>>, vars: string -> string): (r: seq<string>)
    ensures |r| == |ws|
    ensures forall k :: 0 <= k < |ws| ==> r[k] == Render(ws[k], vars)
  {
    seq(|ws|, k requires 0 <= k < |ws| => Render(ws[k], vars))
  }

  predicate SafePart(p: Part) {
    match p
    case Ch(c, quoted) => !quoted ==> !GlobChar(c)
    case Param(_, quoted) => quoted
    case Quotes => true
  }

  /** A word no expansion can split, drop or replace. */
  predicate SafeWord(w: seq<Part>) {
    && w != [] && w[0] != Ch('~', false)
    && SomethingStays(w)
    && (forall i :: 0 <= i < |w| ==> SafePart(w[i]))
  }

  /** The word leaves a cell whatever its parameters hold. */
  predicate SomethingStays(w: seq<Part>) { exists i :: 0 <= i < |w| && !w[i].Param? }

  predicate Inert(x: Cell) { x.Cell? ==> !Separates(x) && (x.quoted || !GlobChar(x.c)) }

  lemma {:induction false} TextConcat(a: seq<Cell>, b: seq<Cell>)
    ensures Text(a + b) == Text(a) + Text(b)
    decreases |a|
  {
    if a == [] {
      assert a + b == b;
    } else {
      TextConcat(a[1..], b);
      assert (a + b)[0] == a[0] && (a + b)[1..] == a[1..] + b;
      var head := if a[0].Cell? then [a[0].c] else "";
      assert head + (Text(a[1..]) + Text(b)) == head + Text(a[1..]) + Text(b);
    }
  }

  lemma {:induction false} ValueText(v: string, quoted: bool, xs: seq<Cell>)
    requires |xs| == |v| && forall i :: 0 <= i < |v| ==> xs[i] == Cell(v[i], quoted, true)
    ensures Text(xs) == v
    decreases |v|
  {
    if v != "" { ValueText(v[1..], quoted, xs[1..]); }
  }

  lemma PartText(p: Part, vars: string -> string)
    ensures Text(Cells(p, vars)) == match p case Ch(c, _) => [c] case Param(name, _) => vars(name) case Quotes => ""
    ensures SafePart(p) ==> forall i :: 0 <= i < |Cells(p, vars)| ==> Inert(Cells(p, vars)[i])
  {
    if p.Param? { ValueText(vars(p.name), p.quoted, Cells(p, vars)); }
    else if p.Ch? { assert Cells(p, vars)[1..] == []; }
    else { assert Cells(p, vars)[1..] == []; }
  }

  lemma {:induction false} WordText(w: seq<Part>, vars: string -> string)
    requires forall i :: 0 <= i < |w| ==> SafePart(w[i])
    ensures Text(ParamExpand(w, vars)) == Render(w, vars)
    ensures forall i :: 0 <= i < |ParamExpand(w, vars)| ==> Inert(ParamExpand(w, vars)[i])
    ensures SomethingStays(w) ==> ParamExpand(w, vars) != []
    decreases |w|
  {
    if w != [] {
      PartText(w[0], vars);
      WordText(w[1..], vars);
      TextConcat(Cells(w[0], vars), ParamExpand(w[1..], vars));
      if SomethingStays(w) && w[0].Param? {
        var i :| 0 <= i < |w| && !w[i].Param?;
        assert !w[1..][i-1].Param?;
      }
    }
  }

  lemma {:induction false} SplitInert(xs: seq<Cell>, cur: Field)
    requires forall i :: 0 <= i < |xs| ==> Inert(xs[i])
    requires xs != [] || cur.Open?
    ensures Split(xs, cur) == [(if cur.Open? then cur.cells else []) + xs]
    decreases |xs|
  {
    if xs != [] {
      var next := Open((if cur.Open? then cur.cells else []) + [xs[0]]);
      SplitInert(xs[1..], next);
      assert next.cells + xs[1..] == (if cur.Open? then cur.cells else []) + xs;
    } else {
      assert cur.cells + xs == cur.cells;
    }
  }

  lemma OneField(w: seq<Part>, env: Env)
    requires SafeWord(w)
    ensures Expand(w, env) == [Render(w, env.vars)]
  {
    var xs := ParamExpand(w, env.vars);
    WordText(w, env.vars);
    SplitInert(xs, NoField);
    assert [] + xs == xs;
    assert !Globs(xs) by { assert forall i :: 0 <= i < |xs| ==> Inert(xs[i]); }
    assert FieldsOf([xs], env) == [Text(xs)] + FieldsOf([], env);
  }

  lemma {:induction false} OneFieldEach(ws: seq<seq<Part>>, env: Env)
    requires forall k :: 0 <= k < |ws| ==> SafeWord(ws[k])
    ensures ExpandAll(ws, env) == RenderAll(ws, env.vars)
    decreases |ws|
  {
    if ws != [] {
      OneField(ws[0], env);
      OneFieldEach(ws[1..], env);
      assert RenderAll(ws, env.vars) == [Render(ws[0], env.vars)] + RenderAll(ws[1..], env.vars);
    }
  }

  // ---------------------------------------------------------------- shlex

  datatype Tokens = Tokens(ts: seq<string>) | ParseError

  datatype Token = NoToken | Token(text: string)

  function Extend(t: Token, x: string): Token { Token((if t.Token? then t.text else "") + x) }

  function Emit(t: Token, r: Tokens): Tokens {
    if r.Tokens? && t.Token? then Tokens([t.text] + r.ts) else r
  }

  predicate ShlexSpace(c: char) { c == ' ' || c == '\t' || c == '\r' || c == '\n' }

  /** shlex.split(s, posix=True): no comments, words end at whitespace only, and inside double
      quotes a backslash escapes only a quote and itself. */
  function Shlex(s: string, q: Quote, t: Token): Tokens
    decreases |s|
  {
    match q
    case Bare =>
      if s == "" then Emit(t, Tokens([]))
      else if ShlexSpace(s[0]) then Emit(t, Shlex(s[1..], Bare, NoToken))
      else if s[0] == '\'' then Shlex(s[1..], Single, Extend(t, ""))
      else if s[0] == '"' then Shlex(s[1..], Double, Extend(t, ""))
      else if s[0] == '\\' then
        if |s| == 1 then ParseError else Shlex(s[2..], Bare, Extend(t, [s[1]]))
      else Shlex(s[1..], Bare, Extend(t, [s[0]]))
    case Single =>
      if s == "" then ParseError
      else if s[0] == '\'' then Shlex(s[1..], Bare, t)
      else Shlex(s[1..], Single, Extend(t, [s[0]]))
    case Double =>
      if s == "" then ParseError
      else if s[0] == '"' then Shlex(s[1..], Bare, t)
      else if s[0] == '\\' then
        if |s| == 1 then ParseError
        else Shlex(s[2..], Double, Extend(t, if s[1] == '"' || s[1] == '\\' then [s[1]] else ['\\', s[1]]))
      else Shlex(s[1..], Double, Extend(t, [s[0]]))
  }
}
