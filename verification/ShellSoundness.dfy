// The certificate of WorkflowCommand held against the shell of Posix: what a command without
// findings does to its argument boundaries.
module ShellSoundness {
  import opened Quoting
  import opened Posix
  import opened WorkflowCommand
  import L = CommandLaws

  // ---------------------------------------------------------------- what certification gives

  predicate RefsQuoted(s: string, q: Quote) { forall i :: 0 <= i < |s| ==> QuotedAt(s, q, i) }

  predicate QuotedAt(s: string, q: Quote, i: int) {
    0 <= i < |s| && RefLen(s[i..]) > 0 ==> Classes(s, q)[i] == Dquoted
  }

  /** No `$` the shell acts on starts a parameter name. */
  predicate NoName(s: string, q: Quote) { forall i :: 0 <= i < |s| ==> NamelessAt(s, q, i) }

  predicate NamelessAt(s: string, q: Quote, i: int) {
    0 <= i < |s| && s[i] == '$' && Kept(Classes(s, q)[i], true) ==> NameLen(s[i+1..]) == 0
  }

  /** Every reference is double-quoted, and no other parameter name is left. */
  predicate Bounded(s: string, q: Quote) { RefsQuoted(s, q) && NoName(Substitute(s), q) }

  lemma QuotedTail(s: string, q: Quote, n: nat, q': Quote)
    requires RefsQuoted(s, q) && n <= |s| && Classes(s, q)[n..] == Classes(s[n..], q')
    ensures RefsQuoted(s[n..], q')
  {
    forall i | 0 <= i < |s[n..]| ensures QuotedAt(s[n..], q', i) {
      assert s[n..][i..] == s[n+i..];
      assert Classes(s[n..], q')[i] == Classes(s, q)[n..][i];
      assert QuotedAt(s, q, n + i);
    }
  }

  lemma NoNameTail(s: string, q: Quote, n: nat, q': Quote)
    requires NoName(s, q) && n <= |s| && Classes(s, q)[n..] == Classes(s[n..], q')
    ensures NoName(s[n..], q')
  {
    forall i | 0 <= i < |s[n..]| ensures NamelessAt(s[n..], q', i) {
      assert s[n..][i+1..] == s[n+i+1..];
      assert Classes(s[n..], q')[i] == Classes(s, q)[n..][i];
      assert NamelessAt(s, q, n + i);
    }
  }

  lemma HeadNameless(s: string, q: Quote)
    requires s != "" && NoName(s, q) && s[0] == '$' && q != Single
    ensures NameLen(s[1..]) == 0
  {
    assert NamelessAt(s, q, 0);
  }

  lemma HeadQuoted(s: string, q: Quote)
    requires s != "" && RefsQuoted(s, q) && RefLen(s) > 0
    ensures q == Double
  {
    assert s[0..] == s && QuotedAt(s, q, 0);
  }

  lemma OneKept(s: string)
    requires s != "" && RefLen(s) == 0
    ensures Substitute(s) == [s[0]] + Substitute(s[1..])
    ensures Substitute(s)[1..] == Substitute(s[1..])
  {
  }

  lemma TwoKept(s: string)
    requires |s| > 1 && s[0] == '\\' && RefLen(s[1..]) == 0
    ensures Substitute(s) == [s[0], s[1]] + Substitute(s[2..])
    ensures Substitute(s)[1..] == [s[1]] + Substitute(s[2..])
    ensures Substitute(s)[2..] == Substitute(s[2..])
  {
    OneKept(s);
    OneKept(s[1..]);
    assert s[1..][1..] == s[2..];
  }

  /** A character after a backslash is never a reference. */
  lemma PairFacts(s: string, q: Quote)
    requires |s| > 1 && s[0] == '\\' && q != Single && Bounded(s, q)
    ensures Substitute(s) == [s[0], s[1]] + Substitute(s[2..])
    ensures Substitute(s)[1..] == [s[1]] + Substitute(s[2..])
    ensures Substitute(s)[2..] == Substitute(s[2..])
    ensures Bounded(s[2..], q)
  {
    QuotedTail(s, q, 2, q);
    assert Classes(s, q)[1] == Escaped && QuotedAt(s, q, 1);
    TwoKept(s);
    NoNameTail(Substitute(s), q, 2, q);
  }

  lemma StepBounded(s: string, q: Quote)
    requires s != "" && !(q != Single && s[0] == '\\') && Bounded(s, q) && RefLen(s) == 0
    ensures Substitute(s) == [s[0]] + Substitute(s[1..])
    ensures Substitute(s)[1..] == Substitute(s[1..])
    ensures Bounded(s[1..], After(s[0], q))
  {
    QuotedTail(s, q, 1, After(s[0], q));
    OneKept(s);
    NoNameTail(Substitute(s), q, 1, After(s[0], q));
  }

  lemma OrdinaryTail(s: string)
    requires |s| > 1 && s[0] == '\\' && !Special(s[1]) && Bounded(s, Double)
    ensures Bounded(s[1..], Double)
  {
    PairFacts(s, Double);
    var t := s[1..];
    assert t[1..] == s[2..] && t[0] != '$';
    OneKept(t);
    assert NoName([t[0]] + Substitute(t[1..]), Double) by { NamelessCons(t[0], Substitute(t[1..])); }
    forall i | 0 <= i < |t| ensures QuotedAt(t, Double, i) {
      if i > 0 {
        assert t[i..] == t[1..][i-1..] && Classes(t, Double)[i] == Classes(t[1..], Double)[i-1];
        assert QuotedAt(t[1..], Double, i - 1);
      }
    }
  }

  lemma NamelessCons(c: char, t: string)
    requires NoName(t, Double) && c != '$' && c != '\\' && c != '"'
    ensures NoName([c] + t, Double)
  {
    var u := [c] + t;
    assert u[1..] == t;
    forall i | 0 <= i < |u| ensures NamelessAt(u, Double, i) {
      if i > 0 {
        assert u[i+1..] == t[i..] && Classes(u, Double)[i] == Classes(t, Double)[i-1];
        assert NamelessAt(t, Double, i - 1);
      }
    }
  }

  // ---------------------------------------------------------------- a reference inside a name

  lemma {:induction false} RefRunCut(a: string, b: string)
    requires b != "" ==> !RefChar(b[0])
    ensures RefRun(a + b) == RefRun(a)
    decreases |a|
  {
    if a == "" {
      assert a + b == b;
    } else {
      assert (a + b)[1..] == a[1..] + b;
      RefRunCut(a[1..], b);
    }
  }

  lemma RefBodyCut(a: string, b: string, k: nat)
    requires k < |a| && (b != "" ==> !RefChar(b[0]))
    requires forall i :: 1 <= i < k ==> RefChar(a[i])
    ensures RefBody(a + b, k) == RefBody(a, k)
  {
    if Upper(a[k]) {
      assert (a + b)[k+1..] == a[k+1..] + b;
      RefRunCut(a[k+1..], b);
    }
  }

  /** Whether a reference starts here is decided by the name the shell reads. */
  lemma RefCut(a: string, b: string)
    requires RefLen(a + b) > 0 && |a| >= RefLen(a + b) && (b != "" ==> !RefChar(b[0]))
    ensures RefLen(a) == RefLen(a + b)
  {
    var s := a + b;
    assert s[..|a|] == a;
    if LOBSTER_PREFIX <= s {
      assert LOBSTER_PREFIX <= a;
      RefBodyCut(a, b, |LOBSTER_PREFIX|);
    } else {
      assert VCOPS_PREFIX <= a && !(LOBSTER_PREFIX <= a);
      RefBodyCut(a, b, |VCOPS_PREFIX|);
    }
  }

  lemma {:induction false} NameRunCovers(s: string, n: nat)
    requires n <= |s| && forall i :: 0 <= i < n ==> NameChar(s[i])
    ensures n <= NameRun(s)
    decreases n
  {
    if n > 0 { NameRunCovers(s[1..], n - 1); }
  }

  lemma {:induction false} NameRunEnds(s: string)
    ensures forall i :: 0 <= i < NameRun(s) ==> NameChar(s[i])
    ensures NameRun(s) < |s| ==> !NameChar(s[NameRun(s)])
    decreases |s|
  {
    if s != "" && NameChar(s[0]) {
      NameRunEnds(s[1..]);
      forall i | 0 <= i < NameRun(s) ensures NameChar(s[i]) { if i > 0 { assert NameChar(s[1..][i-1]); } }
    }
  }

  /** What the scanned text keeps of a name that starts with a reference: everything after it. */
  function Tail(name: string): string { name[if RefLen("$" + name) > 0 then RefLen("$" + name) - 1 else 0..] }

  predicate Letters(t: string) { forall i :: 0 <= i < |t| ==> NameChar(t[i]) }

  /** Where the name ends that the shell reads after the `$` at the start. */
  function NameEnd(s: string): (n: nat)
    requires s != ""
    ensures 0 < n <= |s|
  {
    1 + NameLen(s[1..])
  }

  /** The shell reads a reference and any letters after it as one name. */
  lemma RefName(s: string)
    requires RefLen(s) > 0
    ensures RefLen(s) <= NameEnd(s) && Letters(s[1..NameEnd(s)])
    ensures NameEnd(s) < |s| ==> !NameChar(s[NameEnd(s)])
  {
    var t := s[1..];
    forall i | 0 <= i < RefLen(s) - 1 ensures NameChar(t[i]) { assert RefChar(s[i+1]); }
    assert NameStart(t[0]) by { RefStart(s); }
    NameRunCovers(t, RefLen(s) - 1);
    NameRunEnds(t);
    assert NameEnd(s) < |s| ==> s[NameEnd(s)] == t[NameLen(t)];
  }

  lemma RefTail(s: string, k: nat, n: nat)
    requires k == RefLen(s) > 0 && n == NameEnd(s)
    ensures k <= n && Letters(s[k..n]) && Tail(s[1..n]) == s[k..n]
  {
    RefName(s);
    assert s == s[..n] + s[n..] && "$" + s[1..n] == s[..n];
    RefCut(s[..n], s[n..]);
    forall i | 0 <= i < n - k ensures NameChar(s[k..n][i]) { assert s[k..n][i] == s[1..n][k-1+i]; }
  }

  lemma RefStart(s: string)
    requires RefLen(s) > 0
    ensures NameStart(s[1])
  {
    if LOBSTER_PREFIX <= s { assert s[1] == LOBSTER_PREFIX[1]; }
    else { assert s[1] == VCOPS_PREFIX[1]; }
  }

  // ---------------------------------------------------------------- substitution simulates

  function Chars(t: string): (r: seq<Part>)
    ensures |r| == |t| && forall i :: 0 <= i < |t| ==> r[i] == Ch(t[i], true)
  {
    seq(|t|, i requires 0 <= i < |t| => Ch(t[i], true))
  }

  /** A parameter as the scanned text has it: a `1` and what follows the reference in the name. */
  function One(p: Part): seq<Part> { if p.Param? then Chars("1" + Tail(p.name)) else [p] }

  function Ones(w: seq<Part>): seq<Part> { if w == [] then [] else One(w[0]) + Ones(w[1..]) }

  function OnesPending(w: Pending): Pending { if w.Begun? then Begun(Ones(w.parts)) else NoWord }

  function OnesEach(ws: seq<seq<Part>>): (r: seq<seq<Part>>)
    ensures |r| == |ws|
  {
    seq(|ws|, k requires 0 <= k < |ws| => Ones(ws[k]))
  }

  function OnesLexed(r: Lexed): Lexed { if r.Words? then Words(OnesEach(r.ws)) else Refused }

  function Append(w: Pending, ps: seq<Part>): Pending { Begun((if w.Begun? then w.parts else []) + ps) }

  lemma {:induction false} OnesConcat(w: seq<Part>, p: Part)
    ensures Ones(w + [p]) == Ones(w) + One(p)
    decreases |w|
  {
    if w == [] {
      assert w + [p] == [p] && [p][1..] == [];
      assert Ones([p]) == One(p) + [];
    } else {
      OnesConcat(w[1..], p);
      assert (w + [p])[0] == w[0] && (w + [p])[1..] == w[1..] + [p];
      Regrouped(One(w[0]), Ones(w[1..]), One(p));
    }
  }

  lemma Regrouped<T>(a: seq<T>, b: seq<T>, c: seq<T>)
    ensures a + (b + c) == a + b + c
  {
  }

  lemma OnesAppend(w: Pending, p: Part)
    ensures OnesPending(Add(w, p)) == Append(OnesPending(w), One(p))
  {
    OnesConcat(if w.Begun? then w.parts else [], p);
  }

  lemma OnesAdd(w: Pending, p: Part)
    requires !p.Param?
    ensures OnesPending(Add(w, p)) == Add(OnesPending(w), p)
  {
    OnesAppend(w, p);
  }

  lemma OnesFinish(w: Pending, r: Lexed)
    ensures OnesLexed(Finish(w, r)) == Finish(OnesPending(w), OnesLexed(r))
  {
    if r.Words? && w.Begun? { assert OnesEach([w.parts] + r.ws) == [Ones(w.parts)] + OnesEach(r.ws); }
  }

  lemma InConcat(a: string, b: string, c: char)
    ensures c in a + b <==> c in a || c in b
  {
    if c in a {
      var i :| 0 <= i < |a| && a[i] == c;
      assert (a + b)[i] == c;
    }
    if c in b {
      var i :| 0 <= i < |b| && b[i] == c;
      assert (a + b)[|a| + i] == c;
    }
  }

  lemma NotInRef(s: string, c: char)
    requires RefLen(s) > 0 && c != '$' && !RefChar(c)
    ensures c !in s[..RefLen(s)]
  {
    forall i | 0 <= i < RefLen(s) ensures s[i] != c {
      if i > 0 { assert RefChar(s[i]); }
    }
  }

  lemma {:induction false} NewlineKept(s: string, c: char)
    requires c != '1' && c != '$' && !RefChar(c)
    ensures c in Substitute(s) <==> c in s
    decreases |s|
  {
    if s != "" {
      var n := if RefLen(s) > 0 then RefLen(s) else 1;
      NewlineKept(s[n..], c);
      assert s == s[..n] + s[n..];
      InConcat(s[..n], s[n..], c);
      if RefLen(s) > 0 {
        NotInRef(s, c);
        InConcat("1", Substitute(s[n..]), c);
      } else {
        assert s[..1] == [s[0]];
        InConcat([s[0]], Substitute(s[1..]), c);
      }
    }
  }

  lemma DollarRefused(s: string, q: Quote, w: Pending)
    requires s != "" && s[0] == '$' && q != Single && NameLen(s[1..]) == 0
    ensures Lex(s, q, w) == Refused
  {
    assert LexParam(s, q, w) == Refused;
    if q == Bare { assert LexBare(s, w) == LexParam(s, Bare, w); }
  }

  lemma NamelessBefore(t: string)
    ensures NameLen(t) > 0 ==> NameLen(Substitute(t)) > 0
  {
    if NameLen(t) > 0 {
      assert NameStart(t[0]);
      OneKept(t);
      assert Substitute(t)[0] == t[0];
      NamePositive(Substitute(t));
    }
  }

  /** A `$` that starts no reference stops the shell's reading on both sides. */
  lemma OtherDollar(s: string, q: Quote, w: Pending)
    requires s != "" && s[0] == '$' && q != Single && Bounded(s, q) && RefLen(s) == 0
    ensures Lex(s, q, w) == Refused && Lex(Substitute(s), q, OnesPending(w)) == Refused
  {
    OneKept(s);
    HeadNameless(Substitute(s), q);
    NamelessBefore(s[1..]);
    DollarRefused(s, q, w);
    DollarRefused(Substitute(s), q, OnesPending(w));
  }

  lemma NamePositive(s: string)
    requires s != "" && NameStart(s[0])
    ensures NameLen(s) > 0
  {
  }

  /** The shell reads the substituted text as it reads the command, with a `1` in the place of each
      reference. */
  lemma {:induction false} Simulate(s: string, q: Quote, w: Pending)
    requires Bounded(s, q)
    ensures Lex(Substitute(s), q, OnesPending(w)) == OnesLexed(Lex(s, q, w))
    decreases |s|, 2
  {
    match q
    case Bare => SimulateBare(s, w);
    case Single =>
      if s != "" {
        if RefLen(s) > 0 { HeadQuoted(s, q); }
        StepBounded(s, q);
        OnesAdd(w, Ch(s[0], true));
        Simulate(s[1..], After(s[0], q), if s[0] == '\'' then w else Add(w, Ch(s[0], true)));
      }
    case Double => SimulateDouble(s, w);
  }

  lemma {:induction false} SimulateBare(s: string, w: Pending)
    requires Bounded(s, Bare)
    ensures Lex(Substitute(s), Bare, OnesPending(w)) == OnesLexed(Lex(s, Bare, w))
    decreases |s|, 1
  {
    if s == "" {
      OnesFinish(w, Words([]));
    } else if s[0] == '\\' {
      if |s| > 1 {
        PairFacts(s, Bare);
        OnesAdd(w, Ch(s[1], true));
        Simulate(s[2..], Bare, if s[1] == '\n' then w else Add(w, Ch(s[1], true)));
      }
    } else {
      if RefLen(s) > 0 { HeadQuoted(s, Bare); }
      if s[0] == '$' { OtherDollar(s, Bare, w); } else { SimulateActive(s, w); }
    }
  }

  lemma {:induction false} SimulateActive(s: string, w: Pending)
    requires s != "" && Bounded(s, Bare) && RefLen(s) == 0 && s[0] != '$' && s[0] != '\\'
    ensures Lex(Substitute(s), Bare, OnesPending(w)) == OnesLexed(Lex(s, Bare, w))
    decreases |s|, 0
  {
    StepBounded(s, Bare);
    NewlineKept(s, '\n');
    if IsBlank(s[0]) {
      Simulate(s[1..], Bare, NoWord);
      OnesFinish(w, Lex(s[1..], Bare, NoWord));
    } else if !IsOperator(s[0]) {
      var p := if s[0] == '\'' || s[0] == '"' then Quotes else Ch(s[0], false);
      OnesAdd(w, p);
      Simulate(s[1..], After(s[0], Bare), Add(w, p));
    }
  }

  lemma {:induction false} SimulateDouble(s: string, w: Pending)
    requires Bounded(s, Double)
    ensures Lex(Substitute(s), Double, OnesPending(w)) == OnesLexed(Lex(s, Double, w))
    decreases |s|, 1
  {
    if s != "" {
      if s[0] == '\\' { SimulateBackslash(s, w); }
      else if RefLen(s) > 0 { SimulateRef(s, w); }
      else if s[0] == '$' { OtherDollar(s, Double, w); }
      else {
        StepBounded(s, Double);
        OnesAdd(w, Ch(s[0], true));
        Simulate(s[1..], After(s[0], Double), if s[0] == '"' then w else Add(w, Ch(s[0], true)));
      }
    }
  }

  lemma {:induction false} SimulateBackslash(s: string, w: Pending)
    requires s != "" && s[0] == '\\' && Bounded(s, Double)
    ensures LexBackslash(Substitute(s), OnesPending(w)) == OnesLexed(LexBackslash(s, w))
    decreases |s|, 0
  {
    if |s| == 1 {
      OnesAdd(w, Ch('\\', true));
    } else {
      PairFacts(s, Double);
      if s[1] == '\n' {
        Simulate(s[2..], Double, w);
      } else if Special(s[1]) {
        OnesAdd(w, Ch(s[1], true));
        Simulate(s[2..], Double, Add(w, Ch(s[1], true)));
      } else {
        OrdinaryTail(s);
        OneKept(s);
        OnesAdd(w, Ch('\\', true));
        Simulate(s[1..], Double, Add(w, Ch('\\', true)));
      }
    }
  }

  /** Past a reference, and past the rest of the name it starts. */
  lemma RefFacts(s: string)
    requires RefLen(s) > 0 && Bounded(s, Double)
    ensures Bounded(s[RefLen(s)..], Double)
    ensures Substitute(s) == "1" + Substitute(s[RefLen(s)..])
  {
    RefNeutral(s);
    NeutralPrefix(s, Double, RefLen(s));
    QuotedTail(s, Double, RefLen(s), Double);
    assert Substitute(s)[1..] == Substitute(s[RefLen(s)..]);
    NoNameTail(Substitute(s), Double, 1, Double);
  }

  lemma {:induction false} LettersKept(t: string, k: nat)
    requires Bounded(t, Double) && k <= |t| && Letters(t[..k])
    ensures Bounded(t[k..], Double)
    ensures Substitute(t) == t[..k] + Substitute(t[k..])
    decreases k
  {
    if k == 0 {
      assert t[..k] + Substitute(t[k..]) == Substitute(t);
    } else {
      assert NameChar(t[..k][0]);
      LettersTail(t, k);
      StepBounded(t, Double);
      LettersKept(t[1..], k - 1);
      HeadMoved(t, k, Substitute(t[k..]));
    }
  }

  lemma LettersTail(t: string, k: nat)
    requires 0 < k <= |t| && Letters(t[..k])
    ensures Letters(t[1..][..k-1])
  {
    var rest := t[1..][..k-1];
    forall i | 0 <= i < |rest| ensures NameChar(rest[i]) { assert rest[i] == t[..k][i+1]; }
  }

  lemma HeadMoved(t: string, k: nat, u: string)
    requires 0 < k <= |t|
    ensures t[1..][k-1..] == t[k..]
    ensures [t[0]] + (t[1..][..k-1] + u) == t[..k] + u
  {
    assert t[..k] == [t[0]] + t[1..][..k-1];
  }

  lemma {:induction false} LexLetters(t: string, s: string, w: Pending)
    requires (w.Begun? || t != "") && Letters(t)
    ensures Lex(t + s, Double, w) == Lex(s, Double, Append(w, Chars(t)))
    decreases |t|
  {
    if t == "" {
      assert t + s == s && w.parts + Chars(t) == w.parts;
    } else {
      SumTail(t, s);
      LexLetters(t[1..], s, Add(w, Ch(t[0], true)));
      AppendChars(if w.Begun? then w.parts else [], t);
    }
  }

  lemma SumTail(t: string, s: string)
    requires t != ""
    ensures (t + s)[0] == t[0] && (t + s)[1..] == t[1..] + s
  {
  }

  lemma AppendChars(begun: seq<Part>, t: string)
    requires t != ""
    ensures begun + [Ch(t[0], true)] + Chars(t[1..]) == begun + Chars(t)
  {
  }

  lemma TailKept(s: string, k: nat, n: nat)
    requires k <= n <= |s| && Bounded(s[k..], Double) && Letters(s[k..n])
    ensures Bounded(s[n..], Double)
    ensures Substitute(s[k..]) == s[k..n] + Substitute(s[n..])
  {
    var t := s[k..];
    assert t[n-k..] == s[n..] && t[..n-k] == s[k..n];
    LettersKept(t, n - k);
  }

  /** What the scanned text has where a reference stands. */
  function RefText(s: string): string
    requires s != ""
  {
    "1" + Tail(s[1..NameEnd(s)])
  }

  lemma NameFacts(s: string)
    requires RefLen(s) > 0 && Bounded(s, Double)
    ensures Bounded(s[NameEnd(s)..], Double)
    ensures Letters(RefText(s)) && Substitute(s) == RefText(s) + Substitute(s[NameEnd(s)..])
  {
    var k, n := RefLen(s), NameEnd(s);
    RefFacts(s);
    RefTail(s, k, n);
    TailKept(s, k, n);
    OneMore(s[k..n], Substitute(s[n..]));
  }

  lemma OneMore(t: string, u: string)
    ensures "1" + (t + u) == "1" + t + u
    ensures Letters(t) ==> Letters("1" + t)
  {
  }

  lemma LexName(s: string, w: Pending)
    requires s != "" && s[0] == '$' && NameEnd(s) > 1
    ensures Lex(s, Double, w) == Lex(s[NameEnd(s)..], Double, Add(w, Param(s[1..NameEnd(s)], true)))
  {
  }

  lemma {:induction false} SimulateRef(s: string, w: Pending)
    requires RefLen(s) > 0 && Bounded(s, Double)
    ensures Lex(Substitute(s), Double, OnesPending(w)) == OnesLexed(Lex(s, Double, w))
    decreases |s|, 0
  {
    NameFacts(s);
    RefName(s);
    LexName(s, w);
    var rest, p := s[NameEnd(s)..], Param(s[1..NameEnd(s)], true);
    LexLetters(RefText(s), Substitute(rest), OnesPending(w));
    OnesAppend(w, p);
    Simulate(rest, Double, Add(w, p));
  }

  // ---------------------------------------------------------------- parameters stay quoted

  predicate KeepsCell(w: seq<Part>) {
    SomethingStays(w) && forall i :: 0 <= i < |w| && w[i].Param? ==> w[i].quoted
  }

  predicate KeepsPending(w: Pending) { w.Begun? ==> KeepsCell(w.parts) }

  predicate KeepsAll(r: Lexed) { r.Words? ==> forall k :: 0 <= k < |r.ws| ==> KeepsCell(r.ws[k]) }

  lemma KeepsAdd(w: Pending, p: Part)
    requires KeepsPending(w) && (p.Param? ==> p.quoted && w.Begun?)
    ensures KeepsPending(Add(w, p))
  {
    var begun := if w.Begun? then w.parts else [];
    var parts := begun + [p];
    if w.Begun? {
      var i :| 0 <= i < |begun| && !begun[i].Param?;
      assert parts[i] == begun[i];
    } else {
      assert !parts[0].Param?;
    }
  }

  lemma KeepsFinish(w: Pending, r: Lexed)
    requires KeepsPending(w) && KeepsAll(r)
    ensures KeepsAll(Finish(w, r))
  {
  }

  /** In a bounded command every parameter is double-quoted, in a word that also holds quotes. */
  lemma {:induction false} ParamsQuoted(s: string, q: Quote, w: Pending)
    requires Bounded(s, q) && KeepsPending(w) && (q != Bare ==> w.Begun?)
    ensures KeepsAll(Lex(s, q, w))
    decreases |s|, 2
  {
    match q
    case Bare => ParamsQuotedBare(s, w);
    case Single =>
      if s != "" {
        if RefLen(s) > 0 { HeadQuoted(s, q); }
        StepBounded(s, q);
        if s[0] != '\'' { KeepsAdd(w, Ch(s[0], true)); }
        ParamsQuoted(s[1..], After(s[0], q), if s[0] == '\'' then w else Add(w, Ch(s[0], true)));
      }
    case Double => ParamsQuotedDouble(s, w);
  }

  lemma {:induction false} ParamsQuotedBare(s: string, w: Pending)
    requires Bounded(s, Bare) && KeepsPending(w)
    ensures KeepsAll(Lex(s, Bare, w))
    decreases |s|, 1
  {
    if s == "" {
      KeepsFinish(w, Words([]));
    } else if s[0] == '\\' {
      if |s| > 1 {
        PairFacts(s, Bare);
        KeepsAdd(w, Ch(s[1], true));
        ParamsQuoted(s[2..], Bare, if s[1] == '\n' then w else Add(w, Ch(s[1], true)));
      }
    } else {
      if RefLen(s) > 0 { HeadQuoted(s, Bare); }
      if s[0] == '$' { OtherDollar(s, Bare, w); } else { ParamsQuotedActive(s, w); }
    }
  }

  lemma {:induction false} ParamsQuotedActive(s: string, w: Pending)
    requires s != "" && s[0] != '$' && s[0] != '\\' && Bounded(s, Bare) && KeepsPending(w)
    ensures KeepsAll(Lex(s, Bare, w))
    decreases |s|, 0
  {
    StepBounded(s, Bare);
    if IsBlank(s[0]) {
      ParamsQuoted(s[1..], Bare, NoWord);
      KeepsFinish(w, Lex(s[1..], Bare, NoWord));
    } else if !IsOperator(s[0]) {
      var p := if s[0] == '\'' || s[0] == '"' then Quotes else Ch(s[0], false);
      KeepsAdd(w, p);
      ParamsQuoted(s[1..], After(s[0], Bare), Add(w, p));
    }
  }

  lemma {:induction false} ParamsQuotedDouble(s: string, w: Pending)
    requires Bounded(s, Double) && KeepsPending(w) && w.Begun?
    ensures KeepsAll(Lex(s, Double, w))
    decreases |s|, 1
  {
    if s == "" {
    } else if s[0] == '\\' {
      ParamsQuotedBackslash(s, w);
    } else if RefLen(s) > 0 {
      NameFacts(s);
      RefName(s);
      LexName(s, w);
      KeepsAdd(w, Param(s[1..NameEnd(s)], true));
      ParamsQuoted(s[NameEnd(s)..], Double, Add(w, Param(s[1..NameEnd(s)], true)));
    } else if s[0] == '$' {
      OtherDollar(s, Double, w);
    } else {
      StepBounded(s, Double);
      KeepsAdd(w, Ch(s[0], true));
      ParamsQuoted(s[1..], After(s[0], Double), if s[0] == '"' then w else Add(w, Ch(s[0], true)));
    }
  }

  lemma {:induction false} ParamsQuotedBackslash(s: string, w: Pending)
    requires s != "" && s[0] == '\\' && Bounded(s, Double) && KeepsPending(w) && w.Begun?
    ensures KeepsAll(LexBackslash(s, w))
    decreases |s|, 0
  {
    KeepsAdd(w, Ch('\\', true));
    if |s| == 1 {
      assert Lex(s[1..], Double, Add(w, Ch('\\', true))) == Refused;
    } else {
      PairFacts(s, Double);
      KeepsAdd(w, Ch(s[1], true));
      if s[1] == '\n' { ParamsQuoted(s[2..], Double, w); }
      else if Special(s[1]) { ParamsQuoted(s[2..], Double, Add(w, Ch(s[1], true))); }
      else { OrdinaryTail(s); ParamsQuoted(s[1..], Double, Add(w, Ch('\\', true))); }
    }
  }

  // ---------------------------------------------------------------- no glob, no tilde

  predicate NoActiveGlob(s: string, q: Quote) {
    forall i :: 0 <= i < |s| && Classes(s, q)[i] == Active ==> !GlobChar(s[i])
  }

  /** No active `~` at the start, when edge says that a word may start there, or after a space. */
  predicate NoActiveTilde(s: string, q: Quote, edge: bool) {
    forall i :: 0 <= i < |s| && Classes(s, q)[i] == Active && s[i] == '~' ==>
      if i == 0 then !edge else !ReSpace(Visible(s, q, false)[i-1])
  }

  predicate Literal(s: string, q: Quote, edge: bool) { NoActiveGlob(s, q) && NoActiveTilde(s, q, edge) }

  function EdgeAfter(s: string, q: Quote, n: nat, edge: bool): bool
    requires n <= |s|
  {
    if n == 0 then edge else ReSpace(Visible(s, q, false)[n-1])
  }

  lemma LiteralTail(s: string, q: Quote, n: nat, q': Quote, edge: bool)
    requires Literal(s, q, edge) && n <= |s| && Classes(s, q)[n..] == Classes(s[n..], q')
    ensures Literal(s[n..], q', EdgeAfter(s, q, n, edge))
  {
    var t := s[n..];
    forall i | 0 <= i < |t|
      ensures Classes(t, q')[i] == Classes(s, q)[n+i] && t[i] == s[n+i]
      ensures i > 0 ==> Visible(t, q', false)[i-1] == Visible(s, q, false)[n+i-1]
    {
      assert Classes(t, q')[i] == Classes(s, q)[n..][i];
      if i > 0 { assert Classes(t, q')[i-1] == Classes(s, q)[n..][i-1]; }
    }
  }

  /** No unquoted character of the word globs, and it does not start with an unquoted `~`. */
  predicate LiteralWord(w: seq<Part>) {
    && w != [] && w[0] != Ch('~', false)
    && forall i :: 0 <= i < |w| && w[i].Ch? && !w[i].quoted ==> !GlobChar(w[i].c)
  }

  predicate LiteralPending(w: Pending) { w.Begun? ==> LiteralWord(w.parts) }

  predicate LiteralAll(r: Lexed) { r.Words? ==> forall k :: 0 <= k < |r.ws| ==> LiteralWord(r.ws[k]) }

  lemma LiteralAdd(w: Pending, p: Part)
    requires LiteralPending(w)
    requires p.Ch? && !p.quoted ==> !GlobChar(p.c) && (w.Begun? || p.c != '~')
    ensures LiteralPending(Add(w, p))
  {
  }

  /** One consumed piece of text: the rest is literal and the word, if begun, stays so. */
  lemma LiteralStep(s: string, q: Quote, edge: bool, n: nat)
    requires s != "" && Literal(s, q, edge)
    requires n == if q != Single && s[0] == '\\' then 2 else 1
    requires n <= |s|
    ensures Literal(s[n..], if n == 2 then q else After(s[0], q), EdgeAfter(s, q, n, edge))
    ensures n == 2 ==> EdgeAfter(s, q, n, edge)
    ensures n == 1 && q == Bare && IsBlank(s[0]) ==> EdgeAfter(s, q, n, edge)
    ensures n == 1 && q == Bare && After(s[0], q) == Bare ==> !GlobChar(s[0]) && (s[0] == '~' ==> !edge)
  {
    LiteralTail(s, q, n, if n == 2 then q else After(s[0], q), edge);
    if n == 2 { assert Classes(s, q)[1] == Escaped; }
  }

  lemma {:induction false} LiteralWords(s: string, q: Quote, edge: bool, w: Pending)
    requires Literal(s, q, edge) && LiteralPending(w) && (w.NoWord? ==> edge && q == Bare)
    requires NoName(s, q)
    ensures LiteralAll(Lex(s, q, w))
    decreases |s|, 1
  {
    if s == "" {
    } else if q != Single && s[0] == '\\' {
      if |s| > 1 { LiteralPair(s, q, edge, w); }
      else if q == Double { assert Lex(s[1..], Double, Add(w, Ch('\\', true))) == Refused; }
    } else {
      LiteralStep(s, q, edge, 1);
      if s[0] == '$' && q != Single {
        HeadNameless(s, q);
        DollarRefused(s, q, w);
      }
      NoNameTail(s, q, 1, After(s[0], q));
      var p := if q == Bare && After(s[0], q) != Bare then Quotes else Ch(s[0], q != Bare);
      LiteralAdd(w, p);
      if q == Bare && IsBlank(s[0]) {
        LiteralWords(s[1..], Bare, true, NoWord);
      } else if s[0] != '$' || q == Single {
        var closing := q != Bare && After(s[0], q) == Bare;
        LiteralWords(s[1..], After(s[0], q), EdgeAfter(s, q, 1, edge), if closing then w else Add(w, p));
      }
    }
  }

  lemma {:induction false} LiteralPair(s: string, q: Quote, edge: bool, w: Pending)
    requires |s| > 1 && q != Single && s[0] == '\\'
    requires Literal(s, q, edge) && LiteralPending(w) && (w.NoWord? ==> edge && q == Bare) && NoName(s, q)
    ensures LiteralAll(Lex(s, q, w))
    decreases |s|, 0
  {
    LiteralStep(s, q, edge, 2);
    NoNameTail(s, q, 2, q);
    LiteralAdd(w, Ch(s[1], true));
    if s[1] == '\n' {
      LiteralWords(s[2..], q, true, w);
    } else if q == Bare || Special(s[1]) {
      LiteralWords(s[2..], q, true, Add(w, Ch(s[1], true)));
    } else {
      var w1 := Add(w, Ch('\\', true));
      LiteralAdd(w, Ch('\\', true));
      LiteralAdd(w1, Ch(s[1], true));
      LiteralWords(s[2..], q, true, Add(w1, Ch(s[1], true)));
      assert s[1..][1..] == s[2..];
      assert Lex(s, Double, w) == Lex(s[1..], Double, w1) == Lex(s[2..], Double, Add(w1, Ch(s[1], true)));
    }
  }

  // ---------------------------------------------------------------- shlex against the shell

  /** The text holds none of what the two readings treat differently: a `$` the shell acts on, an
      unquoted parenthesis, a comment, a backslash before a newline, and, inside double quotes, a
      backslash before a `$` or a backquote. start says that no word is begun. */
  predicate SameReading(s: string, q: Quote, start: bool)
    decreases |s|
  {
    if s == "" then true
    else if q != Single && s[0] == '\\' then
      && (|s| > 1 ==> s[1] != '\n' && (q == Double ==> s[1] != '$' && s[1] != '`'))
      && (|s| > 1 ==> SameReading(s[2..], q, false))
    else
      && (q == Bare ==> s[0] != '(' && s[0] != ')' && (s[0] == '#' ==> !start))
      && (s[0] == '$' ==> q == Single)
      && SameReading(s[1..], After(s[0], q), q == Bare && IsBlank(s[0]))
  }

  /** What certification leaves of a text: no active operator or return, no active parameter name,
      no backquote at all. */
  predicate Quiet(s: string, q: Quote) {
    && NoName(s, q) && '`' !in s
    && forall i :: 0 <= i < |s| && Classes(s, q)[i] == Active ==> !OperatorChar(s[i])
  }

  lemma QuietTail(s: string, q: Quote, n: nat, q': Quote)
    requires Quiet(s, q) && n <= |s| && Classes(s, q)[n..] == Classes(s[n..], q')
    ensures Quiet(s[n..], q')
  {
    NoNameTail(s, q, n, q');
    forall i | 0 <= i < |s[n..]| ensures Classes(s[n..], q')[i] == Classes(s, q)[n+i] {
      assert Classes(s[n..], q')[i] == Classes(s, q)[n..][i];
    }
  }

  lemma {:induction false} RenderAdd(w: seq<Part>, p: Part, vars: string -> string)
    ensures Render(w + [p], vars) == Render(w, vars) + Render([p], vars)
    decreases |w|
  {
    if w == [] {
      assert w + [p] == [p];
    } else {
      RenderAdd(w[1..], p, vars);
      assert (w + [p])[0] == w[0] && (w + [p])[1..] == w[1..] + [p];
      var head := match w[0] case Ch(c, _) => [c] case Param(name, _) => vars(name) case Quotes => "";
      assert head + (Render(w[1..], vars) + Render([p], vars)) == head + Render(w[1..], vars) + Render([p], vars);
    }
  }

  function TextOf(w: Pending, vars: string -> string): Token {
    if w.Begun? then Token(Render(w.parts, vars)) else NoToken
  }

  lemma TextAdd(w: Pending, p: Part, vars: string -> string)
    requires !p.Param?
    ensures TextOf(Add(w, p), vars) == Extend(TextOf(w, vars), if p.Ch? then [p.c] else "")
  {
    RenderAdd(if w.Begun? then w.parts else [], p, vars);
    assert [p][1..] == [];
  }

  predicate SameWords(l: Lexed, t: Tokens, vars: string -> string) {
    t.Tokens? ==> l.Words? && RenderAll(l.ws, vars) == t.ts
  }

  lemma SameFinish(w: Pending, l: Lexed, t: Tokens, vars: string -> string)
    requires SameWords(l, t, vars)
    ensures SameWords(Finish(w, l), Emit(TextOf(w, vars), t), vars)
  {
    if l.Words? && w.Begun? {
      assert RenderAll([w.parts] + l.ws, vars) == [Render(w.parts, vars)] + RenderAll(l.ws, vars);
    }
  }

  lemma {:induction false} SameTokens(s: string, q: Quote, w: Pending, vars: string -> string)
    requires Quiet(s, q) && SameReading(s, q, w.NoWord?) && (q != Bare ==> w.Begun?)
    ensures SameWords(Lex(s, q, w), Shlex(s, q, TextOf(w, vars)), vars)
    decreases |s|, 1
  {
    if s == "" {
      if q == Bare { SameFinish(w, Words([]), Tokens([]), vars); }
    } else if q != Single && s[0] == '\\' {
      if |s| > 1 { SamePair(s, q, w, vars); }
    } else {
      QuietTail(s, q, 1, After(s[0], q));
      assert s[0] in s;
      var p := if q == Bare && After(s[0], q) != Bare then Quotes else Ch(s[0], q != Bare);
      TextAdd(w, p, vars);
      if q == Bare && IsBlank(s[0]) {
        SameTokens(s[1..], Bare, NoWord, vars);
        SameFinish(w, Lex(s[1..], Bare, NoWord), Shlex(s[1..], Bare, NoToken), vars);
      } else {
        var closing := q != Bare && After(s[0], q) == Bare;
        SameTokens(s[1..], After(s[0], q), if closing then w else Add(w, p), vars);
      }
    }
  }

  lemma {:induction false} SamePair(s: string, q: Quote, w: Pending, vars: string -> string)
    requires |s| > 1 && q != Single && s[0] == '\\'
    requires Quiet(s, q) && SameReading(s, q, w.NoWord?) && (q != Bare ==> w.Begun?)
    ensures SameWords(Lex(s, q, w), Shlex(s, q, TextOf(w, vars)), vars)
    decreases |s|, 0
  {
    QuietTail(s, q, 2, q);
    TextAdd(w, Ch(s[1], true), vars);
    if q == Bare || Special(s[1]) {
      SameTokens(s[2..], q, Add(w, Ch(s[1], true)), vars);
    } else {
      var w1 := Add(w, Ch('\\', true));
      TextAdd(w, Ch('\\', true), vars);
      TextAdd(w1, Ch(s[1], true), vars);
      var text := TextOf(w, vars).text;
      assert text + ['\\', s[1]] == (text + ['\\']) + [s[1]];
      SameTokens(s[2..], Double, Add(w1, Ch(s[1], true)), vars);
      assert s[1..][1..] == s[2..];
      assert s[1] in s;
      assert Lex(s, Double, w) == Lex(s[1..], Double, w1) == Lex(s[2..], Double, Add(w1, Ch(s[1], true)));
    }
  }

  // Where the readings differ shlex always keeps more text than the shell.

  function Total(ts: seq<string>): nat { if ts == [] then 0 else |ts[0]| + Total(ts[1..]) }

  function Size(t: Token): nat { if t.Token? then |t.text| else 0 }

  predicate Exceeds(t: Tokens, l: Lexed, gap: int, vars: string -> string) {
    t.Tokens? && l.Words? ==> Total(t.ts) >= Total(RenderAll(l.ws, vars)) + gap
  }

  lemma ExceedsFinish(t: Token, w: Pending, ts: Tokens, l: Lexed, gap: int, vars: string -> string)
    requires Exceeds(ts, l, gap, vars) && (w.Begun? ==> t.Token?)
    ensures Exceeds(Emit(t, ts), Finish(w, l), gap + Size(t) - Size(TextOf(w, vars)), vars)
  {
    if ts.Tokens? && t.Token? { assert ([t.text] + ts.ts)[1..] == ts.ts; }
    if l.Words? && w.Begun? {
      var all := RenderAll([w.parts] + l.ws, vars);
      assert all == [Render(w.parts, vars)] + RenderAll(l.ws, vars);
      assert all[1..] == RenderAll(l.ws, vars);
    }
  }

  lemma {:induction false} ShlexKeeps(s: string, q: Quote, t: Token)
    ensures Shlex(s, q, t).Tokens? ==> Total(Shlex(s, q, t).ts) >= Size(t)
    decreases |s|
  {
    if s == "" {
    } else if q != Single && s[0] == '\\' {
      if |s| > 1 {
        ShlexKeeps(s[2..], q, Extend(t, if q == Bare || s[1] == '"' || s[1] == '\\' then [s[1]] else ['\\', s[1]]));
      }
    } else if q == Bare && ShlexSpace(s[0]) {
      var r := Shlex(s[1..], Bare, NoToken);
      if r.Tokens? && t.Token? { assert ([t.text] + r.ts)[1..] == r.ts; }
    } else {
      ShlexKeeps(s[1..], After(s[0], q),
        if After(s[0], q) != q then (if q == Bare then Extend(t, "") else t) else Extend(t, [s[0]]));
    }
  }

  lemma ExceedsHash(s: string, w: Pending, t: Token, vars: string -> string)
    requires s != "" && s[0] == '#' && w.NoWord?
    ensures Exceeds(Shlex(s, Bare, t), Lex(s, Bare, w), Size(t) + 1, vars)
  {
    ShlexKeeps(s[1..], Bare, Extend(t, [s[0]]));
    assert Lex(s, Bare, w) == if '\n' in s then Refused else Words([]);
  }

  /** How much longer shlex's tokens are: at least what is already pending, and strictly more once a
      difference is met. */
  lemma {:induction false} ShlexExceeds(s: string, q: Quote, w: Pending, t: Token, vars: string -> string)
    requires Quiet(s, q) && (q != Bare ==> w.Begun?) && (w.Begun? ==> t.Token?)
    ensures Exceeds(Shlex(s, q, t), Lex(s, q, w), Size(t) - Size(TextOf(w, vars)), vars)
    ensures !SameReading(s, q, w.NoWord?) ==>
            Exceeds(Shlex(s, q, t), Lex(s, q, w), Size(t) - Size(TextOf(w, vars)) + 1, vars)
    decreases |s|, 1
  {
    if s == "" {
      if q == Bare { ExceedsFinish(t, w, Tokens([]), Words([]), 0, vars); }
    } else if q != Single && s[0] == '\\' {
      if |s| > 1 { ExceedsPair(s, q, w, t, vars); }
    } else if q == Bare && s[0] == '#' && w.NoWord? {
      ExceedsHash(s, w, t, vars);
    } else if s[0] == '$' && q != Single {
      HeadNameless(s, q);
      DollarRefused(s, q, w);
    } else {
      ExceedsOne(s, q, w, t, vars);
    }
  }

  lemma {:induction false} ExceedsOne(s: string, q: Quote, w: Pending, t: Token, vars: string -> string)
    requires s != "" && !(q != Single && s[0] == '\\') && !(s[0] == '$' && q != Single)
    requires !(q == Bare && s[0] == '#' && w.NoWord?)
    requires Quiet(s, q) && (q != Bare ==> w.Begun?) && (w.Begun? ==> t.Token?)
    ensures Exceeds(Shlex(s, q, t), Lex(s, q, w), Size(t) - Size(TextOf(w, vars)), vars)
    ensures !SameReading(s, q, w.NoWord?) ==>
            Exceeds(Shlex(s, q, t), Lex(s, q, w), Size(t) - Size(TextOf(w, vars)) + 1, vars)
    decreases |s|, 0
  {
    QuietTail(s, q, 1, After(s[0], q));
    assert s[0] in s;
    var p := if q == Bare && After(s[0], q) != Bare then Quotes else Ch(s[0], q != Bare);
    TextAdd(w, p, vars);
    if q == Bare && IsBlank(s[0]) {
      ShlexExceeds(s[1..], Bare, NoWord, NoToken, vars);
      ExceedsBlank(s, w, t, vars);
    } else if !(q == Bare && IsOperator(s[0])) {
      var closing := q != Bare && After(s[0], q) == Bare;
      ShlexExceeds(s[1..], After(s[0], q), if closing then w else Add(w, p),
        if closing then t else Extend(t, if p.Ch? then [p.c] else ""), vars);
    }
  }

  lemma ExceedsBlank(s: string, w: Pending, t: Token, vars: string -> string)
    requires s != "" && IsBlank(s[0]) && (w.Begun? ==> t.Token?)
    requires Exceeds(Shlex(s[1..], Bare, NoToken), Lex(s[1..], Bare, NoWord), 0, vars)
    requires !SameReading(s[1..], Bare, true) ==>
             Exceeds(Shlex(s[1..], Bare, NoToken), Lex(s[1..], Bare, NoWord), 1, vars)
    ensures Exceeds(Shlex(s, Bare, t), Lex(s, Bare, w), Size(t) - Size(TextOf(w, vars)), vars)
    ensures !SameReading(s, Bare, w.NoWord?) ==>
            Exceeds(Shlex(s, Bare, t), Lex(s, Bare, w), Size(t) - Size(TextOf(w, vars)) + 1, vars)
  {
    var same := SameReading(s[1..], Bare, true);
    ExceedsFinish(t, w, Shlex(s[1..], Bare, NoToken), Lex(s[1..], Bare, NoWord), if same then 0 else 1, vars);
  }

  lemma {:induction false} ExceedsPair(s: string, q: Quote, w: Pending, t: Token, vars: string -> string)
    requires |s| > 1 && q != Single && s[0] == '\\'
    requires Quiet(s, q) && (q != Bare ==> w.Begun?) && (w.Begun? ==> t.Token?)
    ensures Exceeds(Shlex(s, q, t), Lex(s, q, w), Size(t) - Size(TextOf(w, vars)), vars)
    ensures !SameReading(s, q, w.NoWord?) ==>
            Exceeds(Shlex(s, q, t), Lex(s, q, w), Size(t) - Size(TextOf(w, vars)) + 1, vars)
    decreases |s|, 0
  {
    QuietTail(s, q, 2, q);
    TextAdd(w, Ch(s[1], true), vars);
    assert s[1] in s;
    var t2 := Extend(t, if q == Bare || s[1] == '"' || s[1] == '\\' then [s[1]] else ['\\', s[1]]);
    if s[1] == '\n' {
      ShlexExceeds(s[2..], q, w, t2, vars);
    } else if q == Bare || Special(s[1]) {
      ShlexExceeds(s[2..], q, Add(w, Ch(s[1], true)), t2, vars);
    } else {
      var w1 := Add(w, Ch('\\', true));
      TextAdd(w, Ch('\\', true), vars);
      TextAdd(w1, Ch(s[1], true), vars);
      ShlexExceeds(s[2..], Double, Add(w1, Ch(s[1], true)), t2, vars);
      assert s[1..][1..] == s[2..];
      assert Lex(s, Double, w) == Lex(s[1..], Double, w1) == Lex(s[2..], Double, Add(w1, Ch(s[1], true)));
    }
  }

  // ---------------------------------------------------------------- main results

  /** Lobster's values for the references replaced by the text `1`, the rest of each name kept. */
  function Placeholder(): string -> string { name => "1" + Tail(name) }

  lemma {:induction false} RenderConcat(a: seq<Part>, b: seq<Part>, vars: string -> string)
    ensures Render(a + b, vars) == Render(a, vars) + Render(b, vars)
    decreases |b|
  {
    if b == [] {
      assert a + b == a;
    } else {
      RenderAdd(a, b[0], vars);
      RenderConcat(a + [b[0]], b[1..], vars);
      RenderConcat([b[0]], b[1..], vars);
      assert a + b == a + [b[0]] + b[1..] && b == [b[0]] + b[1..];
    }
  }

  lemma {:induction false} RenderChars(t: string, vars: string -> string)
    ensures Render(Chars(t), vars) == t
    decreases |t|
  {
    if t != "" {
      RenderChars(t[1..], vars);
      assert Chars(t)[1..] == Chars(t[1..]);
    }
  }

  lemma {:induction false} RenderOnes(w: seq<Part>, vars: string -> string)
    ensures Render(Ones(w), vars) == Render(w, Placeholder())
    decreases |w|
  {
    if w != [] {
      RenderOnes(w[1..], vars);
      RenderConcat(One(w[0]), Ones(w[1..]), vars);
      if w[0].Param? { RenderChars("1" + Tail(w[0].name), vars); } else { assert [w[0]][1..] == []; }
    }
  }

  lemma {:induction false} NamesKept(s: string, q: Quote, i: nat)
    requires i + 1 < |s| && s[i] == '$' && NameStart(s[i+1]) && Kept(Classes(s, q)[i], true)
    ensures Kept(Classes(s, q)[i+1], true)
    decreases |s|
  {
    if q != Single && s[0] == '\\' {
      if i >= 2 { NamesKept(s[2..], q, i - 2); }
    } else if i > 0 {
      NamesKept(s[1..], After(s[0], q), i - 1);
    }
  }

  lemma CertifiedFacts(command: string, wrappers: set<string>)
    requires Certified(command, wrappers)
    ensures Sanitized(command) == Substitute(command)
    ensures Bounded(command, Bare)
    ensures Quiet(Substitute(command), Bare) && Literal(Substitute(command), Bare, true)
  {
    var text := Substitute(command);
    NoStepsKept(command);
    forall i | 0 <= i < |command| ensures QuotedAt(command, Bare, i) { assert !UnquotedAt(command, i); }
    forall i | 0 <= i < |text| ensures NamelessAt(text, Bare, i) {
      assert !NameAt(Visible(text, Bare, true), i);
      if i + 1 < |text| && text[i] == '$' && NameStart(text[i+1]) && Kept(Classes(text, Bare)[i], true) {
        NamesKept(text, Bare, i);
      }
    }
    NewlineKept(command, '`');
    CertifiedLiteral(command, wrappers);
  }

  lemma CertifiedLiteral(command: string, wrappers: set<string>)
    requires Certified(command, wrappers) && Sanitized(command) == Substitute(command)
    ensures Literal(Substitute(command), Bare, true)
    ensures forall i :: 0 <= i < |Substitute(command)| && Classes(Substitute(command), Bare)[i] == Active ==>
              !OperatorChar(Substitute(command)[i])
  {
    var text := Substitute(command);
    forall i | 0 <= i < |text| && Classes(text, Bare)[i] == Active
      ensures Visible(text, Bare, false)[i] == text[i]
    {
    }
    forall i | 0 <= i < |text| && Classes(text, Bare)[i] == Active && text[i] == '~'
      ensures i > 0 && !ReSpace(Visible(text, Bare, false)[i-1])
    {
      assert !TildeAt(Visible(text, Bare, false), i);
    }
  }

  lemma WordsSafe(command: string, wrappers: set<string>)
    requires Certified(command, wrappers)
    requires Lex(command, Bare, NoWord).Words?
    ensures Lex(Substitute(command), Bare, NoWord) == Words(OnesEach(Lex(command, Bare, NoWord).ws))
    ensures forall k :: 0 <= k < |Lex(command, Bare, NoWord).ws| ==>
              SafeWord(Lex(command, Bare, NoWord).ws[k]) && SafeWord(Ones(Lex(command, Bare, NoWord).ws[k]))
  {
    var ws := Lex(command, Bare, NoWord).ws;
    CertifiedFacts(command, wrappers);
    Simulate(command, Bare, NoWord);
    ParamsQuoted(command, Bare, NoWord);
    LiteralWords(Substitute(command), Bare, true, NoWord);
    forall k | 0 <= k < |ws| ensures SafeWord(ws[k]) && SafeWord(Ones(ws[k])) {
      assert LiteralWord(OnesEach(ws)[k]) && KeepsCell(ws[k]);
      SafeFromOnes(ws[k]);
    }
  }

  lemma {:induction false} OnesHold(w: seq<Part>, i: nat)
    requires i < |w| && !w[i].Param?
    ensures w[i] in Ones(w)
    decreases |w|
  {
    if i > 0 {
      assert w[1..][i-1] == w[i];
      OnesHold(w[1..], i - 1);
    }
  }

  lemma {:induction false} OnesPlain(w: seq<Part>, k: nat)
    requires k < |Ones(w)|
    ensures !Ones(w)[k].Param?
    decreases |w|
  {
    if k >= |One(w[0])| {
      OnesPlain(w[1..], k - |One(w[0])|);
    }
  }

  lemma SafeFromOnes(w: seq<Part>)
    requires LiteralWord(Ones(w)) && KeepsCell(w)
    ensures SafeWord(w) && SafeWord(Ones(w))
  {
    if !w[0].Param? { assert Ones(w)[0] == w[0]; }
    forall i | 0 <= i < |w| ensures SafePart(w[i]) {
      if !w[i].Param? {
        OnesHold(w, i);
        var k :| 0 <= k < |Ones(w)| && Ones(w)[k] == w[i];
      }
    }
    forall k | 0 <= k < |Ones(w)| ensures SafePart(Ones(w)[k]) && !Ones(w)[k].Param? { OnesPlain(w, k); }
    assert !Ones(w)[0].Param?;
  }

  /** Argument boundaries do not depend on what the references hold. For a command without findings
      either the shell's reading stops at an operator, a syntax error or a `$` that starts no name,
      in the command and in the scanned text alike, or there is one fixed list of words such that,
      for every value of every variable and every behaviour of tilde and pathname expansion, each
      word is exactly one argument, with the values spliced in verbatim; and the text the validator
      scans has the same words with each reference read as `1`. */
  lemma BoundariesFixed(command: string, wrappers: set<string>, env: Env)
    requires Certified(command, wrappers)
    ensures match Lex(command, Bare, NoWord)
      case Refused => Shell(command, env) == NotSimple == Shell(Sanitized(command), env)
      case Words(ws) =>
        && Shell(command, env) == Args(RenderAll(ws, env.vars))
        && Shell(Sanitized(command), env) == Args(RenderAll(ws, Placeholder()))
  {
    CertifiedFacts(command, wrappers);
    Simulate(command, Bare, NoWord);
    if Lex(command, Bare, NoWord).Words? {
      var ws := Lex(command, Bare, NoWord).ws;
      WordsSafe(command, wrappers);
      OneFieldEach(ws, env);
      OneFieldEach(OnesEach(ws), env);
      forall k | 0 <= k < |ws| ensures RenderAll(OnesEach(ws), env.vars)[k] == RenderAll(ws, Placeholder())[k] {
        RenderOnes(ws[k], env.vars);
      }
      assert RenderAll(OnesEach(ws), env.vars) == RenderAll(ws, Placeholder());
    }
  }

  /** The tokens on which the validator decides are the arguments the shell builds from the scanned
      text exactly when SameReading holds of it. */
  lemma TokensAreArguments(command: string, wrappers: set<string>, env: Env)
    requires Certified(command, wrappers)
    ensures Shell(Sanitized(command), env) == Args(Shlex(Sanitized(command), Bare, NoToken).ts)
            <==> SameReading(Sanitized(command), Bare, true)
  {
    var text := Substitute(command);
    CertifiedFacts(command, wrappers);
    BoundariesFixed(command, wrappers, env);
    if SameReading(text, Bare, true) {
      SameTokens(text, Bare, NoWord, env.vars);
      WordsSafeText(command, wrappers, env);
    } else if Lex(text, Bare, NoWord).Words? {
      ShlexExceeds(text, Bare, NoWord, NoToken, env.vars);
      WordsSafeText(command, wrappers, env);
    }
  }

  lemma WordsSafeText(command: string, wrappers: set<string>, env: Env)
    requires Certified(command, wrappers)
    requires Lex(Substitute(command), Bare, NoWord).Words?
    ensures Shell(Substitute(command), env) == Args(RenderAll(Lex(Substitute(command), Bare, NoWord).ws, env.vars))
  {
    CertifiedFacts(command, wrappers);
    Simulate(command, Bare, NoWord);
    WordsSafe(command, wrappers);
    OneFieldEach(Lex(Substitute(command), Bare, NoWord).ws, env);
  }

  lemma {:induction false} ParamShows(w: seq<Part>, i: nat)
    requires i < |w| && w[i].Param?
    ensures '1' in Render(w, Placeholder())
    decreases |w|
  {
    if i > 0 {
      ParamShows(w[1..], i - 1);
    } else {
      assert Render(w, Placeholder())[0] == '1';
    }
  }

  lemma {:induction false} NoParamFixed(w: seq<Part>, vars: string -> string)
    requires forall i :: 0 <= i < |w| ==> !w[i].Param?
    ensures Render(w, vars) == Render(w, Placeholder())
    decreases |w|
  {
    if w != [] { NoParamFixed(w[1..], vars); }
  }

  lemma NoPlaceholder(w: seq<Part>, vars: string -> string)
    requires '1' !in Render(w, Placeholder())
    ensures Render(w, vars) == Render(w, Placeholder())
  {
    forall i | 0 <= i < |w| ensures !w[i].Param? {
      if w[i].Param? { ParamShows(w, i); }
    }
    NoParamFixed(w, vars);
  }

  /** What the option and executable checks rest on: under SameReading the shell passes one argument
      per token, the first is the reviewed wrapper, and every token without the placeholder reaches
      the program unchanged, whatever the references hold. */
  lemma ArgumentsMatchTokens(command: string, wrappers: set<string>, env: Env)
    requires Certified(command, wrappers)
    requires SameReading(Sanitized(command), Bare, true)
    requires forall name :: name in wrappers ==> '1' !in name
    ensures Shell(command, env).Args?
    ensures var tokens := Shlex(Sanitized(command), Bare, NoToken).ts;
            var fields := Shell(command, env).fields;
      && |fields| == |tokens| && fields[0] == tokens[0] && fields[0] in wrappers
      && forall k :: 0 <= k < |tokens| && '1' !in tokens[k] ==> fields[k] == tokens[k]
  {
    BoundariesFixed(command, wrappers, env);
    TokensAreArguments(command, wrappers, env);
    var ws := Lex(command, Bare, NoWord).ws;
    var tokens := Shlex(Sanitized(command), Bare, NoToken).ts;
    assert tokens == RenderAll(ws, Placeholder());
    forall k | 0 <= k < |tokens| && '1' !in tokens[k] ensures Render(ws[k], env.vars) == tokens[k] {
      NoPlaceholder(ws[k], env.vars);
    }
  }

  // ---------------------------------------------------------------- what a command without findings reaches

  lemma {:induction false} OptionNamePrefix(t: string)
    ensures OptionName(t) <= t && ("--" <= t ==> "--" <= OptionName(t))
    decreases |t|
  {
    if t != "" && t[0] != '=' {
      OptionNamePrefix(t[1..]);
      assert t == [t[0]] + t[1..];
      if "--" <= t {
        assert t[1] == '-' && OptionName(t[1..])[0] == '-';
      }
    }
  }

  lemma OptionCons(c: char, t: string)
    ensures OptionName([c] + t) == if c == '=' then "" else [c] + OptionName(t)
  {
    assert ([c] + t)[1..] == t;
  }

  lemma ParamNamed(w: seq<Part>)
    requires w != [] && w[0].Param?
    ensures '1' in OptionName(Render(w, Placeholder()))
  {
    OneNamed(Tail(w[0].name), Render(w[1..], Placeholder()));
  }

  lemma OneNamed(a: string, b: string)
    ensures '1' in OptionName("1" + a + b)
  {
    assert "1" + a + b == ['1'] + (a + b);
    OptionCons('1', a + b);
    assert OptionName("1" + a + b)[0] == '1';
  }

  /** An option name the scanned text shows without a placeholder is the name the program gets. */
  lemma {:induction false} OptionNameKept(w: seq<Part>, vars: string -> string)
    requires '1' !in OptionName(Render(w, Placeholder()))
    ensures OptionName(Render(w, vars)) == OptionName(Render(w, Placeholder()))
    decreases |w|
  {
    if w != [] {
      match w[0]
      case Quotes =>
        assert Render(w, Placeholder()) == Render(w[1..], Placeholder()) && Render(w, vars) == Render(w[1..], vars);
        OptionNameKept(w[1..], vars);
      case Param(_, _) => ParamNamed(w);
      case Ch(c, _) =>
        OptionCons(c, Render(w[1..], vars));
        OptionCons(c, Render(w[1..], Placeholder()));
        if c != '=' {
          InConcat([c], OptionName(Render(w[1..], Placeholder())), '1');
          OptionNameKept(w[1..], vars);
        }
    }
  }

  /** The part of the validator's token before its first equals sign, when it holds no placeholder, is
      that of the argument, and an option if the argument starts with two dashes. */
  ghost predicate OptionReached(field: string, token: string, options: set<string>) {
    forall name :: L.BeforeEquals(token, name) && '1' !in name ==>
      L.BeforeEquals(field, name) && ("--" <= field ==> name in options)
  }

  lemma FieldNamed(w: seq<Part>, vars: string -> string, options: set<string>)
    requires OptionKnown(Render(w, Placeholder()), options)
    ensures OptionReached(Render(w, vars), Render(w, Placeholder()), options)
  {
    var field, token := Render(w, vars), Render(w, Placeholder());
    forall name | L.BeforeEquals(token, name) && '1' !in name
      ensures L.BeforeEquals(field, name) && ("--" <= field ==> name in options)
    {
      L.OptionNameMeans(token, name);
      OptionNameKept(w, vars);
      L.OptionNameMeans(field, name);
      OptionNamePrefix(field);
      OptionNamePrefix(token);
    }
  }

  /** What the certificate is for: under SameReading a command without findings runs, whatever the
      references hold, a reviewed wrapper with a command it permits and with options of that command. */
  lemma CommandReached(command: string, v: Surface, env: Env)
    requires NoFinding(command, v) && SameReading(Sanitized(command), Bare, true)
    requires forall name :: name in v.wrappers || name in v.options ==> '1' !in name
    ensures Shell(command, env).Args?
    ensures var tokens := Shlex(Sanitized(command), Bare, NoToken).ts;
            var fields := Shell(command, env).fields;
      && |fields| == |tokens| > 1 && fields[0] in v.wrappers && v.executable(fields[0])
      && fields[0] in v.permitted && fields[1] in v.permitted[fields[0]] && fields[1] in v.options
      && forall k :: 2 <= k < |fields| ==> OptionReached(fields[k], tokens[k], v.options[fields[1]])
  {
    BoundariesFixed(command, v.wrappers, env);
    TokensAreArguments(command, v.wrappers, env);
    ArgumentsMatchTokens(command, v.wrappers, env);
    var ws := Lex(command, Bare, NoWord).ws;
    var tokens := Shlex(Sanitized(command), Bare, NoToken).ts;
    assert tokens == RenderAll(ws, Placeholder());
    forall k | 2 <= k < |tokens| ensures OptionReached(Render(ws[k], env.vars), tokens[k], v.options[tokens[1]]) {
      FieldNamed(ws[k], env.vars, v.options[tokens[1]]);
    }
  }

  // ---------------------------------------------------------------- no finding, yet not SameReading

  predicate Flat(s: string) { forall i :: 0 <= i < |s| ==> Neutral(s[i]) && s[i] != '$' }

  lemma {:induction false} FlatText(s: string)
    requires Flat(s)
    ensures Substitute(s) == s && !HasStepRef(s)
    ensures forall i :: 0 <= i < |s| ==> Classes(s, Bare)[i] == Active
    decreases |s|
  {
    if s != "" {
      assert Neutral(s[0]);
      FlatText(s[1..]);
    }
  }

  /** A character that neither lexer treats specially. */
  predicate PlainChar(c: char) {
    && Neutral(c) && c != '$' && c != '#' && c != '`' && c != '~'
    && !ReSpace(c) && !ShlexSpace(c) && !IsBlank(c) && !IsOperator(c) && !GlobChar(c)
  }

  predicate Plain(x: string) { forall i :: 0 <= i < |x| ==> PlainChar(x[i]) }

  /** A path or a command name written plainly. */
  predicate PlainName(x: string) { x != "" && Plain(x) && x[0] != '-' && '.' !in x }

  function Raws(x: string): (r: seq<Part>)
    ensures |r| == |x| && forall i :: 0 <= i < |x| ==> r[i] == Ch(x[i], false)
  {
    seq(|x|, i requires 0 <= i < |x| => Ch(x[i], false))
  }

  lemma {:induction false} ShlexPlain(x: string, rest: string, t: Token)
    requires Plain(x) && x != ""
    ensures Shlex(x + rest, Bare, t) == Shlex(rest, Bare, Extend(t, x))
    decreases |x|
  {
    assert PlainChar(x[0]);
    assert (x + rest)[1..] == x[1..] + rest;
    if |x| > 1 {
      ShlexPlain(x[1..], rest, Extend(t, [x[0]]));
      assert Extend(Extend(t, [x[0]]), x[1..]).text == Extend(t, x).text by {
        assert x == [x[0]] + x[1..];
        Regrouped(if t.Token? then t.text else "", [x[0]], x[1..]);
      }
    } else {
      assert x[1..] + rest == rest && x == [x[0]];
    }
  }

  lemma PlainStep(s: string, w: Pending)
    requires s != "" && PlainChar(s[0])
    ensures Lex(s, Bare, w) == Lex(s[1..], Bare, Add(w, Ch(s[0], false)))
  {
    assert Lex(s, Bare, w) == LexBare(s, w);
  }

  lemma {:induction false} LexPlain(x: string, rest: string, w: Pending)
    requires Plain(x) && x != ""
    ensures Lex(x + rest, Bare, w) == Lex(rest, Bare, Append(w, Raws(x)))
    decreases |x|
  {
    var next := Add(w, Ch(x[0], false));
    assert PlainChar(x[0]);
    PlainStep(x + rest, w);
    assert (x + rest)[1..] == x[1..] + rest;
    if |x| > 1 {
      LexPlain(x[1..], rest, next);
      assert next.parts + Raws(x[1..]) == (if w.Begun? then w.parts else []) + Raws(x);
    } else {
      assert x[1..] + rest == rest && Raws(x) == [Ch(x[0], false)];
    }
  }

  lemma {:induction false} RenderRaws(x: string, vars: string -> string)
    ensures Render(Raws(x), vars) == x
    decreases |x|
  {
    if x != "" {
      RenderRaws(x[1..], vars);
      assert Raws(x)[1..] == Raws(x[1..]);
    }
  }

  lemma RawsSafe(x: string)
    requires Plain(x) && x != ""
    ensures SafeWord(Raws(x))
  {
    assert PlainChar(x[0]) && !Raws(x)[0].Param?;
    forall i | 0 <= i < |x| ensures SafePart(Raws(x)[i]) { assert PlainChar(x[i]); }
  }

  /** The wrapper and the command, and a comment after them. */
  function Commented(w: string, c: string): string { w + (" " + (c + " #")) }

  lemma CommentTokens(w: string, c: string)
    requires PlainName(w) && PlainName(c)
    ensures Shlex(Commented(w, c), Bare, NoToken) == Tokens([w, c, "#"])
  {
    ShlexPlain(w, " " + (c + " #"), NoToken);
    assert (" " + (c + " #"))[1..] == c + " #";
    ShlexPlain(c, " #", NoToken);
    assert " #"[1..] == "#" && "#"[1..] == "" && "" + w == w && "" + c == c && "" + ['#'] == "#";
    assert Shlex("#", Bare, NoToken) == Tokens(["#"]);
    assert Shlex(" #", Bare, Token(c)) == Emit(Token(c), Shlex("#", Bare, NoToken));
    assert Shlex(" " + (c + " #"), Bare, Token(w)) == Emit(Token(w), Shlex(c + " #", Bare, NoToken));
    assert [w] + ([c] + ["#"]) == [w, c, "#"];
  }

  lemma LexBlank(s: string, w: Pending)
    ensures Lex(" " + s, Bare, w) == Finish(w, Lex(s, Bare, NoWord))
  {
    assert (" " + s)[1..] == s;
  }

  lemma CommentLexed(w: string, c: string)
    requires PlainName(w) && PlainName(c)
    ensures Lex(Commented(w, c), Bare, NoWord) == Words([Raws(w), Raws(c)])
  {
    LexPlain(w, " " + (c + " #"), NoWord);
    LexBlank(c + " #", Append(NoWord, Raws(w)));
    LexPlain(c, " #", NoWord);
    LexBlank("#", Append(NoWord, Raws(c)));
    assert " " + "#" == " #";
    assert Lex("#", Bare, NoWord) == Words([]);
    assert [] + Raws(w) == Raws(w) && [] + Raws(c) == Raws(c);
    assert [Raws(c)] + [] == [Raws(c)] && [Raws(w)] + [Raws(c)] == [Raws(w), Raws(c)];
  }

  lemma CommentShell(w: string, c: string, env: Env)
    requires PlainName(w) && PlainName(c)
    ensures Shell(Commented(w, c), env) == Args([w, c])
  {
    CommentLexed(w, c);
    RawsSafe(w);
    RawsSafe(c);
    OneFieldEach([Raws(w), Raws(c)], env);
    RenderRaws(w, env.vars);
    RenderRaws(c, env.vars);
    assert RenderAll([Raws(w), Raws(c)], env.vars) == [w, c];
  }

  /** Where a character of the commented text comes from. */
  lemma CommentChar(w: string, c: string, i: nat)
    requires PlainName(w) && PlainName(c) && i < |Commented(w, c)|
    ensures var s := Commented(w, c);
      && (PlainChar(s[i]) || s[i] == ' ' || s[i] == '#') && s[i] != '.'
      && (s[i] == '-' ==> i > 0 && PlainChar(s[i-1]))
  {
    var s, n := Commented(w, c), |w| + 1;
    if i < |w| {
      assert s[i] == w[i] && PlainChar(w[i]);
      if i > 0 { assert s[i-1] == w[i-1] && PlainChar(w[i-1]); }
    } else if n <= i < n + |c| {
      assert s[i] == c[i-n] && PlainChar(c[i-n]);
      if i > n { assert s[i-1] == c[i-n-1] && PlainChar(c[i-n-1]); }
    } else {
      assert i == |w| || s[i] == " #"[i-n-|c|];
    }
  }

  lemma OccursChar(t: string, s: string, i: nat, k: nat)
    requires k < |t|
    ensures OccursAt(t, s, i) ==> i + k < |s| && s[i+k] == t[k]
  {
    if OccursAt(t, s, i) { assert s[i..][k] == t[k]; }
  }

  lemma CommentScans(w: string, c: string, word: char -> bool)
    requires PlainName(w) && PlainName(c)
    ensures var s := Commented(w, c);
      Flat(s) && !HasSubstitution(s) && !HasBrace(s) && !HasInvoke(s) && !HasUnsafe(s, word)
    ensures forall i :: 0 <= i < |Commented(w, c)| ==>
      && !OperatorChar(Commented(w, c)[i]) && !GlobChar(Commented(w, c)[i]) && Commented(w, c)[i] != '~'
  {
    var s := Commented(w, c);
    forall i | 0 <= i < |s|
      ensures Neutral(s[i]) && s[i] != '$' && s[i] != '`' && s[i] != '~' && !OperatorChar(s[i]) && !GlobChar(s[i])
      ensures !SubstitutionAt(s, i) && !BraceAt(s, i)
    {
      CommentChar(w, c, i);
    }
    forall i | 0 <= i < |s| ensures !OccursAt(INVOKE, s, i) {
      OccursChar(INVOKE, s, i, 8);
      if i + 8 < |s| { CommentChar(w, c, i + 8); }
    }
    forall i | 0 <= i < |s| ensures !UnsafeAt(s, i, word) {
      CommentChar(w, c, i);
      OccursChar(UNSAFE, s, i, 0);
    }
  }

  lemma CommentCertified(w: string, c: string, v: Surface)
    requires PlainName(w) && PlainName(c) && w in v.wrappers
    ensures Sanitized(Commented(w, c)) == Commented(w, c) && Certified(Commented(w, c), v.wrappers)
  {
    var s := Commented(w, c);
    CommentScans(w, c, v.word);
    FlatText(s);
    NoStepsKept(s);
    CommentTokens(w, c);
    forall i | 0 <= i < |s| ensures !UnquotedAt(s, i) { assert s[i..][0] == s[i]; }
    assert forall i :: 0 <= i < |s| ==> Visible(s, Bare, true)[i] == s[i] == Visible(s, Bare, false)[i];
    assert Visible(s, Bare, true) == s == Visible(s, Bare, false);
  }

  /** A comment has no finding: after every wrapper and every command it permits, written plainly, the
      validator decides on three tokens while the shell passes two arguments. */
  lemma CommentAccepted(w: string, c: string, v: Surface, env: Env)
    requires PlainName(w) && PlainName(c) && Reviewed([w, c], v)
    ensures NoFinding(Commented(w, c), v)
    ensures Shlex(Sanitized(Commented(w, c)), Bare, NoToken) == Tokens([w, c, "#"])
    ensures Shell(Commented(w, c), env) == Args([w, c])
  {
    CommentCertified(w, c, v);
    CommentScans(w, c, v.word);
    CommentTokens(w, c);
    CommentShell(w, c, env);
    assert "#"[0] != "--"[0];
  }
}
