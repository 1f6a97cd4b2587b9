// What the validator accepts and refuses, said on the characters of a command.
module CommandLaws {
  import opened Quoting
  import opened Posix
  import opened WorkflowCommand

  // ---------------------------------------------------------------- options

  /** name is the part of the text before its first equals sign. */
  predicate BeforeEquals(t: string, name: string) {
    name <= t && '=' !in name && (|name| == |t| || t[|name|] == '=')
  }

  lemma {:induction false} OptionNameMeans(t: string, name: string)
    ensures BeforeEquals(t, name) <==> name == OptionName(t)
    decreases |t|
  {
    if t != "" && t[0] != '=' {
      if name != "" {
        OptionNameMeans(t[1..], name[1..]);
        assert t == [t[0]] + t[1..] && name == [name[0]] + name[1..];
      } else {
        assert |OptionName(t)| > 0;
      }
    } else if name != "" && t != "" && name <= t {
      assert name[0] == '=';
    }
  }

  lemma OptionKnownMeans(t: string, options: set<string>)
    ensures OptionKnown(t, options) <==> ("--" <= t ==> exists name :: name in options && BeforeEquals(t, name))
  {
    OptionNameMeans(t, OptionName(t));
    forall name | BeforeEquals(t, name) ensures name == OptionName(t) { OptionNameMeans(t, name); }
  }

  // ---------------------------------------------------------------- plain commands

  /** A command written in blanks, plain characters and double-quoted bounded references. */
  datatype Unit = Gap(c: char) | Plain(c: char) | Ref(name: string)

  predicate PlainCode(c: char) {
    || 'a' <= c <= 'z' || 'A' <= c <= 'Z' || '0' <= c <= '9'
    || c in {'-', '_', '/', '.', ',', ':', '=', '@', '%', '+'}
  }

  predicate UpperName(t: string) {
    && t != "" && 'A' <= t[0] <= 'Z'
    && forall i :: 0 <= i < |t| ==> 'A' <= t[i] <= 'Z' || '0' <= t[i] <= '9' || t[i] == '_'
  }

  /** The names of bounded references: LOBSTER_ARG_ or VCOPS_ and an upper-case name. */
  predicate BoundedName(name: string) {
    || ("LOBSTER_ARG_" <= name && UpperName(name[12..]))
    || ("VCOPS_" <= name && UpperName(name[6..]))
  }

  predicate UnitOk(u: Unit) {
    match u
    case Gap(c) => c == ' ' || c == '\t'
    case Plain(c) => PlainCode(c)
    case Ref(name) => BoundedName(name)
  }

  predicate UnitsOk(us: seq<Unit>) { forall i :: 0 <= i < |us| ==> UnitOk(us[i]) }

  function UnitText(u: Unit): string {
    match u
    case Gap(c) => [c]
    case Plain(c) => [c]
    case Ref(name) => "\"$" + (name + "\"")
  }

  function Written(us: seq<Unit>): string { if us == [] then "" else UnitText(us[0]) + Written(us[1..]) }

  /** The words between the blanks, each reference read as `1`; word is the one begun. */
  function WordsOf(us: seq<Unit>, word: string): seq<string>
    decreases |us|
  {
    if us == [] then (if word == "" then [] else [word])
    else
      match us[0]
      case Gap(_) => (if word == "" then [] else [word]) + WordsOf(us[1..], "")
      case Plain(c) => WordsOf(us[1..], word + [c])
      case Ref(_) => WordsOf(us[1..], word + "1")
  }

  // What the scans see of it.

  function ShownUnit(u: Unit): string {
    match u
    case Gap(c) => [c]
    case Plain(c) => [c]
    case Ref(_) => "\"1\""
  }

  function Shown(us: seq<Unit>): string { if us == [] then "" else ShownUnit(us[0]) + Shown(us[1..]) }

  lemma {:induction false} RefRunAll(t: string, rest: string)
    requires forall i :: 0 <= i < |t| ==> RefChar(t[i])
    requires rest != "" && !RefChar(rest[0])
    ensures RefRun(t + rest) == |t|
    decreases |t|
  {
    if t == "" {
      assert t + rest == rest;
    } else {
      assert (t + rest)[1..] == t[1..] + rest;
      RefRunAll(t[1..], rest);
    }
  }

  lemma RefBodyAll(prefix: string, t: string, rest: string)
    requires UpperName(t) && rest != "" && !RefChar(rest[0])
    requires forall i :: 1 <= i < |prefix| ==> RefChar(prefix[i])
    ensures RefBody(prefix + t + rest, |prefix|) == |prefix| + |t|
  {
    var s := prefix + t + rest;
    assert s[|prefix|] == t[0] && s[|prefix|+1..] == t[1..] + rest;
    forall i | 0 <= i < |t| ensures RefChar(t[i]) {}
    RefRunAll(t[1..], rest);
  }

  lemma BoundedChars(name: string)
    requires BoundedName(name)
    ensures forall i :: 0 <= i < |name| ==> RefChar(name[i])
    ensures |name| > 6
  {
    if "LOBSTER_ARG_" <= name && UpperName(name[12..]) {
      forall i | 0 <= i < |name| ensures RefChar(name[i]) { if i >= 12 { assert name[i] == name[12..][i-12]; } }
    } else {
      forall i | 0 <= i < |name| ensures RefChar(name[i]) { if i >= 6 { assert name[i] == name[6..][i-6]; } }
    }
  }

  /** A bounded reference is recognised whole, in front of the closing quote. */
  lemma RefWhole(name: string, rest: string)
    requires BoundedName(name) && rest != "" && rest[0] == '"'
    ensures RefLen("$" + (name + rest)) == 1 + |name|
  {
    var s := "$" + (name + rest);
    if "LOBSTER_ARG_" <= name && UpperName(name[12..]) {
      assert s == LOBSTER_PREFIX + name[12..] + rest;
      RefBodyAll(LOBSTER_PREFIX, name[12..], rest);
    } else {
      assert s == VCOPS_PREFIX + name[6..] + rest;
      assert s[1] == 'V';
      RefBodyAll(VCOPS_PREFIX, name[6..], rest);
    }
  }

  lemma {:induction false} StepRunStops(t: string, rest: string)
    requires forall i :: 0 <= i < |t| ==> RefChar(t[i])
    requires rest != "" && rest[0] == '"'
    ensures StepRun(t + rest, true) == |t|
    decreases |t|
  {
    if t == "" {
      assert t + rest == rest;
    } else {
      assert RefChar(t[0]) && (t + rest)[1..] == t[1..] + rest;
      StepRunStops(t[1..], rest);
    }
  }

  lemma NoStepAtName(name: string, rest: string)
    requires BoundedName(name) && rest != "" && rest[0] == '"'
    ensures StepLen("$" + (name + rest)) == 0
  {
    var s := "$" + (name + rest);
    BoundedChars(name);
    assert s[1..] == name + rest;
    StepRunStops(name, rest);
    assert s[|name|+1] == rest[0];
  }

  /** No step reference starts inside a unit. */
  lemma NoStepInUnit(u: Unit, rest: string, i: nat)
    requires UnitOk(u) && i < |UnitText(u)|
    ensures StepLen((UnitText(u) + rest)[i..]) == 0
  {
    var s := UnitText(u) + rest;
    assert s[i..][0] == UnitText(u)[i];
    if u.Ref? {
      BoundedChars(u.name);
      if i == 1 {
        DropQuote(u.name, rest);
        NoStepAtName(u.name, ['"'] + rest);
      } else if 1 < i < |u.name| + 2 {
        assert UnitText(u)[i] == u.name[i-2] && RefChar(u.name[i-2]);
      }
    }
  }

  lemma DropQuote(name: string, rest: string)
    ensures ("\"$" + (name + "\"") + rest)[1..] == "$" + (name + (['"'] + rest))
  {
  }

  lemma WrittenDrop(us: seq<Unit>, i: nat)
    requires us != [] && |UnitText(us[0])| <= i <= |Written(us)|
    ensures Written(us)[i..] == Written(us[1..])[i-|UnitText(us[0])|..]
    ensures i > |UnitText(us[0])| ==> Written(us)[i-1] == Written(us[1..])[i-|UnitText(us[0])|-1]
  {
    SumDrop(UnitText(us[0]), Written(us[1..]), i);
  }

  lemma SumDrop(a: string, b: string, i: nat)
    requires |a| <= i <= |a + b|
    ensures (a + b)[i..] == b[i-|a|..]
    ensures i > |a| ==> (a + b)[i-1] == b[i-|a|-1]
  {
  }

  lemma {:induction false} NoStepIn(us: seq<Unit>, i: nat)
    requires UnitsOk(us) && i < |Written(us)|
    ensures !StepAt(Written(us), i)
    decreases |us|
  {
    var n := |UnitText(us[0])|;
    assert UnitOk(us[0]);
    if i < n {
      NoStepInUnit(us[0], Written(us[1..]), i);
    } else {
      NoStepIn(us[1..], i - n);
      WrittenDrop(us, i);
    }
  }

  lemma SubstituteChar(c: char, rest: string)
    requires c != '$'
    ensures Substitute([c] + rest) == [c] + Substitute(rest)
  {
    assert ([c] + rest)[1..] == rest;
    assert ([c] + rest)[0] == c;
  }

  lemma SubstituteName(name: string, rest: string)
    requires BoundedName(name) && rest != "" && rest[0] == '"'
    ensures Substitute("$" + (name + rest)) == "1" + Substitute(rest)
  {
    var s := "$" + (name + rest);
    RefWhole(name, rest);
    assert s[1+|name|..] == rest;
  }

  lemma RefRegrouped(name: string, rest: string)
    ensures "\"$" + (name + "\"") + rest == ['"'] + ("$" + (name + (['"'] + rest)))
  {
  }

  lemma OneRegrouped(x: string)
    ensures ['"'] + ("1" + (['"'] + x)) == "\"1\"" + x
  {
  }

  lemma SubstituteRef(name: string, rest: string)
    requires BoundedName(name)
    ensures Substitute("\"$" + (name + "\"") + rest) == "\"1\"" + Substitute(rest)
  {
    RefRegrouped(name, rest);
    SubstituteChar('"', "$" + (name + (['"'] + rest)));
    SubstituteName(name, ['"'] + rest);
    SubstituteChar('"', rest);
    OneRegrouped(Substitute(rest));
  }

  /** The scanned text of a plain command. */
  lemma {:induction false} SubstituteWritten(us: seq<Unit>)
    requires UnitsOk(us)
    ensures Substitute(Written(us)) == Shown(us)
    decreases |us|
  {
    if us != [] {
      assert UnitOk(us[0]);
      SubstituteWritten(us[1..]);
      match us[0]
      case Gap(c) => SubstituteChar(c, Written(us[1..]));
      case Plain(c) => SubstituteChar(c, Written(us[1..]));
      case Ref(name) => SubstituteRef(name, Written(us[1..]));
    }
  }

  lemma SanitizedWritten(us: seq<Unit>)
    requires UnitsOk(us)
    ensures !HasStepRef(Written(us)) && Sanitized(Written(us)) == Shown(us)
  {
    forall i | 0 <= i < |Written(us)| ensures !StepAt(Written(us), i) { NoStepIn(us, i); }
    NoStepsKept(Written(us));
    SubstituteWritten(us);
  }

  // ---------------------------------------------------------------- its tokens

  function Started(word: string): Token { if word == "" then NoToken else Token(word) }

  lemma ShlexOne(word: string, rest: string)
    ensures Shlex("\"1\"" + rest, Bare, Started(word)) == Shlex(rest, Bare, Token(word + "1"))
  {
    var s := "\"1\"" + rest;
    var t := Extend(Started(word), "");
    assert s[1..] == "1\"" + rest && s[1..][1..] == "\"" + rest && ("\"" + rest)[1..] == rest;
    assert t == Token(word);
    assert Shlex(s, Bare, Started(word)) == Shlex(s[1..], Double, t);
    assert Shlex(s[1..], Double, t) == Shlex("\"" + rest, Double, Extend(t, ['1']));
    assert ['1'] == "1";
  }

  /** shlex splits the scanned text of a plain command into its words. */
  lemma {:induction false} ShlexShown(us: seq<Unit>, word: string)
    requires UnitsOk(us)
    ensures Shlex(Shown(us), Bare, Started(word)) == Tokens(WordsOf(us, word))
    decreases |us|
  {
    if us != [] {
      assert UnitOk(us[0]);
      var rest := Shown(us[1..]);
      match us[0]
      case Gap(c) =>
        ShlexShown(us[1..], "");
        assert ([c] + rest)[1..] == rest;
      case Plain(c) =>
        ShlexShown(us[1..], word + [c]);
        assert ([c] + rest)[1..] == rest;
        assert Extend(Started(word), [c]) == Token(word + [c]);
      case Ref(_) =>
        ShlexOne(word, rest);
        ShlexShown(us[1..], word + "1");
    }
  }

  // ---------------------------------------------------------------- its scans

  predicate Quiet(c: char) { PlainCode(c) || c == ' ' || c == '\t' }

  predicate QuietClass(c: char, k: Class) {
    match k
    case Active => Quiet(c)
    case Mark => c == '"'
    case Dquoted => c == '$' || RefChar(c)
    case _ => false
  }

  /** Outside the references and their quotes only blanks and plain characters stand. */
  predicate QuietText(s: string, q: Quote) {
    forall i :: 0 <= i < |s| ==> QuietClass(s[i], Classes(s, q)[i])
  }

  lemma QuietCons(c: char, rest: string, q: Quote)
    requires c != '\\' && QuietClass(c, HeadClass(c, q)) && QuietText(rest, After(c, q))
    ensures QuietText([c] + rest, q)
  {
    var s := [c] + rest;
    assert s[1..] == rest;
    forall i | 0 <= i < |s| ensures QuietClass(s[i], Classes(s, q)[i]) {
      if i > 0 { assert s[i] == rest[i-1] && Classes(s, q)[i] == Classes(rest, After(c, q))[i-1]; }
    }
  }

  lemma HeadRegrouped(t: string, rest: string)
    requires t != ""
    ensures [t[0]] + (t[1..] + rest) == t + rest
  {
  }

  lemma {:induction false} QuietName(t: string, rest: string)
    requires forall i :: 0 <= i < |t| ==> t[i] == '$' || RefChar(t[i])
    requires QuietText(rest, Double)
    ensures QuietText(t + rest, Double)
    decreases |t|
  {
    if t == "" {
      assert t + rest == rest;
    } else {
      QuietName(t[1..], rest);
      QuietCons(t[0], t[1..] + rest, Double);
      HeadRegrouped(t, rest);
    }
  }

  /** A double-quoted run of reference characters. */
  lemma QuietQuoted(t: string, rest: string)
    requires forall i :: 0 <= i < |t| ==> t[i] == '$' || RefChar(t[i])
    requires QuietText(rest, Bare)
    ensures QuietText(['"'] + (t + (['"'] + rest)), Bare)
  {
    QuietCons('"', rest, Double);
    QuietName(t, ['"'] + rest);
    QuietCons('"', t + (['"'] + rest), Bare);
  }

  lemma NameRegrouped(name: string, rest: string)
    ensures ['"'] + (("$" + name) + (['"'] + rest)) == "\"$" + (name + "\"") + rest
  {
  }

  lemma {:induction false} WrittenQuiet(us: seq<Unit>)
    requires UnitsOk(us)
    ensures QuietText(Written(us), Bare) && QuietText(Shown(us), Bare)
    decreases |us|
  {
    if us != [] {
      var rest, shown := Written(us[1..]), Shown(us[1..]);
      assert UnitOk(us[0]);
      WrittenQuiet(us[1..]);
      match us[0]
      case Gap(c) => QuietCons(c, rest, Bare); QuietCons(c, shown, Bare);
      case Plain(c) => QuietCons(c, rest, Bare); QuietCons(c, shown, Bare);
      case Ref(name) =>
        BoundedChars(name);
        QuietQuoted("$" + name, rest);
        NameRegrouped(name, rest);
        QuietQuoted("1", shown);
        OneRegrouped(shown);
    }
  }

  /** No scan of quiet text reports anything, once its references are read. */
  lemma QuietScans(s: string)
    requires QuietText(s, Bare) && '$' !in s
    ensures !HasOperator(Visible(s, Bare, false)) && !HasName(Visible(s, Bare, true))
    ensures !HasGlob(Visible(s, Bare, false)) && !HasTilde(Visible(s, Bare, false))
  {
    var active, expandable := Visible(s, Bare, false), Visible(s, Bare, true);
    forall i | 0 <= i < |s|
      ensures !OperatorChar(active[i]) && !GlobChar(active[i]) && active[i] != '~' && expandable[i] != '$'
    {
      assert QuietClass(s[i], Classes(s, Bare)[i]);
      assert s[i] in s;
    }
  }

  // ---------------------------------------------------------------- where a word starts

  lemma {:induction false} WordGrows(us: seq<Unit>, word: string)
    requires word != ""
    ensures WordsOf(us, word) != [] && word <= WordsOf(us, word)[0]
    decreases |us|
  {
    if us != [] {
      match us[0]
      case Gap(_) =>
      case Plain(c) => WordGrows(us[1..], word + [c]);
      case Ref(_) => WordGrows(us[1..], word + "1");
    }
  }

  lemma PlainHead(us: seq<Unit>, t: string)
    requires UnitsOk(us) && t != "" && PlainText(t) && t <= Written(us)
    ensures us != [] && us[0] == Plain(t[0]) && t[1..] <= Written(us[1..]) && PlainText(t[1..])
  {
    assert UnitOk(us[0]) && UnitText(us[0])[0] == Written(us)[0] == t[0];
    assert us[0] == Plain(t[0]);
    assert Written(us)[1..] == Written(us[1..]);
    assert t[1..] == Written(us)[1..][..|t|-1];
  }

  predicate PlainText(t: string) { forall i :: 0 <= i < |t| ==> PlainCode(t[i]) }

  lemma Shifted(word: string, t: string)
    requires t != ""
    ensures (word + [t[0]]) + t[1..] == word + t
  {
  }

  lemma {:induction false} PrefixWord(us: seq<Unit>, t: string, word: string, all: string)
    requires UnitsOk(us) && t <= Written(us) && all == word + t && all != ""
    requires PlainText(t)
    ensures WordsOf(us, word) != [] && all <= WordsOf(us, word)[0]
    decreases |us|
  {
    if t == "" {
      WordGrows(us, word);
    } else {
      PlainHead(us, t);
      Shifted(word, t);
      PrefixWord(us[1..], t[1..], word + [t[0]], all);
    }
  }

  predicate SomeWordStarts(words: seq<string>, t: string) { exists k :: 0 <= k < |words| && t <= words[k] }

  lemma LaterWord(before: seq<string>, words: seq<string>, t: string)
    requires SomeWordStarts(words, t)
    ensures SomeWordStarts(before + words, t)
  {
    var k :| 0 <= k < |words| && t <= words[k];
    assert (before + words)[|before| + k] == words[k];
  }

  /** Inside a unit no blank stands before another of its characters. */
  lemma NoBlankInside(u: Unit, i: nat)
    requires UnitOk(u) && 0 < i < |UnitText(u)|
    ensures !ReSpace(UnitText(u)[i-1])
  {
    if u.Ref? {
      BoundedChars(u.name);
      if 2 <= i - 1 < |u.name| + 2 { assert UnitText(u)[i-1] == u.name[i-3] && RefChar(u.name[i-3]); }
    }
  }

  lemma {:induction false} BlankBefore(us: seq<Unit>, i: nat, t: string, word: string)
    requires UnitsOk(us) && t != "" && PlainText(t)
    requires i <= |Written(us)| && t <= Written(us)[i..]
    requires if i == 0 then word == "" else ReSpace(Written(us)[i-1])
    ensures SomeWordStarts(WordsOf(us, word), t)
    decreases |us|
  {
    if i == 0 {
      assert Written(us)[0..] == Written(us) && "" + t == t;
      PrefixWord(us, t, "", t);
    } else {
      var n, rest := |UnitText(us[0])|, us[1..];
      assert UnitOk(us[0]);
      assert i >= n by { if i < n { NoBlankInside(us[0], i); } }
      WrittenDrop(us, i);
      match us[0]
      case Gap(_) =>
        BlankBefore(rest, i - n, t, "");
        LaterWord(if word == "" then [] else [word], WordsOf(rest, ""), t);
      case Plain(c) => BlankBefore(rest, i - n, t, word + [c]);
      case Ref(_) => BlankBefore(rest, i - n, t, word + "1");
    }
  }

  // ---------------------------------------------------------------- exactly when it has no finding

  /** The executable is a present, reviewed wrapper, the command one it permits and no operator's, and
      every word that starts with two dashes names an option of the command. */
  ghost predicate WordsReviewed(words: seq<string>, v: Surface) {
    && |words| >= 2 && words[0] in v.wrappers && v.isFile(words[0]) && v.executable(words[0])
    && words[0] !in {"env", "export", "printenv", "set", "source", "."}
    && words[1] in v.options && words[0] in v.permitted && words[1] in v.permitted[words[0]]
    && words[1] !in {"approval-decide", "approval-consume", "notification-claim", "notification-mark"}
    && forall k :: 2 <= k < |words| && "--" <= words[k] ==> NamesOption(words[k], v.options[words[1]])
  }

  ghost predicate NamesOption(word: string, options: set<string>) {
    exists name :: name in options && BeforeEquals(word, name)
  }

  lemma ReviewedMeans(words: seq<string>, v: Surface)
    ensures Reviewed(words, v) <==> WordsReviewed(words, v)
  {
    if |words| > 1 && words[1] in v.options {
      forall k | 2 <= k < |words|
        ensures OptionKnown(words[k], v.options[words[1]]) <==>
                ("--" <= words[k] ==> NamesOption(words[k], v.options[words[1]]))
      {
        OptionKnownMeans(words[k], v.options[words[1]]);
      }
    }
  }

  predicate Mentions(s: string, t: string) { exists i :: 0 <= i <= |s| && t <= s[i..] }

  lemma InvokeMeans(s: string)
    requires HasInvoke(s)
    ensures Mentions(s, "openclaw.invoke")
  {
    var i :| 0 <= i < |s| && OccursAt(INVOKE, s, i);
    assert "openclaw.invoke" <= s[i..];
  }

  lemma UnsafeMeans(us: seq<Unit>, word: char -> bool)
    requires UnitsOk(us) && HasUnsafe(Written(us), word)
    ensures SomeWordStarts(WordsOf(us, ""), "--unsafe")
  {
    var i :| 0 <= i < |Written(us)| && UnsafeAt(Written(us), i, word);
    UnsafePlain();
    BlankBefore(us, i, UNSAFE, "");
  }

  lemma UnsafePlain()
    ensures UNSAFE == "--unsafe" && PlainText(UNSAFE)
  {
  }

  lemma WrittenScans(us: seq<Unit>)
    requires UnitsOk(us)
    ensures var s := Written(us);
      && !HasSubstitution(s) && !HasBrace(s) && !UnquotedRef(s)
      && '$' !in Shown(us)
  {
    var s := Written(us);
    WrittenQuiet(us);
    forall i | 0 <= i < |s| ensures s[i] != '(' && s[i] != '`' && s[i] != '{' && !UnquotedAt(s, i) {
      assert QuietClass(s[i], Classes(s, Bare)[i]);
      if RefLen(s[i..]) > 0 { assert s[i..][0] == s[i]; }
    }
    NoDollarShown(us);
  }

  lemma {:induction false} NoDollarShown(us: seq<Unit>)
    requires UnitsOk(us)
    ensures '$' !in Shown(us)
    decreases |us|
  {
    if us != [] {
      assert UnitOk(us[0]);
      NoDollarShown(us[1..]);
    }
  }

  /** A command written in blanks, plain characters and double-quoted bounded references has no finding
      only if its executable, command and options are reviewed; and then it has none, unless it mentions
      openclaw.invoke or a word starts with --unsafe. */
  lemma PlainCommand(us: seq<Unit>, v: Surface)
    requires UnitsOk(us)
    ensures NoFinding(Written(us), v) ==> WordsReviewed(WordsOf(us, ""), v)
    ensures
      (WordsReviewed(WordsOf(us, ""), v) && !Mentions(Written(us), "openclaw.invoke")
       && !SomeWordStarts(WordsOf(us, ""), "--unsafe"))
      ==> NoFinding(Written(us), v)
  {
    var words := WordsOf(us, "");
    SanitizedWritten(us);
    ShlexShown(us, "");
    ReviewedMeans(words, v);
    WrittenScans(us);
    WrittenQuiet(us);
    QuietScans(Shown(us));
    if HasInvoke(Written(us)) { InvokeMeans(Written(us)); }
    if HasUnsafe(Written(us), v.word) { UnsafeMeans(us, v.word); }
  }

  // ---------------------------------------------------------------- what always has a finding

  // len stands for RefLen, of which only this matters: what it measures is a `$` and characters of names.

  predicate RefLike(len: string -> nat, s: string) {
    && len(s) <= |s|
    && (len(s) > 0 ==> s[0] == '$' && forall i :: 1 <= i < len(s) ==> RefChar(s[i]))
  }

  ghost predicate Measures(len: string -> nat) { NeutralLen(len) && forall s: string :: RefLike(len, s) }

  lemma RefsMeasured()
    ensures Measures(RefLen)
  {
    RefsNeutral();
    forall s: string ensures RefLike(RefLen, s) {}
  }

  /** How much of the text its first scanned character stands for. */
  ghost function Head(s: string, len: string -> nat): (m: nat)
    requires s != "" && Measures(len)
    ensures 1 <= m <= |s|
  {
    assert RefLike(len, s);
    if len(s) > 0 then len(s) else 1
  }

  /** Position i of the text is in no reference, and is scanned as position j. */
  ghost predicate Maps(s: string, i: int, j: int, len: string -> nat)
    requires Measures(len)
    decreases |s|
  {
    && s != ""
    && (if i == 0 then j == 0 && len(s) == 0
        else i >= Head(s, len) && Maps(s[Head(s, len)..], i - Head(s, len), j - 1, len))
  }

  /** Position j of the scanned text shows position i of the command, with its class. */
  ghost predicate ShowsAt(s: string, ks: seq<Class>, i: int, j: int, len: string -> nat)
    requires Measures(len) && |ks| == |s|
  {
    && 0 <= i < |s| && 0 <= j < |Replace(s, len)| == |Collapse(s, ks, len)|
    && Replace(s, len)[j] == s[i] && Collapse(s, ks, len)[j] == ks[i]
  }

  lemma {:induction false} SameLength(s: string, ks: seq<Class>, len: string -> nat)
    requires Measures(len) && |ks| == |s|
    ensures |Collapse(s, ks, len)| == |Replace(s, len)|
    decreases |s|
  {
    if s != "" {
      assert NeutralAt(len, s) && RefLike(len, s);
      SameLength(s[Head(s, len)..], ks[Head(s, len)..], len);
    }
  }

  lemma ShownAfter(s: string, ks: seq<Class>, m: nat, i: int, j: int, len: string -> nat)
    requires Measures(len) && |ks| == |s| && s != "" && m == Head(s, len) && ShowsAt(s[m..], ks[m..], i, j, len)
    ensures ShowsAt(s, ks, m + i, j + 1, len)
  {
    assert NeutralAt(len, s) && RefLike(len, s);
    var x := if len(s) > 0 then "1" else [s[0]];
    assert Replace(s, len) == x + Replace(s[m..], len);
    assert Collapse(s, ks, len) == [ks[0]] + Collapse(s[m..], ks[m..], len);
  }

  lemma {:induction false} MapsMeans(s: string, ks: seq<Class>, i: int, j: int, len: string -> nat)
    requires Measures(len) && |ks| == |s| && Maps(s, i, j, len)
    ensures ShowsAt(s, ks, i, j, len)
    decreases |s|
  {
    if i == 0 {
      SameLength(s, ks, len);
      assert NeutralAt(len, s);
    } else {
      var m := Head(s, len);
      MapsMeans(s[m..], ks[m..], i - m, j - 1, len);
      ShownAfter(s, ks, m, i - m, j - 1, len);
    }
  }

  predicate InNoRef(c: char) { c != '$' && !RefChar(c) }

  lemma HeadStops(s: string, i: nat, len: string -> nat)
    requires Measures(len) && 0 < i < |s| && InNoRef(s[i])
    ensures Head(s, len) <= i
    ensures i == Head(s, len) && InNoRef(s[i-1]) ==> len(s) == 0 && i == 1
  {
    assert RefLike(len, s);
  }

  /** A character that is in no reference stays, and so does one before it that is in none. */
  lemma {:induction false} PlaceKept(s: string, i: nat, len: string -> nat) returns (j: nat)
    requires Measures(len) && i < |s| && InNoRef(s[i])
    ensures Maps(s, i, j, len) && (i == 0 ==> j == 0)
    ensures i > 0 && InNoRef(s[i-1]) ==> Maps(s, i - 1, j - 1, len)
    decreases |s|
  {
    assert RefLike(len, s);
    if i == 0 {
      j := 0;
    } else {
      HeadStops(s, i, len);
      var m := Head(s, len);
      var k := PlaceKept(s[m..], i - m, len);
      j := k + 1;
    }
  }

  /** A `$` that starts no reference, and the character after it. */
  predicate BareDollar(s: string, i: int, len: string -> nat) {
    0 <= i < |s| - 1 && s[i] == '$' && s[i+1] != '$' && len(s[i..]) == 0
  }

  lemma BareDollarTail(s: string, m: nat, i: nat, len: string -> nat)
    requires m <= i && BareDollar(s, i, len)
    ensures BareDollar(s[m..], i - m, len)
  {
    assert s[m..][i-m..] == s[i..];
  }

  lemma BareDollarFirst(s: string, len: string -> nat)
    requires Measures(len) && BareDollar(s, 0, len)
    ensures Maps(s, 0, 0, len) && Maps(s, 1, 1, len)
  {
    assert s[0..] == s;
    assert s[1..][0] == s[1];
    assert RefLike(len, s) && RefLike(len, s[1..]);
  }

  /** References hold no second `$`. */
  lemma HeadEnds(s: string, i: nat, len: string -> nat)
    requires Measures(len) && 0 < i < |s| && s[i] == '$'
    ensures Head(s, len) <= i
  {
    assert RefLike(len, s);
  }

  /** A `$` that starts no reference stays with the character after it. */
  lemma {:induction false} DollarKept(s: string, i: nat, len: string -> nat) returns (j: nat)
    requires Measures(len) && BareDollar(s, i, len)
    ensures Maps(s, i, j, len) && Maps(s, i + 1, j + 1, len)
    decreases |s|
  {
    if i == 0 {
      BareDollarFirst(s, len);
      j := 0;
    } else {
      HeadEnds(s, i, len);
      var m := Head(s, len);
      BareDollarTail(s, m, i, len);
      var k := DollarKept(s[m..], i - m, len);
      j := k + 1;
    }
  }

  /** Without step references the scanned text is the command with its bounded references replaced, and
      every character keeps its class. */
  lemma ScannedText(command: string)
    requires !HasStepRef(command)
    ensures Measures(RefLen) && Sanitized(command) == Replace(command, RefLen)
    ensures Classes(Sanitized(command), Bare) == Collapse(command, Classes(command, Bare), RefLen)
  {
    RefsMeasured();
    NoStepsKept(command);
    SubstituteIsReplace(command);
    ReplaceKeepsClasses(command, Bare, RefLen);
  }

  lemma Scanned(command: string, i: int, j: int)
    requires !HasStepRef(command) && Measures(RefLen) && Maps(command, i, j, RefLen)
    ensures 0 <= i < |command| && 0 <= j < |Sanitized(command)| && Sanitized(command)[j] == command[i]
    ensures Classes(Sanitized(command), Bare)[j] == Classes(command, Bare)[i]
  {
    ScannedText(command);
    MapsMeans(command, Classes(command, Bare), i, j, RefLen);
  }

  /** An active character of the command is shown to the scans. */
  lemma ActiveShown(command: string, i: nat) returns (j: nat)
    requires !HasStepRef(command) && i < |command| && Classes(command, Bare)[i] == Active && InNoRef(command[i])
    ensures j < |Sanitized(command)| && Visible(Sanitized(command), Bare, false)[j] == command[i]
  {
    RefsMeasured();
    j := PlaceKept(command, i, RefLen);
    ActiveScanned(command, i, j);
  }

  /** So is one that starts the command, and one after an active character, with that character. */
  lemma PairShown(command: string, i: nat) returns (j: nat)
    requires !HasStepRef(command) && i < |command| && Classes(command, Bare)[i] == Active && InNoRef(command[i])
    requires i > 0 ==> Classes(command, Bare)[i-1] == Active && InNoRef(command[i-1])
    ensures j < |Sanitized(command)| && Visible(Sanitized(command), Bare, false)[j] == command[i]
    ensures if i == 0 then j == 0 else j > 0 && Visible(Sanitized(command), Bare, false)[j-1] == command[i-1]
  {
    RefsMeasured();
    j := PlaceKept(command, i, RefLen);
    ActiveScanned(command, i, j);
    if i > 0 { ActiveScanned(command, i - 1, j - 1); }
  }

  lemma ActiveScanned(command: string, i: int, j: int)
    requires !HasStepRef(command) && Measures(RefLen) && Maps(command, i, j, RefLen)
    requires 0 <= i < |command| && Classes(command, Bare)[i] == Active
    ensures 0 <= j < |Sanitized(command)| && Visible(Sanitized(command), Bare, false)[j] == command[i]
  {
    Scanned(command, i, j);
  }

  lemma ScansClean(command: string, v: Surface)
    requires NoFinding(command, v)
    ensures var active := Visible(Sanitized(command), Bare, false);
      !HasStepRef(command) && !HasOperator(active) && !HasGlob(active) && !HasTilde(active)
    ensures !HasName(Visible(Sanitized(command), Bare, true))
  {
  }

  predicate LineBlank(c: char) { c == ' ' || c == '\t' || c == '\n' || c == '\r' }

  /** The operators and line ends, and the pattern characters. */
  predicate ShellActs(c: char) {
    || c == ';' || c == '|' || c == '&' || c == '<' || c == '>' || c == '\n' || c == '\r'
    || c == '*' || c == '?' || c == '['
  }

  /** An operator of the shell, a line end or a pattern character outside quotes. */
  lemma ActiveFound(command: string, v: Surface, i: nat)
    requires i < |command| && Classes(command, Bare)[i] == Active && ShellActs(command[i])
    ensures !NoFinding(command, v)
  {
    if NoFinding(command, v) {
      ScansClean(command, v);
      var j := ActiveShown(command, i);
      CharScan(Visible(Sanitized(command), Bare, false), j);
    }
  }

  lemma CharScan(active: string, j: nat)
    requires j < |active| && ShellActs(active[j])
    ensures HasOperator(active) || HasGlob(active)
  {
    assert OperatorChar(active[j]) || GlobChar(active[j]);
  }

  /** An unquoted tilde at the start of the command or after a blank outside quotes. */
  lemma TildeFound(command: string, v: Surface, i: nat)
    requires i < |command| && Classes(command, Bare)[i] == Active && command[i] == '~'
    requires i > 0 ==> Classes(command, Bare)[i-1] == Active && LineBlank(command[i-1])
    ensures !NoFinding(command, v)
  {
    if NoFinding(command, v) {
      ScansClean(command, v);
      var j := PairShown(command, i);
      TildeScan(Visible(Sanitized(command), Bare, false), j);
    }
  }

  lemma TildeScan(active: string, j: nat)
    requires j < |active| && active[j] == '~' && (j == 0 || LineBlank(active[j-1]))
    ensures HasTilde(active)
  {
    assert TildeAt(active, j);
  }

  /** A bounded reference stands from i to n. */
  predicate RefAt(command: string, i: int, n: int) {
    0 <= i < n <= |command| && command[i] == '$' && BoundedName(command[i+1..n])
  }

  /** A bounded reference outside double quotes. */
  lemma RefBareFound(command: string, v: Surface, i: nat, n: nat)
    requires RefAt(command, i, n) && Classes(command, Bare)[i] != Dquoted
    ensures !NoFinding(command, v)
  {
    assert command[i..][1..n-i] == command[i+1..n];
    RefStarts(command[i..], n - i);
    assert UnquotedAt(command, i);
  }

  lemma RefStarts(s: string, n: nat)
    requires 0 < n <= |s| && s[0] == '$' && BoundedName(s[1..n])
    ensures RefLen(s) > 0
  {
    var name := s[1..n];
    assert name[0] == s[1];
    if "LOBSTER_ARG_" <= name && UpperName(name[12..]) {
      assert LOBSTER_PREFIX <= s && s[13] == name[12..][0];
    } else {
      assert VCOPS_PREFIX <= s && s[7] == name[6..][0] && name[0] == 'V';
    }
  }

  lemma UpperFrom(s: string, k: nat, n: nat)
    requires 1 <= k < n <= |s| && Upper(s[k]) && forall i :: 1 <= i < n ==> RefChar(s[i])
    ensures UpperName(s[k..n])
  {
  }

  lemma PrefixTail(p: string, s: string, n: nat)
    requires p <= s && 1 <= |p| <= n <= |s|
    ensures p[1..] <= s[1..n] && s[1..n][|p|-1..] == s[|p|..n]
  {
    assert p == s[..|p|];
  }

  /** What RefLen measures is a bounded name. */
  lemma RefIsBounded(s: string)
    requires RefLen(s) > 0
    ensures s[0] == '$' && BoundedName(s[1..RefLen(s)])
  {
    var n := RefLen(s);
    var prefix := if LOBSTER_PREFIX <= s then LOBSTER_PREFIX else VCOPS_PREFIX;
    UpperFrom(s, |prefix|, n);
    PrefixTail(prefix, s, n);
    assert LOBSTER_PREFIX[1..] == "LOBSTER_ARG_" && VCOPS_PREFIX[1..] == "VCOPS_";
  }

  /** Any other variable, outside quotes or in double ones. */
  lemma NameFound(command: string, v: Surface, i: nat)
    requires i + 1 < |command| && command[i] == '$'
    requires 'A' <= command[i+1] <= 'Z' || 'a' <= command[i+1] <= 'z' || command[i+1] == '_'
    requires Classes(command, Bare)[i] in {Active, Dquoted} && Classes(command, Bare)[i+1] in {Active, Dquoted}
    requires forall n :: !RefAt(command, i, n)
    ensures !NoFinding(command, v)
  {
    if NoFinding(command, v) {
      ScansClean(command, v);
      if RefLen(command[i..]) > 0 { RefAtFrom(command, i); }
      NameScanned(command, i);
    }
  }

  lemma NameScanned(command: string, i: nat)
    requires !HasStepRef(command) && BareDollar(command, i, RefLen) && NameStart(command[i+1])
    requires Classes(command, Bare)[i] in {Active, Dquoted} && Classes(command, Bare)[i+1] in {Active, Dquoted}
    ensures HasName(Visible(Sanitized(command), Bare, true))
  {
    RefsMeasured();
    var j := DollarKept(command, i, RefLen);
    DollarScanned(command, i, j);
    NameShown(Sanitized(command), j);
  }

  lemma DollarScanned(command: string, i: nat, j: int)
    requires !HasStepRef(command) && Measures(RefLen)
    requires Maps(command, i, j, RefLen) && Maps(command, i + 1, j + 1, RefLen)
    ensures i + 1 < |command| && 0 <= j < |Sanitized(command)| - 1
    ensures Sanitized(command)[j] == command[i] && Sanitized(command)[j+1] == command[i+1]
    ensures Classes(Sanitized(command), Bare)[j] == Classes(command, Bare)[i]
    ensures Classes(Sanitized(command), Bare)[j+1] == Classes(command, Bare)[i+1]
  {
    Scanned(command, i, j);
    Scanned(command, i + 1, j + 1);
  }

  lemma RefAtFrom(command: string, i: nat)
    requires i < |command| && RefLen(command[i..]) > 0
    ensures RefAt(command, i, i + RefLen(command[i..]))
  {
    var n := RefLen(command[i..]);
    RefIsBounded(command[i..]);
    SliceOf(command, i, n);
  }

  lemma SliceOf(s: string, i: nat, n: nat)
    requires 0 < n && i + n <= |s|
    ensures s[i..][1..n] == s[i+1..i+n]
  {
  }

  lemma NameShown(s: string, j: nat)
    requires j + 1 < |s| && s[j] == '$' && NameStart(s[j+1])
    requires Classes(s, Bare)[j] in {Active, Dquoted} && Classes(s, Bare)[j+1] in {Active, Dquoted}
    ensures HasName(Visible(s, Bare, true))
  {
    assert NameAt(Visible(s, Bare, true), j);
  }

  /** Command substitution in either form, a braced parameter, and a step reference, quoted or not. */
  lemma SubstitutionFound(command: string, v: Surface, i: nat)
    requires i < |command|
    requires command[i] == '`' || "$(" <= command[i..]
    ensures !NoFinding(command, v)
  {
    if command[i] != '`' {
      assert command[i..][0] == command[i] && command[i..][1] == command[i+1];
      assert SubstitutionAt(command, i);
    }
  }

  lemma BraceFound(command: string, v: Surface, i: nat, k: nat)
    requires i + 2 < k < |command| && command[i] == '$' && command[i+1] == '{' && command[k] == '}'
    requires command[i+2] != '}'
    ensures !NoFinding(command, v)
  {
    assert command[i+3..][k-i-3] == '}';
    assert BraceAt(command, i);
  }

  predicate StepChar(c: char) { 'A' <= c <= 'Z' || 'a' <= c <= 'z' || '0' <= c <= '9' || c == '_' || c == '-' }

  lemma {:induction false} StepRunTo(s: string, k: nat)
    requires k < |s| && (forall i :: 0 <= i < k ==> StepChar(s[i])) && s[k] == '.'
    ensures StepRun(s, true) == k
    decreases k
  {
    if k > 0 { StepRunTo(s[1..], k - 1); }
  }

  lemma StepFound(command: string, v: Surface, i: nat, k: nat)
    requires i + 1 < k && k + 1 < |command| && command[i] == '$' && command[k] == '.'
    requires forall j :: i < j < k ==> StepChar(command[j])
    requires StepChar(command[k+1]) && command[k+1] != '-'
    ensures !NoFinding(command, v)
  {
    var s := command[i..];
    assert s[1..] == command[i+1..] && s[k-i+1..] == command[k+1..];
    StepRunTo(command[i+1..], k - i - 1);
    assert s[k-i] == '.' && StepRun(command[k+1..], false) > 0;
    assert StepAt(command, i);
  }

  /** The mediated tool, anywhere, and the unsafe flag as a word of its own. */
  lemma InvokeFound(command: string, v: Surface)
    requires Mentions(command, "openclaw.invoke")
    ensures !NoFinding(command, v)
  {
    var i :| 0 <= i <= |command| && "openclaw.invoke" <= command[i..];
    assert OccursAt(INVOKE, command, i);
  }

  lemma UnsafeFound(command: string, v: Surface, i: nat)
    requires i < |command| && "--unsafe" <= command[i..] && (i == 0 || LineBlank(command[i-1]))
    requires i + 8 == |command| || !v.word(command[i+8])
    ensures !NoFinding(command, v)
  {
    assert UnsafeAt(command, i, v.word);
  }
}
