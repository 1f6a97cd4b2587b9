// validate_workflows.py: what _validate_command certifies about a run command.
module WorkflowCommand {
  import opened Quoting
  import opened Posix
  import PyText

  // ---------------------------------------------------------------- the scans

  /** `$step.path`: the length of a step reference that starts the text, 0 when none does. */
  function StepLen(s: string): (n: nat)
    ensures n <= |s|
  {
    if s == "" || s[0] != '$' then 0
    else
      var a := StepRun(s[1..], true);
      if a == 0 || a + 1 >= |s| || s[a+1] != '.' then 0
      else
        var b := StepRun(s[a+2..], false);
        if b == 0 then 0 else a + 2 + b + StepTail(s[a+2+b..])
  }

  function StepRun(s: string, dash: bool): (n: nat)
    ensures n <= |s|
  {
    if s != "" && (NameChar(s[0]) || (dash && s[0] == '-')) then 1 + StepRun(s[1..], dash) else 0
  }

  function StepTail(s: string): (n: nat)
    ensures n <= |s|
    decreases |s|
  {
    if s == "" || s[0] != '.' || StepRun(s[1..], false) == 0 then 0
    else
      var n := 1 + StepRun(s[1..], false);
      n + StepTail(s[n..])
  }

  function SubstituteSteps(s: string): string
    decreases |s|
  {
    if s == "" then ""
    else if StepLen(s) > 0 then "1" + SubstituteSteps(s[StepLen(s)..])
    else [s[0]] + SubstituteSteps(s[1..])
  }

  predicate StepAt(s: string, i: int) { 0 <= i < |s| && StepLen(s[i..]) > 0 }

  predicate HasStepRef(s: string) { exists i :: 0 <= i < |s| && StepAt(s, i) }

  lemma {:induction false} NoStepsKept(s: string)
    requires !HasStepRef(s)
    ensures SubstituteSteps(s) == s
    decreases |s|
  {
    if s != "" {
      assert s[0..] == s && !StepAt(s, 0);
      forall i | 0 <= i < |s[1..]| ensures !StepAt(s[1..], i) { assert s[1..][i..] == s[i+1..] && !StepAt(s, i + 1); }
      NoStepsKept(s[1..]);
    }
  }

  lemma {:induction false} StepRunNeutral(s: string, dash: bool)
    ensures forall i :: 0 <= i < StepRun(s, dash) ==> Neutral(s[i])
    decreases |s|
  {
    if s != "" && StepRun(s, dash) > 0 { StepRunNeutral(s[1..], dash); }
  }

  lemma {:induction false} StepTailNeutral(s: string)
    ensures forall i :: 0 <= i < StepTail(s) ==> Neutral(s[i])
    decreases |s|
  {
    if s != "" && s[0] == '.' && StepRun(s[1..], false) > 0 {
      var n := 1 + StepRun(s[1..], false);
      StepRunNeutral(s[1..], false);
      StepTailNeutral(s[n..]);
      forall i | 0 <= i < StepTail(s) ensures Neutral(s[i]) {
        if 0 < i < n { assert s[i] == s[1..][i-1]; }
        else if i >= n { assert s[i] == s[n..][i-n]; }
      }
    }
  }

  lemma StepNeutral(s: string)
    requires StepLen(s) > 0
    ensures forall i :: 0 <= i < StepLen(s) ==> Neutral(s[i])
  {
    var a := StepRun(s[1..], true);
    var b := StepRun(s[a+2..], false);
    StepRunNeutral(s[1..], true);
    StepRunNeutral(s[a+2..], false);
    StepTailNeutral(s[a+2+b..]);
    forall i | 0 <= i < StepLen(s) ensures Neutral(s[i]) {
      if 0 < i <= a { assert s[i] == s[1..][i-1]; }
      else if a + 2 <= i < a + 2 + b { assert s[i] == s[a+2..][i-a-2]; }
      else if a + 2 + b <= i { assert s[i] == s[a+2+b..][i-a-2-b]; }
    }
  }

  lemma StepsNeutral()
    ensures NeutralLen(StepLen)
  {
    forall s: string ensures NeutralAt(StepLen, s) { if StepLen(s) > 0 { StepNeutral(s); } }
  }

  lemma {:induction false} StepsAreReplaced(s: string)
    requires NeutralLen(StepLen)
    ensures SubstituteSteps(s) == Replace(s, StepLen)
    decreases |s|
  {
    if s != "" { StepsAreReplaced(if StepLen(s) > 0 then s[StepLen(s)..] else s[1..]); }
  }

  function Sanitized(command: string): string { Substitute(SubstituteSteps(command)) }

  /** The substitutions never move a quote boundary: every character of the command that they leave
      has the same class in the scanned text, and a `1` has the class its reference started with. */
  lemma SanitizedKeepsClasses(command: string, q: Quote)
    ensures NeutralLen(StepLen) && NeutralLen(RefLen)
    ensures var text := SubstituteSteps(command);
      && |Collapse(command, Classes(command, q), StepLen)| == |text|
      && Classes(Sanitized(command), q) ==
         Collapse(text, Collapse(command, Classes(command, q), StepLen), RefLen)
  {
    StepsNeutral();
    RefsNeutral();
    StepsAreReplaced(command);
    ReplaceKeepsClasses(command, q, StepLen);
    SubstituteIsReplace(SubstituteSteps(command));
    ReplaceKeepsClasses(SubstituteSteps(command), q, RefLen);
  }

  predicate SubstitutionAt(s: string, i: int) { 0 <= i < |s| - 1 && s[i] == '$' && s[i+1] == '(' }

  predicate HasSubstitution(s: string) { (exists i :: 0 <= i < |s| && SubstitutionAt(s, i)) || '`' in s }

  /** Some bounded reference starts outside a double-quoted region. */
  predicate UnquotedRef(s: string) { exists i :: 0 <= i < |s| && UnquotedAt(s, i) }

  predicate UnquotedAt(s: string, i: int) { 0 <= i < |s| && RefLen(s[i..]) > 0 && Classes(s, Bare)[i] != Dquoted }

  predicate OperatorChar(c: char) {
    c == ';' || c == '|' || c == '&' || c == '<' || c == '>' || c == '\n' || c == '\r'
  }

  predicate HasOperator(active: string) { exists i :: 0 <= i < |active| && OperatorChar(active[i]) }

  predicate NameAt(s: string, i: int) { 0 <= i < |s| - 1 && s[i] == '$' && NameStart(s[i+1]) }

  predicate HasName(expandable: string) { exists i :: 0 <= i < |expandable| && NameAt(expandable, i) }

  predicate HasGlob(active: string) { exists i :: 0 <= i < |active| && GlobChar(active[i]) }

  predicate ReSpace(c: char) { PyText.IsPySpace(c as int) }

  /** `~` at the start of the text or after whitespace. */
  predicate TildeAt(s: string, i: int) { 0 <= i < |s| && s[i] == '~' && (i == 0 || ReSpace(s[i-1])) }

  predicate HasTilde(active: string) { exists i :: 0 <= i < |active| && TildeAt(active, i) }

  /** `${` and at least one character before the next closing brace. */
  predicate BraceAt(s: string, i: int) {
    0 <= i < |s| - 2 && s[i] == '$' && s[i+1] == '{' && s[i+2] != '}' && '}' in s[i+3..]
  }

  predicate HasBrace(s: string) { exists i :: 0 <= i < |s| && BraceAt(s, i) }

  predicate OccursAt(t: string, s: string, i: int) { 0 <= i <= |s| - |t| && t <= s[i..] }

  const INVOKE := "openclaw.invoke"

  predicate HasInvoke(s: string) { exists i :: 0 <= i < |s| && OccursAt(INVOKE, s, i) }

  const UNSAFE := "--unsafe"

  /** The flag at the start of the text or after whitespace, and no word character after it. */
  predicate UnsafeAt(s: string, i: int, word: char -> bool) {
    && OccursAt(UNSAFE, s, i) && (i == 0 || ReSpace(s[i-1]))
    && (i + |UNSAFE| == |s| || s[i+|UNSAFE|] == '-' || !word(s[i+|UNSAFE|]))
  }

  predicate HasUnsafe(s: string, word: char -> bool) { exists i :: 0 <= i < |s| && UnsafeAt(s, i, word) }

  // ---------------------------------------------------------------- the validator

  datatype Finding =
    | CommandSubstitution | RawEnv | ArgUnquoted | OpenclawInvoke | UnsafeAuthority | StepRefInCommand
    | ShellOperator | GlobExpansion | TildeExpansion | ShellParse | CommandEmpty | ShellBuiltin | CommandWrapper
    | WrapperMissing | WrapperNotExecutable | CommandUnknown | WrapperScope | ApprovalBoundary | OptionUnknown

  /** What a command may reach: the reviewed wrappers and their files, the options of every command, the
      commands of every wrapper. word is the class of a regular expression's word characters. */
  datatype Surface = Surface(
    wrappers: set<string>, isFile: string -> bool, executable: string -> bool,
    options: map<string, set<string>>, permitted: map<string, set<string>>, word: char -> bool)

  const SHELL_BUILTINS := {"env", "export", "printenv", "set", "source", "."}
  const OPERATOR_COMMANDS := {"approval-decide", "approval-consume", "notification-claim", "notification-mark"}

  /** No scan up to the executable check reports anything. */
  predicate Certified(command: string, wrappers: set<string>) {
    var text := Sanitized(command);
    var tokens := Shlex(text, Bare, NoToken);
    && !HasSubstitution(command) && !UnquotedRef(command) && !HasStepRef(command)
    && !HasOperator(Visible(text, Bare, false)) && !HasName(Visible(text, Bare, true))
    && !HasGlob(Visible(text, Bare, false)) && !HasTilde(Visible(text, Bare, false))
    && tokens.Tokens? && tokens.ts != [] && tokens.ts[0] in wrappers
  }

  /** token.split("=", 1)[0]. */
  function OptionName(token: string): string {
    if token == "" || token[0] == '=' then "" else [token[0]] + OptionName(token[1..])
  }

  predicate OptionKnown(token: string, options: set<string>) { "--" <= token ==> OptionName(token) in options }

  predicate OptionsKnown(tokens: seq<string>, options: set<string>) {
    forall k :: 2 <= k < |tokens| ==> OptionKnown(tokens[k], options)
  }

  /** The executable, its command and its options are reviewed ones. */
  predicate Reviewed(tokens: seq<string>, v: Surface) {
    && |tokens| > 1 && tokens[0] !in SHELL_BUILTINS && tokens[0] in v.wrappers
    && v.isFile(tokens[0]) && v.executable(tokens[0])
    && tokens[1] in v.options && tokens[0] in v.permitted && tokens[1] in v.permitted[tokens[0]]
    && tokens[1] !in OPERATOR_COMMANDS && OptionsKnown(tokens, v.options[tokens[1]])
  }

  /** The command has no finding. */
  predicate NoFinding(command: string, v: Surface) {
    && Certified(command, v.wrappers)
    && !HasBrace(command) && !HasInvoke(command) && !HasUnsafe(command, v.word)
    && Reviewed(Shlex(Sanitized(command), Bare, NoToken).ts, v)
  }

  function When(found: bool, f: Finding): (r: seq<Finding>)
    ensures r == [] <==> !found
  {
    if found then [f] else []
  }

  method FindUnquotedRef(command: string) returns (found: bool)
    ensures found <==> UnquotedRef(command)
  {
    var quoted := DoubleQuotedMask(command);
    found := false;
    for i := 0 to |command|
      invariant found <==> exists k :: 0 <= k < i && UnquotedAt(command, k)
    {
      assert UnquotedAt(command, i) <==> RefLen(command[i..]) > 0 && !quoted[i];
      if RefLen(command[i..]) > 0 && !quoted[i] { found := true; }
    }
  }

  /** The scans of the text, before it is split. */
  method ScanText(command: string, v: Surface) returns (findings: seq<Finding>)
    ensures findings == [] <==>
      && !HasSubstitution(command) && !HasBrace(command) && !UnquotedRef(command) && !HasInvoke(command)
      && !HasUnsafe(command, v.word) && !HasStepRef(command)
      && !HasOperator(Visible(Sanitized(command), Bare, false)) && !HasName(Visible(Sanitized(command), Bare, true))
      && !HasGlob(Visible(Sanitized(command), Bare, false)) && !HasTilde(Visible(Sanitized(command), Bare, false))
    ensures HasInvoke(command) ==> findings != []
  {
    findings := When(HasSubstitution(command), CommandSubstitution);
    findings := findings + When(HasBrace(command), RawEnv);
    var unquoted := FindUnquotedRef(command);
    findings := findings + When(unquoted, ArgUnquoted);
    findings := findings + When(HasInvoke(command), OpenclawInvoke);
    findings := findings + When(HasUnsafe(command, v.word), UnsafeAuthority);
    findings := findings + When(HasStepRef(command), StepRefInCommand);
    var sanitized := Sanitized(command);
    var active := ShellActiveText(sanitized, false);
    findings := findings + When(HasOperator(active), ShellOperator);
    var expandable := ShellActiveText(sanitized, true);
    findings := findings + When(HasName(expandable), RawEnv);
    findings := findings + When(HasGlob(active), GlobExpansion);
    findings := findings + When(HasTilde(active), TildeExpansion);
  }

  /** The checks of the tokens: executable, command, options. */
  method ScanTokens(tokens: seq<string>, v: Surface) returns (findings: seq<Finding>)
    requires tokens != [] && tokens[0] in v.wrappers && tokens[0] !in SHELL_BUILTINS
    ensures findings == [] <==> Reviewed(tokens, v)
  {
    findings := [];
    if !v.isFile(tokens[0]) {
      findings := [WrapperMissing];
    } else if !v.executable(tokens[0]) {
      findings := [WrapperNotExecutable];
    }
    if |tokens| < 2 || tokens[1] !in v.options { return findings + [CommandUnknown]; }
    var permitted := if tokens[0] in v.permitted then v.permitted[tokens[0]] else {};
    findings := findings + When(tokens[1] !in permitted, WrapperScope);
    findings := findings + When(tokens[1] in OPERATOR_COMMANDS, ApprovalBoundary);
    ghost var before := findings;
    for k := 2 to |tokens|
      invariant findings == [] <==>
        before == [] && forall i :: 2 <= i < k ==> OptionKnown(tokens[i], v.options[tokens[1]])
    {
      findings := findings + When(!OptionKnown(tokens[k], v.options[tokens[1]]), OptionUnknown);
    }
  }

  method ValidateCommand(command: string, v: Surface) returns (findings: seq<Finding>)
    ensures findings == [] <==> NoFinding(command, v)
  {
    findings := ScanText(command, v);
    var tokens := Shlex(Sanitized(command), Bare, NoToken);
    if tokens.ParseError? { return findings + [ShellParse]; }
    if tokens.ts == [] { return findings + [CommandEmpty]; }
    if tokens.ts[0] in SHELL_BUILTINS { return findings + [ShellBuiltin]; }
    if tokens.ts[0] !in v.wrappers {
      if !HasInvoke(command) { findings := findings + [CommandWrapper]; }
      return;
    }
    var rest := ScanTokens(tokens.ts, v);
    findings := findings + rest;
  }
}
