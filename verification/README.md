# Verified models of the venture-research deployment

This Dafny project models six parts of the deployment whose comments and documents promise more than
one function can show, and proves those promises. Sources are cited by path and line.

1. **The fixed-workflow runner** (`workspaces/vc-chief/vc/bin/vcrun.py`). `Json`, `LastObject`,
   `JsonText`, `Canonical`, `SplitPairs`, `WorkflowArgs`, `WorkflowPayload`, `JsonArguments`,
   `CanonicalRetry`, `Redaction`, `Supervision`, `Runner`:
   Python's JSON decoder and encoder as the runner uses them, the recovery of the final envelope from
   noisy output, the canonical argument text whose digest identifies an operation, the arguments that
   hold JSON themselves, redaction, and the supervision of one launched child. `JsonSpelling` is the
   grammar of RFC 8259, written in code points; `JsonReading`, `JsonSpelled`, `JsonPrinted` and
   `Envelope` hold the decoder, the encoder and the recovery against it. `ArgumentLaws`,
   `RedactionLaws` and `RunLaws` say what single arguments, redacted keys, helper replies and the ends
   of a child come to, on their characters and fields.
2. **The shell-text validator** (`scripts/validate_workflows.py`). `Quoting`, `WorkflowCommand`, and
   against them `Posix`, a model of the Shell Command Language of POSIX.1-2017 (sections 2.2, 2.3 and
   2.6), joined in `ShellSoundness`. `CommandLaws` says which plain commands are accepted and which
   texts never are.
3. **The capture queue** (`runtime-extensions/vc-trusted-context/index.js`). `OrderedMap` is a
   JavaScript Map; `CaptureQueue` gives each hook as a function of the three Maps and of a history of
   every capture; `CaptureInvariants` proves what all interleavings keep, `CaptureLaws` what a message,
   a run and an attachment can count on over all of them; `TrustedContext` is the extension's state
   updated in place.
4. **The recovery archive** (`scripts/validate_recovery_archive.py`). `ArchiveNames`, `Archive`,
   `Extraction`.
5. **The two integrity checkers** (`scripts/build_release_manifest.py`, `scripts/verify_release.py`).
   `Integrity`.
6. **The configuration pipeline** (`scripts/render_channel_config.py`, `scripts/record_images.py`,
   `scripts/check_env.py`). `DeepMerge`, `RuntimeSelection`, `BakedSources`, `Dotenv`.

`PyText`, `Paths` and `Options` hold text, splitting and small shared definitions. A Python `str` is a
sequence of code points, lone surrogates included. Regular expressions whose shape does not matter,
SHA-256, the clock, the child process, the helper replies and the operating system's directory
listings are parameters. `dafny verify dfyconfig.toml` checks everything.

## Where the code and its promises part

Each of these is a lemma with the exact condition under which the promise does hold.

- The recovery scan does not return every valid final object: `int()` refuses numbers of more than 4300
  digits with a `ValueError` that is not a `JSONDecodeError`, so a brace inside a string can make the
  scan raise (`LastObject.FinalObjectMissed`). It returns the final object iff no later brace raises
  (`LastObject.FinalObjectFound`).
- So a launched run can end with neither a reconciliation nor an envelope
  (`Runner.LaunchedUnreconciled`). A launched run that is no dry run makes exactly one reconciliation
  attempt, runs that end in a traceback included, unless its child closed the output and exited in time
  and either reported success or made the scan raise (`Supervision.ReconciledExactly`). It emits its one
  envelope iff none of the listed guards lets an exception escape (`Supervision.RunIsSound`); one of
  them is a helper reply whose `outcome` is a list or an object, which Python cannot look up in a set
  (`Supervision.ListOutcomeRaises`).
- The tokens the shell-text validator decides on are the shell's arguments iff the text has no `$` left
  that the shell acts on, no unquoted parenthesis, no `#` that starts a comment, and none of the two
  backslash readings in which shlex and the shell differ (`ShellSoundness.TokensAreArguments`). A
  comment after any wrapper and any command it permits has no finding: the validator decides on three
  tokens, the shell passes two arguments (`ShellSoundness.CommentAccepted`).
- A normalised argument can hold `NaN`, `Infinity` or `-Infinity`, which strict JSON refuses: an object
  argument iff a float in it overflows, `citations_json` also when it held one, since it is parsed
  without the hook that refuses them (`JsonArguments.ConstantsLeft`, `JsonArguments.OverflowPasses`).
- A string with a high surrogate directly before a low one does not survive printing and parsing
  (`JsonText.StringRoundTrip`). Two JSON arguments can differ in nothing else and be normalised to one
  text (`JsonArguments.SplitsCollide`); two texts collide iff their canonical forms are equal once such
  pairs are joined (`JsonArguments.ObjectTextDecides`).
- A manifest built without an operator placeholder lets a later tree pass with another inventory
  (`Integrity.PlaceholderNeeded`).

A payload handed in again is its own payload iff the joined pairs leave its JSON arguments in canonical
form, no float of an object argument overflows, and nothing is pushed over a size limit
(`CanonicalRetry.PayloadFixed`). Two more laws hold under an exact condition, though nothing promises
them outright: rendering a selection over the output of another one equals rendering it afresh iff no
plugin entry, model mode or timezone of the other is left over (`RuntimeSelection.SwitchExact`), and
merging two overlays in sequence equals merging their merge iff no table of the base is lost in between
(`DeepMerge.MergeAssociative`).

## Model

| member | source | states |
|---|---|---|
| LastObject.LastJsonObject | workspaces/vc-chief/vc/bin/vcrun.py:575-584 | the loop returns what the rightmost brace that is not skipped decides: an object, nothing, or the ValueError it raises |
| LastObject.OneOffset | workspaces/vc-chief/vc/bin/vcrun.py:577-583 | two offsets can never both parse as an object that ends the text: a later brace is inside a string or nested, by complementary string state and brace depth |
| LastObject.FinalObjectFound | workspaces/vc-chief/vc/bin/vcrun.py:575-584 | for every log and every object followed by blanks the scan returns exactly that object iff no later brace raises, and otherwise raises |
| LastObject.ShortNumbersFound | workspaces/vc-chief/vc/bin/vcrun.py:575-584 | without a run of 4301 digits in it the final object is always found, whatever precedes it |
| LastObject.FinalObjectMissed | workspaces/vc-chief/vc/bin/vcrun.py:579-581 | a valid envelope without any number for which the scan raises |
| LastObject.ScanAnswers | workspaces/vc-chief/vc/bin/vcrun.py:577-584 | the declarative answer of the search is unique and is the right-to-left recursion |
| Envelope.EnvelopeFound | workspaces/vc-chief/vc/bin/vcrun.py:575-584 | after any log, an object spelled in any layout, with any escapes, and with any white space after it is returned as its value, unless 4301 digits stand in a row in it |
| Envelope.OnlyEnvelopesFound | workspaces/vc-chief/vc/bin/vcrun.py:575-584 | whatever the scan returns is the value of an object spelled at the end of the text, with only white space after it |
| JsonReading.SpellingRead | workspaces/vc-chief/vc/bin/vcrun.py:580 | the decoder reads every spelling of a value, wherever it stands: any run of the four blanks, every escape, hexadecimal digits of either case, every form of number |
| JsonSpelled.ValueSpelled | workspaces/vc-chief/vc/bin/vcrun.py:580 | conversely, whatever the decoder reads is a spelling of the value it gives, up to where it stops |
| JsonSpelled.DocumentRead | workspaces/vc-chief/vc/bin/vcrun.py:400-402 | a whole document, a spelling between blanks, loads as its value |
| JsonSpelled.DocumentSpelled | workspaces/vc-chief/vc/bin/vcrun.py:400-402 | and nothing else loads |
| JsonText.ValueRead | workspaces/vc-chief/vc/bin/vcrun.py:533 | the decoder reads any printed value back at any place of any text |
| JsonText.RoundTrip | workspaces/vc-chief/vc/bin/vcrun.py:1027-1029 | parsing undoes printing: for floats by their text, for integers of at most 4300 digits, for strings without a split surrogate pair, and for everything built of these |
| JsonText.StringRoundTrip | workspaces/vc-chief/vc/bin/vcrun.py:533 | a string survives printing and parsing iff no high surrogate stands directly before a low one |
| JsonText.ScanPaired | workspaces/vc-chief/vc/bin/vcrun.py:397-401 | text that UTF-8 can encode never decodes to a split surrogate pair |
| JsonText.PrintAscii | workspaces/vc-chief/vc/bin/vcrun.py:1026 | printed text is ASCII, so its encoding cannot fail |
| JsonPrinted.PrintedCompactly | workspaces/vc-chief/vc/bin/vcrun.py:533 | of every value the decoder reads back the text printed is its compact spelling: no blanks, the short escape where one is customary, else lower-case digits for everything outside ASCII |
| Canonical.LessMeans | workspaces/vc-chief/vc/bin/vcrun.py:533 | keys are sorted as Python compares strings: a proper prefix first, else by the first code in which they differ |
| Canonical.SortForgetsOrder | workspaces/vc-chief/vc/bin/vcrun.py:533 | sorting the members of a dictionary forgets the order of insertion and nothing else |
| Canonical.CanonDecides | workspaces/vc-chief/vc/bin/vcrun.py:372 | two documents have the same canonical form iff they are the same JSON value, objects compared in any order at every depth |
| Canonical.DumpsDecides | workspaces/vc-chief/vc/bin/vcrun.py:372 | two values have the same canonical text iff they are the same JSON value |
| Canonical.CanonFixed | workspaces/vc-chief/vc/bin/vcrun.py:372 | a canonical form is its own canonical form |
| WorkflowArgs.BigintMeans | workspaces/vc-chief/vc/bin/vcrun.py:375-391 | an identifier is accepted iff it is the canonical decimal of an integer in 1..2^63-1, zero allowed for counters |
| ArgumentLaws.FitsMeans | workspaces/vc-chief/vc/bin/vcrun.py:397-398 | an argument text is read iff it holds no surrogate and its UTF-8 form has at most 32768 bytes |
| ArgumentLaws.ScanLimit | workspaces/vc-chief/vc/bin/vcrun.py:475-478 | a scan limit is accepted, unchanged, iff it is the decimal of a number from 1 to 500 |
| ArgumentLaws.DomainNormalised | workspaces/vc-chief/vc/bin/vcrun.py:520-524 | in the four intake workflows a company domain is taken without outer white space and final dots, in lower case, or refused if that is no domain |
| ArgumentLaws.UriNormalised | workspaces/vc-chief/vc/bin/vcrun.py:457-471 | a watched source is taken without outer white space and otherwise as given, or refused |
| WorkflowPayload.ValidateWorkflowArgs | workspaces/vc-chief/vc/bin/vcrun.py:394-533 | the checks and in-place rewrites accept exactly the argument texts whose every argument is sound, and return the canonical text of the normalised arguments |
| WorkflowPayload.RewriteArguments | workspaces/vc-chief/vc/bin/vcrun.py:457-531 | rewriting entries one by one gives the normalised dictionary, or a refusal iff some argument has no normal form |
| WorkflowPayload.SamePayload | workspaces/vc-chief/vc/bin/vcrun.py:1021-1026 | two accepted texts have the same payload iff their normalised dictionaries are equal, whatever the order, spacing and escapes |
| WorkflowPayload.PayloadReadsBack | workspaces/vc-chief/vc/bin/vcrun.py:1021-1027 | the payload is ASCII and parses back to the normalised dictionary |
| WorkflowPayload.IdentifiersCanonical | workspaces/vc-chief/vc/bin/vcrun.py:442-445 | every identifier of accepted arguments keeps its value, which is the decimal of an integer the column can hold |
| WorkflowPayload.DigestInjected | workspaces/vc-chief/vc/bin/vcrun.py:1026-1029 | the text handed to Lobster parses to the normalised dictionary plus the digest of its payload, under a key no contract lets the caller use |
| CanonicalRetry.ObjectTextFixed | workspaces/vc-chief/vc/bin/vcrun.py:363-372 | a normalised object argument is normalised to itself iff no float of it overflows and joining its split pairs leaves distinct, sorted keys |
| CanonicalRetry.NoSplitsSettle | workspaces/vc-chief/vc/bin/vcrun.py:363-372 | which it does whenever the argument has no split pair |
| CanonicalRetry.NormalFixed | workspaces/vc-chief/vc/bin/vcrun.py:457-531 | a normalised argument passes the checks again and is normalised to itself iff it is none of these exceptions |
| CanonicalRetry.PayloadFixed | workspaces/vc-chief/vc/bin/vcrun.py:394-533 | a payload handed in again is accepted and is its own payload iff all JSON arguments are so and it and its values are within the size limits |
| SplitPairs.PrintDecides | workspaces/vc-chief/vc/bin/vcrun.py:372 | any printed value reads back with its split surrogate pairs joined, so two values print alike iff they differ in nothing else |
| SplitPairs.DumpsFuse | workspaces/vc-chief/vc/bin/vcrun.py:372 | two values have the same canonical text iff their canonical forms differ at most in split pairs |
| SplitPairs.ParsedStorable | workspaces/vc-chief/vc/bin/vcrun.py:355-371 | whatever the decoder gives is such a value, floats and long integers included |
| JsonArguments.ObjectTextDecides | workspaces/vc-chief/vc/bin/vcrun.py:363-372 | two JSON-object arguments, floats included, normalise to one text iff their canonical forms differ at most in split pairs; the text parses to that form |
| JsonArguments.SameTextSameValue | workspaces/vc-chief/vc/bin/vcrun.py:363-372 | without split pairs: iff they are the same JSON value |
| JsonArguments.SplitsCollide | workspaces/vc-chief/vc/bin/vcrun.py:363-372 | for every surrogate pair two argument texts the outer JSON can carry, of different values, with one normalised text |
| JsonArguments.ConstantsLeft | workspaces/vc-chief/vc/bin/vcrun.py:363-372 | a normalised text holds NaN or an infinity iff a float of it overflows or, in citations, the text held one |
| JsonArguments.ConstantPassesCitations | workspaces/vc-chief/vc/bin/vcrun.py:482-488 | a constant is refused in object arguments and passes through citations |
| JsonArguments.OverflowPasses | workspaces/vc-chief/vc/bin/vcrun.py:363-372 | an overflowing float in an object argument is normalised to the word Infinity |
| Redaction.RedactHides | workspaces/vc-chief/vc/bin/vcrun.py:587-603 | two documents redact to one iff they agree everywhere but under sensitive keys |
| Redaction.RedactCleans | workspaces/vc-chief/vc/bin/vcrun.py:587-595 | no value under a sensitive key survives at any depth, and a document without one is unchanged |
| Redaction.RedactAsDict | workspaces/vc-chief/vc/bin/vcrun.py:588-592 | redaction of a decoded object is redaction of its dictionary, repeated keys included |
| Redaction.OkKept | workspaces/vc-chief/vc/bin/vcrun.py:657-658 | the verdict read after redaction is the child's own |
| RedactionLaws.SensitiveMeans | workspaces/vc-chief/vc/bin/vcrun.py:598-603 | a key is sensitive iff somewhere in it the characters of a marker stand in order, each in either case, with nothing but other characters than letters and digits between them |
| RedactionLaws.RedactMeans | workspaces/vc-chief/vc/bin/vcrun.py:587-595 | at every depth the value of such a key is the marker text, and everything else is unchanged |
| Supervision.FirstStop | workspaces/vc-chief/vc/bin/vcrun.py:863-922 | reading stops at the first round that finds the deadline passed, the output closed or the limit exceeded, with all bytes read so far, at most one chunk above the limit |
| Supervision.ProtocolMeans | workspaces/vc-chief/vc/bin/vcrun.py:1041-1075 | a trace that follows the protocol has at most one launch and one reconciliation, with no group tracked at that point, and exactly one envelope iff it ran to the end |
| Supervision.RunIsSound | workspaces/vc-chief/vc/bin/vcrun.py:1020-1075 | every run follows the protocol, launches only after a probe that says go, reconciles exactly once iff it launched and is not ok, returns iff it emitted its envelope, with status zero iff that says ok, and returns iff none of the listed guards lets an exception escape |
| Supervision.ReconciledExactly | workspaces/vc-chief/vc/bin/vcrun.py:851-978 | every run launches iff the checks and the probe let it; a launched run makes exactly one reconciliation attempt, or none iff it was a dry run or the child ended in time with success or with output that makes the scan raise |
| Supervision.ConcludeLawful | workspaces/vc-chief/vc/bin/vcrun.py:783-821 | a failed run makes one reconciliation attempt, untracked, whose own failure keeps the original payload |
| Supervision.ListOutcomeRaises | workspaces/vc-chief/vc/bin/vcrun.py:741-774 | a granted reply whose outcome is a list raises, in the probe and in the reconciliation |
| RunLaws.ProbeDecides | workspaces/vc-chief/vc/bin/vcrun.py:701-742 | what each probe reply leads to: "completed" is reported as a replay and nothing is launched; "absent", "in_progress", "retried" and "unverifiable" launch if the installation still passes; an unreadable reply escapes; everything else is refused |
| RunLaws.ChecksDecide | workspaces/vc-chief/vc/bin/vcrun.py:1020-1045 | a check before the probe that refuses ends the run with the error envelope and code 2, one that raises ends it with nothing |
| RunLaws.ReconcileMeans | workspaces/vc-chief/vc/bin/vcrun.py:745-780 | what each reconciliation reply establishes: "not_started" without a run, or "already_failed" or "transitioned_failed" with a run in state "failed"; an unreadable reply raises; everything else establishes nothing |
| RunLaws.SomeRoundDecides | workspaces/vc-chief/vc/bin/vcrun.py:863-922 | every child reaches a round that stops or ends the reading loop, which one of the next two traces starts from |
| RunLaws.StoppedRun | workspaces/vc-chief/vc/bin/vcrun.py:863-953 | the whole trace of a run whose child overruns its time or 524288 bytes, or closes its output and does not exit: killed, reconciled with that reason, reported with code 1 |
| RunLaws.EndedRun | workspaces/vc-chief/vc/bin/vcrun.py:955-978 | the whole trace of a run whose child ends in time, by its code and its final object |
| Runner.Supervisor.ReadOutput | workspaces/vc-chief/vc/bin/vcrun.py:863-922 | the loop over the growing buffer computes that stop, and terminates |
| Runner.Supervisor.KillChild | workspaces/vc-chief/vc/bin/vcrun.py:273-285 | a kill drops the tracked group before anything else happens |
| Runner.Supervisor.JudgeExit | workspaces/vc-chief/vc/bin/vcrun.py:955-978 | what follows an exit in time: the verdict of the recovered, redacted envelope, its reason and its status |
| Runner.Supervisor.ExecuteChild | workspaces/vc-chief/vc/bin/vcrun.py:824-978 | every exit of the supervision adds exactly the specified events and leaves no group tracked |
| Runner.Supervisor.RunCommand | workspaces/vc-chief/vc/bin/vcrun.py:1020-1075 | the run and dry-run commands add exactly the specified events and leave no group tracked |
| Runner.SuccessDelivered | workspaces/vc-chief/vc/bin/vcrun.py:955-978 | a child that exits with zero after any log and a final object saying ok is reported as it said, redacted, and never reconciled |
| Runner.ReturnsOnShortNumbers | workspaces/vc-chief/vc/bin/vcrun.py:1020-1075 | if no check and no helper reply raises, only a digit run over the limit can keep a run from returning its envelope |
| Runner.LaunchedUnreconciled | workspaces/vc-chief/vc/bin/vcrun.py:955-978 | a launched run that neither reconciles nor emits anything |
| Runner.LaunchIsBound | workspaces/vc-chief/vc/bin/vcrun.py:1020-1045 | what a run launches gets the normalised arguments of an accepted text, bound to the digest of their canonical text |
| Quoting.ShellActiveText | scripts/validate_workflows.py:217-255 | the lexer's output has the length of the input and keeps exactly the unquoted positions, or with expansion also the double-quoted ones |
| Quoting.DoubleQuotedMask | scripts/validate_workflows.py:258-295 | the mask is true exactly on the double-quoted positions of the same classification |
| Quoting.PosixClassesAgree | scripts/validate_workflows.py:217-255 | the classification is that of POSIX section 2.2 but for a backslash and its follower inside double quotes where POSIX reads an ordinary backslash |
| Quoting.ReplaceKeepsClasses | scripts/validate_workflows.py:211-214 | replacing matches without quotes and backslashes leaves the class of every remaining character unchanged |
| Posix.OneField | scripts/validate_workflows.py:342-372 | a word whose expansions are quoted and that has no active glob or tilde expands to one field, whatever the parameters and the file system hold |
| WorkflowCommand.SanitizedKeepsClasses | scripts/validate_workflows.py:211-214 | both substitutions together leave the class of every remaining character of the command unchanged |
| WorkflowCommand.FindUnquotedRef | scripts/validate_workflows.py:321-328 | the mask scan finds a reference outside double quotes iff there is one |
| WorkflowCommand.ValidateCommand | scripts/validate_workflows.py:298-468 | no finding iff every scan of the text is clear, the wrapper is present and executable, the command is one it permits, and every option is one of the command |
| CommandLaws.PlainCommand | scripts/validate_workflows.py:298-468 | a command of plain characters and double-quoted bounded references has no finding only if the wrapper is reviewed, present and executable, the command permitted and no operator's, and every word with two dashes names an option of it; and then it has none, unless it mentions openclaw.invoke or --unsafe |
| CommandLaws.ActiveFound | scripts/validate_workflows.py:374-405 | an operator, a line end or a pattern character outside quotes always has a finding |
| CommandLaws.TildeFound | scripts/validate_workflows.py:409-417 | so has a tilde that starts a word outside quotes |
| CommandLaws.NameFound | scripts/validate_workflows.py:374-380 | so has any variable but a bounded reference, outside quotes or inside double ones |
| CommandLaws.RefBareFound | scripts/validate_workflows.py:308-334 | so has a bounded reference outside double quotes |
| CommandLaws.StepFound | scripts/validate_workflows.py:340-352 | so has a step reference anywhere |
| CommandLaws.SubstitutionFound | scripts/validate_workflows.py:308-309 | so has a command substitution in either form |
| CommandLaws.BraceFound | scripts/validate_workflows.py:310-311 | so has a braced expansion |
| CommandLaws.InvokeFound | scripts/validate_workflows.py:335-336 | so has the name of the mediated tool |
| CommandLaws.UnsafeFound | scripts/validate_workflows.py:337-338 | so has the unsafe flag as a word |
| ShellSoundness.Simulate | scripts/validate_workflows.py:211-214 | the shell reads the substituted text as it reads the command, with a one in place of each reference and the rest of the name it starts kept |
| ShellSoundness.ParamsQuoted | scripts/validate_workflows.py:320-339 | in a certified command every parameter the shell finds is double-quoted |
| ShellSoundness.BoundariesFixed | scripts/validate_workflows.py:308-417 | for every command without findings, the fields and their boundaries are the same for every value of the references as for the scanned text, or neither text is a simple command |
| ShellSoundness.TokensAreArguments | scripts/validate_workflows.py:419-433 | the shlex tokens are the arguments the shell builds from the scanned text iff the text has none of the constructs the two read differently |
| ShellSoundness.ArgumentsMatchTokens | scripts/validate_workflows.py:419-433 | then the shell passes one argument per token, and each token without a placeholder unchanged |
| ShellSoundness.CommandReached | scripts/validate_workflows.py:419-468 | under the same condition a command without findings runs a reviewed wrapper with a command it permits; and of every argument the part before the first equals sign, when the scanned text shows it without a placeholder, is what was scanned, and an option of the command if the argument starts with two dashes, whatever the references hold |
| ShellSoundness.CommentAccepted | scripts/validate_workflows.py:419-468 | after every plainly written wrapper and permitted command a comment has no finding: three tokens for the validator, two arguments for the shell |
| CaptureInvariants.StepInv | runtime-extensions/vc-trusted-context/index.js:246-370 | every hook keeps the bounds, conservation, session order, named keys and freshness of claims |
| CaptureInvariants.RunInv | runtime-extensions/vc-trusted-context/index.js:62-109 | every interleaving of hooks satisfies them: received = pending + claimed + expired + overflowed + evicted, queues at most 8, pending and blocked at most 2048, claimed at most 2049 |
| CaptureInvariants.ClaimsInArrivalOrder | runtime-extensions/vc-trusted-context/index.js:98-109 | in every interleaving no capture is claimed twice and the claims of a session happen in arrival order |
| CaptureInvariants.ClaimTakesOldest | runtime-extensions/vc-trusted-context/index.js:104-108 | a first claim takes the oldest pending capture of the run's own session |
| CaptureInvariants.NthClaimIsNthMessage | runtime-extensions/vc-trusted-context/index.js:98-109 | while nothing of a session is dropped its n-th claim is its n-th captured message |
| CaptureInvariants.ClaimKept | runtime-extensions/vc-trusted-context/index.js:98-102 | until evicted, a run keeps its claim through every hook call, its tokens carry that capture, and a run bound to a blocked capture is refused |
| CaptureInvariants.ClaimSticks | runtime-extensions/vc-trusted-context/index.js:73-84 | a claim is unchanged after any sequence of hooks that never evicts it |
| CaptureInvariants.TokenMatches | runtime-extensions/vc-trusted-context/index.js:301-311 | a token is only minted for a signable capture bound to the run, with the same sender and channel, that was within the window when first claimed |
| CaptureLaws.AttachmentRefused | runtime-extensions/vc-trusted-context/index.js:287-298 | a run marked for a non-document attachment is refused when it starts, whatever hooks came in between, unless 2048 other runs were marked since |
| CaptureLaws.RefusalHasCause | runtime-extensions/vc-trusted-context/index.js:349-369 | a run is refused only for such a mark since its last start, or for the unsupported attachment of the message it is bound to |
| CaptureLaws.ReceivedAre | runtime-extensions/vc-trusted-context/index.js:246-282 | exactly the messages with a session that can be signed or have an unsupported attachment are captured, in order, with their own fields and verdicts |
| CaptureLaws.OverflowExactly | runtime-extensions/vc-trusted-context/index.js:278-280 | an arrival drops a capture of its session iff eight wait there, and then the oldest |
| CaptureLaws.MessageGetsToken | runtime-extensions/vc-trusted-context/index.js:246-311 | alone in its session, a complete message gives its own token to the first unbound run that builds a prompt there within twenty minutes for the same sender and channel |
| CaptureLaws.MessageRefused | runtime-extensions/vc-trusted-context/index.js:246-369 | and one with an unsupported attachment, complete or not, refuses the run |
| CaptureLaws.TokenMinted | runtime-extensions/vc-trusted-context/index.js:301-311 | a run whose capture is signable and of the asked sender and channel gets its token, on every prompt build |
| CaptureLaws.BindingLasts | runtime-extensions/vc-trusted-context/index.js:73-84 | a run stays bound to what it claimed last until 2048 other runs have claimed something since |
| TrustedContext.TrimMap | runtime-extensions/vc-trusted-context/index.js:68-72 | the size cap removes the oldest keys down to the limit; its early exit is never taken |
| TrustedContext.Hooks.DropStale | runtime-extensions/vc-trusted-context/index.js:63-67 | the loop that deletes and replaces queues while iterating leaves exactly the fresh captures |
| TrustedContext.Hooks.Prune | runtime-extensions/vc-trusted-context/index.js:62-94 | the new state is the specified prune of the old one |
| TrustedContext.Hooks.ClaimCapture | runtime-extensions/vc-trusted-context/index.js:98-109 | the in-place claim is the specified one |
| TrustedContext.Hooks.MessageReceived | runtime-extensions/vc-trusted-context/index.js:246-282 | the hook keeps the invariant and does exactly the specified step, whatever its three clock readings are |
| TrustedContext.Hooks.BeforeModelResolve | runtime-extensions/vc-trusted-context/index.js:188-298 | with a non-document attachment the named run is marked and the Maps pruned, otherwise nothing changes |
| TrustedContext.Hooks.BeforePromptBuild | runtime-extensions/vc-trusted-context/index.js:301-346 | the hook keeps the invariant and returns the specified token or nothing |
| TrustedContext.Hooks.BeforeAgentRun | runtime-extensions/vc-trusted-context/index.js:349-369 | the hook keeps the invariant, consumes the run's block once and refuses as specified |
| ArchiveNames.NormalizedName | scripts/validate_recovery_archive.py:59-82 | the loop accepts exactly the good names and returns the kept segments joined |
| ArchiveNames.NameIsNormal | scripts/validate_recovery_archive.py:59-82 | a non-empty normalised name is a fixed point whose segments are never empty, `.` or `..` |
| ArchiveNames.ListFileRoundTrip | scripts/validate_recovery_archive.py:229-235 | the newline-joined list splits back into exactly the validated names |
| Archive.ValidateMembers | scripts/validate_recovery_archive.py:85-135 | the loop accepts iff the order-free condition and the budgets hold, and returns the entries and their total |
| Archive.OnlineMeansOrderFree | scripts/validate_recovery_archive.py:94-131 | the online check with its three sets equals: sound members, distinct names, no file a proper ancestor of another entry |
| Archive.AcceptanceOrderFree | scripts/validate_recovery_archive.py:94-135 | acceptance depends on the members only, not on their order |
| Extraction.Disk.StoreFile | scripts/validate_recovery_archive.py:151-168 | the block loop stores exactly the stream iff it has the declared size, and never writes more |
| Extraction.Disk.ExtractOne | scripts/validate_recovery_archive.py:142-168 | one round never collides and extends the tree by the entry and its ancestors |
| Extraction.ValidateAndExtract | scripts/validate_recovery_archive.py:138-168 | an accepted list extracts without collision; the tree holds exactly the files, directories and ancestors, and the bytes written are the validated total |
| Extraction.TreeOrderFree | scripts/validate_recovery_archive.py:138-168 | the extracted tree does not depend on member order |
| Integrity.Inventory | scripts/build_release_manifest.py:94-218 | the builder refuses iff something it would list or enumerate cannot be read, and otherwise lists exactly the inventoried files |
| Integrity.CheckDeclared | scripts/verify_release.py:126-157 | the declared-file loop has no finding iff paths are safe and distinct and every entry matches its file |
| Integrity.Verify | scripts/verify_release.py:126-239 | the pristine check passes iff the declared files match and no walked or unreadable path is a finding |
| Integrity.TolerancesAgree | scripts/verify_release.py:47-80 | the two unreadable-path predicates are equal on every path when the declared set has both placeholders |
| Integrity.CompiledMeans | scripts/build_release_manifest.py:184 | a file is left out as compiled iff its name is a non-empty stem before .pyc or .pyo |
| Integrity.PassMeansSameInventory | scripts/verify_release.py:126-239 | over a manifest built with both placeholders, a later tree passes iff the builder would write the same files, hashes, sizes and executable bits for it and the rest is orderly |
| Integrity.ReportedWasSkipped | scripts/build_release_manifest.py:166-191 | when the inventories agree, every path still reported is one the builder skips by a name rule or for not being a regular file |
| Integrity.PlaceholderNeeded | scripts/build_release_manifest.py:46-58 | without one of the placeholders in the manifest a tree with another inventory passes |
| Integrity.ShippedInLockstep | scripts/build_release_manifest.py:25-58 | the two scripts' own constant sets satisfy what the comparison needs |
| DeepMerge.DeepMergeLoop | scripts/render_channel_config.py:144-151 | the loop over the overlay's keys, in any order, computes the merge |
| DeepMerge.RightBiased | scripts/render_channel_config.py:144-151 | what stands at every path of the merge: the overlay's value, the merge of two tables, nothing below a value the overlay put, or the base's |
| DeepMerge.MergeIdempotent | scripts/render_channel_config.py:144-151 | merging the same overlay again changes nothing |
| DeepMerge.MergeAssociative | scripts/render_channel_config.py:144-151 | two overlays in sequence equal their merge iff no path loses a table of the base that the second overlay does not absorb |
| DeepMerge.NoLostPath | scripts/render_channel_config.py:144-151 | so they do whenever no path has objects in the base and second overlay but another value in the first |
| RuntimeSelection.Restore | scripts/render_channel_config.py:375-380 | the restoring loops add exactly the reviewed keys the renderer does not own |
| RuntimeSelection.BuildOwn | scripts/render_channel_config.py:221-370 | the appends, the guarded firecrawl append, setdefault and the path filter give the selected plugins, each once, load paths without the image's source tree, and one entry per plugin whatever the order of the parts |
| RuntimeSelection.Renderer.ApplyRuntimeSelection | scripts/render_channel_config.py:200-407 | refuses exactly the selections the source refuses; otherwise the allowlist holds exactly the selected plugins, the entries are theirs and the reviewed ones, what is reviewed and not selected stays, and nothing changes iff the configuration already was a rendering of the selection |
| RuntimeSelection.SelectIdempotent | scripts/render_channel_config.py:200-407 | rendering again changes nothing and is not refused |
| RuntimeSelection.SwitchExact | scripts/render_channel_config.py:371-381 | rendering another selection over an output equals rendering it afresh iff no entry, mode or timezone of the first is left over |
| RuntimeSelection.AllowExact | scripts/render_channel_config.py:477-489 | the allowlist has no duplicate and holds exactly the selected plugins, each with an enabled entry, so the plugin assertion cannot fail |
| BakedSources.BakedSourcesStream | scripts/record_images.py:129-167 | the walk fails iff a tree or an artifact is missing, no readable regular file, or named outside UTF-8, and otherwise gives the stream of exactly the artifacts |
| BakedSources.FirstEntry | scripts/record_images.py:145-166 | the first entry of a stream is determined by the stream, even when names hold line feeds |
| BakedSources.OneArtifact | scripts/record_images.py:144-166 | an artifact is written as its path, x or - for the executable bit, and its hash, with NUL between and a line feed after |
| BakedSources.HostGeneratedMeans | scripts/record_images.py:118-126 | a path is left out iff it ends in .pyc or .log, has a __pycache__ segment, or lies below .openclaw or memory of an agent's workspace |
| BakedSources.PreimageDecides | scripts/record_images.py:164-167 | two listings in any order give the same stream iff they hold the same artifacts |
| BakedSources.StreamDecides | scripts/record_images.py:129-167 | two trees give the same stream iff they have the same map from path to executable bit and hash |
| Dotenv.ParseDotenv | scripts/check_env.py:272-302 | the loop gives the specified map, or a refusal |
| Dotenv.AcceptedExactly | scripts/check_env.py:256-302 | a file is accepted iff it has no carriage return, every line is empty, starts with a number sign or is KEY=VALUE, and no key repeats |
| Dotenv.GrepAgrees | scripts/check_env.py:262-302 | in an accepted file a key is set iff a line starts with KEY=, there is one such line, and its rest is the value |
| Dotenv.RenderParses | scripts/check_env.py:277-302 | rendering any valid map in any order and parsing gives the map back |
| Dotenv.ParsesToValid | scripts/check_env.py:288-300 | the maps a file can give are exactly the valid ones |

## Left out

- PostgreSQL, the `vcops` helper, Lobster and the SQL migrations: only the replies `vcrun.py` looks for
  are modelled, as any of the outcomes it can meet.
- Signals, real process groups and descriptors, and operating-system calls that raise: runs are
  signal-free and no such call fails. The clock is any clock that advances whenever a round reads nothing.
- Python's recursion limit (`RecursionError` on deeply nested JSON).
- Which of several refusals a malformed argument text gets, its message, and the choice between a
  refusal and an escaping exception when both a repeated key and an over-long integer occur: arguments
  are accepted or not.
- The printing of floating-point numbers: a parameter that gives, for every float, a float again or an
  infinity, and keeps what it printed.
- The regular expressions for idempotency keys, URIs, domains and digests and the two path tests:
  predicates on strings. Of the domain test only that it accepts nothing outside ASCII, no white space
  and no final dot is used, of `str.lower` only that it leaves no ASCII capital and keeps other ASCII.
- The check that every contract key is classified (it concerns the constants only), `doctor` and
  `version`, and `_validate_install` beyond its outcome.
- UTF-8 decoding of the child's output with replacement: a function parameter.
- Which further findings a step reference in a command gets beside the one it always gets, and the
  texts and order of findings: a command has findings or none. The reviewed wrappers, their files, the
  commands, their options and the word characters of a regular expression are parameters.
- In the shell: operators, compound commands, assignments, aliases, reserved words, special parameters
  such as `$1` and `$@`, and `${...}`; the model refuses such text rather than give it a meaning. Tilde
  and pathname expansion may do anything at all.
- The signed token's other fields, HMAC, `mediaPaths` (its verdict is the message's `unsupported` flag),
  text trimming of hook fields, and `guardSkillWorkshop`. A capture's identity is a number counted in
  arrival order.
- gzip and tar formats, `lstat` and inode races of the archive, file modes other than the executable
  bit.
- Integrity: the declared-file loop reads the same map of nodes as the walk; JSON shape checks of the
  manifest and error texts.
- UTF-8 encoding of the digest stream, an injective map on encodable text, and SHA-256 over it.
- The opening, size and mode checks of the environment file, and `validate_channel_selection`,
  `_comma_list` and the secret-distinctness loop of `check_env.py`.
- Which search providers the image bundles: a set.
- `materialize_sentinels`, `apply_connectors`, the sentinel scan of `assert_effective_config`, and the
  contents of a model provider's block.
- `validate_applied_migrations`, `_required_repo_digest` and the lock-file checks of `record_images.py`.
- `manifest_delta` and `manifest_differences`: set differences of two inventories.
