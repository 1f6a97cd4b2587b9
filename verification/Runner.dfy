// The same run as vcrun.py carries it out: the tracked process group and the growing output change
// step by step.
module Runner {
  import opened PyText
  import opened Json
  import opened Options
  import opened Redaction
  import opened Supervision
  import LastObject
  import JsonText
  import WorkflowArgs
  import WorkflowPayload

  /** The trace grew by the events of the outcome. */
  predicate Adds(before: seq<Event>, o: Outcome, after: seq<Event>, ending: Ending) {
    after == before + o.events && ending == o.ending
  }

  lemma AddsAfter(before: seq<Event>, e: Event, o: Outcome, after: seq<Event>, ending: Ending)
    requires Adds(before + [e], o, after, ending)
    ensures Adds(before, After(e, o), after, ending)
  {
    assert before + [e] + o.events == before + ([e] + o.events);
  }

  class Supervisor {
    /** _CURRENT_CHILD_PGID. */
    var tracked: seq<int>
    ghost var events: seq<Event>

    constructor ()
      ensures tracked == [] && events == []
    {
      tracked, events := [], [];
    }

    method WaitAfterKill()
      modifies this`tracked
      ensures tracked == []
    {
      tracked := [];
    }

    /** The reading loop, without what it does once it stops. */
    method ReadOutput(w: World) returns (stop: Stop)
      requires Physical(w)
      ensures stop == Supervise(w, 0, [])
    {
      var captured: seq<Byte> := [];
      var i := 0;
      while true
        invariant |captured| <= MAX_OUTPUT_BYTES
        invariant Supervise(w, i, captured) == Supervise(w, 0, [])
        decreases TimeLeft(w, i), MAX_OUTPUT_BYTES - |captured|
      {
        assert Ticks(w, i);
        if w.clock(i) >= w.deadline { return Overtime(captured); }
        match w.got(i) {
          case Eof => return Closed(captured);
          case Nothing =>
          case Chunk(bytes) =>
            captured := captured + bytes;
            if |captured| > MAX_OUTPUT_BYTES { return Overflow(captured); }
        }
        i := i + 1;
      }
    }

    /** _attach_failure_reconciliation, _emit and the return. */
    method Report(w: World, hooked: bool, reason: Reason, payload: Envelope, code: int) returns (ending: Ending)
      requires payload.Stopped? || payload.Ended?
      requires tracked == []
      modifies this`events
      ensures Adds(old(events), Conclude(w, hooked, reason, payload, code), events, ending)
    {
      var sent := payload;
      if hooked {
        events := events + [Reconciling(reason, tracked)];
        match ReconcileFailure(w.reconcile) {
          case HookRaises => return Traceback;
          case Threw => sent := payload.(cleanup := NotEstablished);
          case Gave(result) => sent := payload.(cleanup := Established(result));
        }
      }
      events := events + [Emitted(sent)];
      ending := Returned(code);
    }

    method KillChild(w: World, hooked: bool, reason: Reason) returns (ending: Ending)
      modifies this
      ensures tracked == []
      ensures Adds(old(events), Kill(w, hooked, reason), events, ending)
    {
      ghost var before := events;
      events := events + [Killed];
      WaitAfterKill();
      var payload := Stopped(reason, w.reaped, NotAttempted);
      ending := Report(w, hooked, reason, payload, 1);
      AddsAfter(before, Killed, Conclude(w, hooked, reason, payload, 1), events, ending);
    }

    /** What follows an exit in time: _normalize_lobster_output and the rest of _execute. */
    method JudgeExit(w: World, hooked: bool, code: int, captured: seq<Byte>) returns (ending: Ending)
      requires tracked == []
      modifies this
      ensures tracked == []
      ensures Adds(old(events), Judge(w, hooked, code, Scan(w, captured)), events, ending)
    {
      var found := LastObject.LastJsonObject(w.decode(captured));
      LastObject.ScanAnswers(w.decode(captured), |w.decode(captured)|, found);
      var payload, reason;
      match found {
        case Raised => return Traceback;
        case NoObject => payload, reason := Ended(false, code, None, NotAttempted), InvalidOutput;
        case Found(ms) =>
          var redacted := RedactMembers(ms);
          OkKept(ms);
          payload := Ended(code == 0 && IsTrue(redacted, OK), code, Some(redacted), NotAttempted);
          reason := StepFailure;
      }
      if payload.ok {
        events := events + [Emitted(payload)];
        ending := Returned(0);
      } else {
        ending := Report(w, hooked, reason, payload, if code == 0 then 1 else code);
      }
    }

    method ExecuteChild(w: World, hooked: bool) returns (ending: Ending)
      requires Physical(w) && tracked == []
      modifies this
      ensures tracked == []
      ensures Adds(old(events), Execute(w, hooked), events, ending)
    {
      if w.installAgain.Raises? { return Traceback; }
      if w.installAgain.Refused? {
        events := events + [Emitted(Error)];
        return Returned(2);
      }
      ghost var before := events;
      events := events + [Launched(w.text)];
      tracked := [w.pid];
      var stop := ReadOutput(w);
      ghost var rest: Outcome;
      match stop {
        case Overtime(_) =>
          rest := Kill(w, hooked, LobsterTimeout);
          ending := KillChild(w, hooked, LobsterTimeout);
        case Overflow(_) =>
          rest := Kill(w, hooked, OutputLimit);
          ending := KillChild(w, hooked, OutputLimit);
        case Closed(captured) =>
          if w.exit.Some? {
            tracked := [];
            rest := Judge(w, hooked, w.exit.value, Scan(w, captured));
            ending := JudgeExit(w, hooked, w.exit.value, captured);
          } else {
            rest := Kill(w, hooked, NoExit);
            ending := KillChild(w, hooked, NoExit);
          }
      }
      AddsAfter(before, Launched(w.text), rest, events, ending);
    }

    /** The run and dry-run commands. */
    method RunCommand(w: World, dryRun: bool) returns (ending: Ending)
      requires Physical(w) && tracked == []
      modifies this
      ensures tracked == []
      ensures Adds(old(events), RunWorkflow(w, dryRun), events, ending)
    {
      if w.args.Raises? { return Traceback; }
      if w.args.Refused? { ending := RefuseRun(); return; }
      if dryRun { ending := ExecuteChild(w, false); return; }
      if w.install.Raises? { return Traceback; }
      if w.install.Refused? { ending := RefuseRun(); return; }
      ghost var before := events;
      events := events + [Probed];
      ghost var rest: Outcome;
      match ProbeReplay(w.probe) {
        case ReplayRaises =>
          rest := Outcome([], Traceback);
          ending := Traceback;
        case ReplayRefused =>
          rest := Refusal();
          ending := RefuseRun();
        case Completed(probe) =>
          rest := Outcome([Emitted(Replayed(probe))], Returned(0));
          events := events + [Emitted(Replayed(probe))];
          ending := Returned(0);
        case Go =>
          rest := Execute(w, true);
          ending := ExecuteChild(w, true);
      }
      AddsAfter(before, Probed, rest, events, ending);
    }

    method RefuseRun() returns (ending: Ending)
      modifies this`events
      ensures Adds(old(events), Refusal(), events, ending)
    {
      events := events + [Emitted(Error)];
      ending := Returned(2);
    }
  }

  // ---------------------------------------------------------------- end to end

  /** A child that closes its output in time, exits with zero and ends any log with an object saying
      ok, with no digit run over the limit, is reported as it said, redacted, and never reconciled. */
  lemma SuccessDelivered(w: World, hooked: bool, captured: seq<Byte>, log: PyStr, text: PyStr)
    requires Physical(w) && w.installAgain.Passed? && Supervise(w, 0, []) == Closed(captured) && w.exit == Some(0)
    requires w.decode(captured) == log + text && text != [] && LastObject.Try(text, 0).Hit?
    requires !LastObject.LongRun(text, 0) && IsTrue(LastObject.Try(text, 0).value, OK)
    ensures var ms := LastObject.Try(text, 0).value;
      && Execute(w, hooked) ==
           Outcome([Launched(w.text), Emitted(Ended(true, 0, Some(RedactMembers(ms)), NotAttempted))], Returned(0))
      && CleanMembers(RedactMembers(ms)) && IsTrue(RedactMembers(ms), OK)
  {
    var found := Scan(w, captured);
    LastObject.ScanAnswers(log + text, |log + text|, found);
    LastObject.ShortNumbersFound(log, text, found);
    RedactCleansMembers(found.value);
    OkKept(found.value);
  }

  /** Without an escaping exception in a helper or a check, only a digit run over the limit in the
      child's output can keep a run from returning with its envelope. */
  lemma ReturnsOnShortNumbers(w: World, dryRun: bool)
    requires Physical(w) && !w.args.Raises? && !w.install.Raises? && !w.installAgain.Raises?
    requires !ProbeReplay(w.probe).ReplayRaises? && !ReconcileFailure(w.reconcile).HookRaises?
    requires !LastObject.LongRun(w.decode(Supervise(w, 0, []).captured), 0)
    ensures RunWorkflow(w, dryRun).ending.Returned?
    ensures Follow(Fresh, RunWorkflow(w, dryRun).events).Done?
  {
    RunIsSound(w, dryRun);
    var captured := Supervise(w, 0, []).captured;
    LastObject.ScanAnswers(w.decode(captured), |w.decode(captured)|, Scan(w, captured));
    if Scan(w, captured).Raised? { LastObject.RaisedLong(w.decode(captured)); }
  }

  /** The envelope `{"a":["{",":<digits>"]}` with more than 4300 digits is valid JSON, and a launched
      run whose child ends with it neither reconciles nor emits anything. */
  lemma LaunchedUnreconciled(w: World, captured: seq<Byte>, digits: PyStr)
    requires Physical(w) && w.args.Passed? && w.install.Passed? && ProbeReplay(w.probe).Go? && w.installAgain.Passed?
    requires Supervise(w, 0, []) == Closed(captured) && w.exit.Some?
    requires |digits| > MAX_INT_DIGITS && digits[0] != ZERO && forall k :: 0 <= k < |digits| ==> IsDigit(digits[k])
    requires w.decode(captured) == LastObject.StringWithNumber(digits)
    ensures RunWorkflow(w, false) == Outcome([Probed, Launched(w.text)], Traceback)
  {
    var text := LastObject.StringWithNumber(digits);
    LastObject.ScanAnswers(text, |text|, Scan(w, captured));
    LastObject.FinalObjectMissed(digits, Scan(w, captured));
    assert [Probed] + ([Launched(w.text)] + []) == [Probed, Launched(w.text)];
  }

  /** The arguments of the run are those of the text raw for the workflow f. */
  ghost predicate RunOf(w: World, r: WorkflowArgs.Rules, f: WorkflowArgs.Workflow, raw: PyStr, sha256: PyStr -> PyStr) {
    && (w.args.Passed? <==> WorkflowArgs.Accepted(r, f, raw))
    && (w.args.Passed? ==>
          w.text == WorkflowPayload.FinalText(WorkflowArgs.Payload(r, f, WorkflowArgs.Args(raw).value), sha256))
  }

  /** Whatever a run launches gets the normalised arguments of an accepted text, bound to the digest of
      their canonical text. */
  lemma LaunchIsBound(w: World, dryRun: bool, r: WorkflowArgs.Rules, f: WorkflowArgs.Workflow, raw: PyStr,
    sha256: PyStr -> PyStr, i: nat)
    requires Physical(w) && RunOf(w, r, f, raw, sha256)
    requires WorkflowPayload.AsciiRules(r) && (forall x :: JsonText.Paired(sha256(x)))
    requires i < |RunWorkflow(w, dryRun).events| && RunWorkflow(w, dryRun).events[i].Launched?
    ensures WorkflowArgs.Accepted(r, f, raw)
    ensures var n := WorkflowArgs.Normalised(r, f, WorkflowArgs.Args(raw).value);
      var payload := WorkflowArgs.Payload(r, f, WorkflowArgs.Args(raw).value);
      var given := JsonText.Loads(RunWorkflow(w, dryRun).events[i].text);
      && given.Done? && given.value.Obj?
      && LastWins(given.value.members) == LastWins(n)[WorkflowArgs.INPUT_DIGEST := Str(sha256(payload))]
  {
    LaunchText(w, dryRun, i);
    WorkflowPayload.DigestInjected(r, f, raw, sha256);
  }
}
