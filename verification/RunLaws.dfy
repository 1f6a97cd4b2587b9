// What each helper reply and each end of the child lead to, written out on the replies and the traces.
module RunLaws {
  import opened PyText
  import opened Json
  import opened Options
  import opened Redaction
  import opened Supervision
  import LastObject

  // ---------------------------------------------------------------- dictionaries

  /** The last member with this key holds this value. */
  ghost predicate Holds(ms: seq<Member>, key: string, v: Json) {
    exists i :: LastAt(ms, Lit(key), i) && ms[i].value == v
  }

  predicate LastAt(ms: seq<Member>, key: PyStr, i: int) {
    0 <= i < |ms| && ms[i].key == key && forall j :: i < j < |ms| ==> ms[j].key != key
  }

  predicate Lacks(ms: seq<Member>, key: string) { forall j :: 0 <= j < |ms| ==> ms[j].key != Lit(key) }

  lemma {:induction false} LastWinsMeans(ms: seq<Member>, key: PyStr)
    ensures key in LastWins(ms) <==> exists i :: LastAt(ms, key, i)
    ensures forall i :: LastAt(ms, key, i) ==> key in LastWins(ms) && LastWins(ms)[key] == ms[i].value
    decreases |ms|
  {
    if ms != [] {
      var n := |ms| - 1;
      var front := ms[..n];
      LastWinsMeans(front, key);
      if ms[n].key == key {
        assert LastAt(ms, key, n);
      } else {
        forall i ensures LastAt(ms, key, i) <==> LastAt(front, key, i) {
          if LastAt(front, key, i) { assert forall j :: i < j < n ==> ms[j].key == front[j].key; }
          if LastAt(ms, key, i) { assert forall j :: i < j < n ==> ms[j].key == front[j].key; }
        }
      }
    }
  }

  lemma HoldsMeans(ms: seq<Member>, key: string, v: Json)
    ensures Holds(ms, key, v) <==> Lit(key) in LastWins(ms) && LastWins(ms)[Lit(key)] == v
    ensures Lacks(ms, key) <==> Lit(key) !in LastWins(ms)
  {
    LastWinsMeans(ms, Lit(key));
    if !Lacks(ms, key) { var i := LastOf(ms, Lit(key)); }
  }

  lemma {:induction false} LastOf(ms: seq<Member>, key: PyStr) returns (i: int)
    requires exists j :: 0 <= j < |ms| && ms[j].key == key
    ensures LastAt(ms, key, i)
    decreases |ms|
  {
    i := |ms| - 1;
    if ms[i].key != key {
      i := LastOf(ms[..i], key);
      assert forall j :: i < j < |ms| - 1 ==> ms[j].key == ms[..|ms|-1][j].key;
    }
  }

  /** dict.get. */
  lemma FieldMeans(ms: seq<Member>, key: string)
    ensures Holds(ms, key, Field(ms, Lit(key))) || (Lacks(ms, key) && Field(ms, Lit(key)) == Null)
    ensures forall v :: Holds(ms, key, v) ==> Field(ms, Lit(key)) == v
  {
    forall v ensures Holds(ms, key, v) ==> Field(ms, Lit(key)) == v { HoldsMeans(ms, key, v); }
    HoldsMeans(ms, key, Field(ms, Lit(key)));
  }

  // ---------------------------------------------------------------- what the replies mean

  /** A helper ended with code 0 and ok true, and gave an object with an outcome in this field. */
  ghost predicate Says(r: Reply, field: string, inner: seq<Member>, outcome: Json) {
    && r.Replied? && r.code == 0 && r.value.Obj? && Holds(r.value.members, "ok", Bool(true))
    && Holds(r.value.members, field, Obj(inner)) && Holds(inner, "outcome", outcome)
  }

  ghost predicate SaysText(r: Reply, field: string, outcome: string) {
    exists inner :: Says(r, field, inner, Str(Lit(outcome)))
  }

  /** Python fails on it with an exception the runner does not name: the bytes or an int() in them
      cannot be read, or the outcome is a list or an object and has no hash. */
  ghost predicate Unreadable(r: Reply, field: string) {
    || r.Undecodable?
    || (exists inner, items :: Says(r, field, inner, Arr(items)))
    || (exists inner, ms :: Says(r, field, inner, Obj(ms)))
  }

  const PROBE := "workflow_replay_probe"

  /** The outcomes on which the operation runs, again or for the first time. */
  ghost predicate SaysLaunch(r: Reply) {
    || SaysText(r, PROBE, "absent") || SaysText(r, PROBE, "in_progress")
    || SaysText(r, PROBE, "retried") || SaysText(r, PROBE, "unverifiable")
  }

  lemma SaysMeans(r: Reply, field: string, inner: seq<Member>, x: Json)
    requires Says(r, field, inner, x)
    ensures Granted(r) && Field(r.value.members, Lit(field)) == Obj(inner) && Field(inner, Lit("outcome")) == x
  {
    HoldsMeans(r.value.members, "ok", Bool(true));
    FieldMeans(r.value.members, field);
    FieldMeans(inner, "outcome");
  }

  /** The outcome ProbeReplay and ReconcileFailure look at, Null for a missing one. */
  lemma SaysField(r: Reply, field: string, inner: seq<Member>, x: Json)
    requires Granted(r) && Field(r.value.members, Lit(field)) == Obj(inner) && Field(inner, Lit("outcome")) == x
    ensures Says(r, field, inner, x) || x == Null
  {
    HoldsMeans(r.value.members, "ok", Bool(true));
    FieldMeans(r.value.members, field);
    FieldMeans(inner, "outcome");
  }

  lemma SaysNothing(r: Reply, field: string)
    requires !Granted(r) || !Field(r.value.members, Lit(field)).Obj?
    ensures forall inner, x :: !Says(r, field, inner, x)
  {
    forall inner, x ensures !Says(r, field, inner, x) {
      if Says(r, field, inner, x) { SaysMeans(r, field, inner, x); }
    }
  }

  lemma SaysOnly(r: Reply, field: string, inner: seq<Member>, x: Json)
    requires Granted(r) && Field(r.value.members, Lit(field)) == Obj(inner) && Field(inner, Lit("outcome")) == x
    ensures forall other, y :: Says(r, field, other, y) ==> other == inner && y == x
  {
    forall other, y | Says(r, field, other, y) ensures other == inner && y == x { SaysMeans(r, field, other, y); }
  }

  /** A text outcome is exactly one string. */
  lemma TextOnly(r: Reply, field: string, inner: seq<Member>, text: PyStr, o: string)
    requires Says(r, field, inner, Str(text))
    ensures SaysText(r, field, o) <==> text == Lit(o)
  {
    SaysMeans(r, field, inner, Str(text));
    SaysOnly(r, field, inner, Str(text));
  }

  lemma ProbeOfText(r: Reply, inner: seq<Member>, text: PyStr)
    requires Says(r, PROBE, inner, Str(text))
    ensures ProbeReplay(r) ==
            if SaysText(r, PROBE, "completed") then Completed(inner)
            else if SaysLaunch(r) then Go else ReplayRefused
  {
    SaysMeans(r, PROBE, inner, Str(text));
    TextOnly(r, PROBE, inner, text, "completed");
    TextOnly(r, PROBE, inner, text, "absent");
    TextOnly(r, PROBE, inner, text, "in_progress");
    TextOnly(r, PROBE, inner, text, "retried");
    TextOnly(r, PROBE, inner, text, "unverifiable");
  }

  lemma ProbeMeans(r: Reply)
    ensures Unreadable(r, PROBE) ==> ProbeReplay(r).ReplayRaises?
    ensures forall inner :: Says(r, PROBE, inner, Str(Lit("completed"))) ==> ProbeReplay(r) == Completed(inner)
    ensures SaysLaunch(r) ==> ProbeReplay(r).Go?
    ensures !Unreadable(r, PROBE) && !SaysLaunch(r) && !SaysText(r, PROBE, "completed") ==>
      ProbeReplay(r).ReplayRefused?
  {
    if r.Undecodable? {
      SaysNothing(r, PROBE);
    } else if !Granted(r) || !Field(r.value.members, Lit(PROBE)).Obj? {
      SaysNothing(r, PROBE);
    } else {
      var inner := Field(r.value.members, Lit(PROBE)).members;
      var x := Field(inner, Lit("outcome"));
      SaysField(r, PROBE, inner, x);
      SaysOnly(r, PROBE, inner, x);
      if x.Str? { ProbeOfText(r, inner, x.text); }
    }
  }

  // ---------------------------------------------------------------- the probe decides

  predicate Ready(w: World) { w.args.Passed? && w.install.Passed? }

  /** Each probe reply leads to one thing: "completed" is reported as a replay and nothing is launched;
      "absent", "in_progress", "retried" and "unverifiable" launch when the installation still passes;
      an unreadable reply escapes; everything else is refused. */
  lemma ProbeDecides(w: World)
    requires Physical(w) && Ready(w)
    ensures var o := RunWorkflow(w, false);
      && (forall probe :: Says(w.probe, PROBE, probe, Str(Lit("completed"))) ==>
            o == Outcome([Probed, Emitted(Replayed(probe))], Returned(0)))
      && (SaysLaunch(w.probe) ==>
            match w.installAgain
            case Passed => |o.events| >= 2 && o.events[0] == Probed && o.events[1] == Launched(w.text)
            case Refused => o == Outcome([Probed, Emitted(Error)], Returned(2))
            case Raises => o == Outcome([Probed], Traceback))
      && (Unreadable(w.probe, PROBE) ==> o == Outcome([Probed], Traceback))
      && (!SaysText(w.probe, PROBE, "completed") && !SaysLaunch(w.probe) && !Unreadable(w.probe, PROBE) ==>
            o == Outcome([Probed, Emitted(Error)], Returned(2)))
  {
    ProbeMeans(w.probe);
  }

  /** The check that decides before anything is probed or launched, if one does not pass. */
  function FirstCheck(w: World, dryRun: bool): Check {
    if !w.args.Passed? then w.args else if dryRun then w.installAgain else w.install
  }

  /** A check that refuses gives the error envelope with code 2, one that raises gives nothing. */
  lemma ChecksDecide(w: World, dryRun: bool)
    requires Physical(w)
    ensures FirstCheck(w, dryRun).Refused? ==> RunWorkflow(w, dryRun) == Outcome([Emitted(Error)], Returned(2))
    ensures FirstCheck(w, dryRun).Raises? ==> RunWorkflow(w, dryRun) == Outcome([], Traceback)
  {
  }

  // ---------------------------------------------------------------- the reconciliation decides

  const FAILURE := "workflow_failure_reconciliation"

  /** The run it found is in state failed. */
  ghost predicate FailedRun(rec: seq<Member>) {
    exists run :: Holds(rec, "workflow_run", Obj(run)) && Holds(run, "status", Str(Lit("failed")))
  }

  ghost predicate NoRun(rec: seq<Member>) { Lacks(rec, "workflow_run") || Holds(rec, "workflow_run", Null) }

  /** The reply shows that no run is left open. */
  ghost predicate Establishes(r: Reply) {
    || (exists rec :: Says(r, FAILURE, rec, Str(Lit("not_started"))) && NoRun(rec))
    || (exists rec :: Says(r, FAILURE, rec, Str(Lit("already_failed"))) && FailedRun(rec))
    || (exists rec :: Says(r, FAILURE, rec, Str(Lit("transitioned_failed"))) && FailedRun(rec))
  }

  lemma RunMeans(rec: seq<Member>)
    ensures NoRun(rec) <==> Field(rec, Lit("workflow_run")).Null?
    ensures FailedRun(rec) <==>
      && Field(rec, Lit("workflow_run")).Obj?
      && Field(Field(rec, Lit("workflow_run")).members, Lit("status")) == Str(Lit("failed"))
  {
    var run := Field(rec, Lit("workflow_run"));
    FieldMeans(rec, "workflow_run");
    if run.Obj? { FieldMeans(run.members, "status"); }
  }

  lemma EstablishesText(r: Reply, rec: seq<Member>, text: PyStr)
    requires Says(r, FAILURE, rec, Str(text))
    ensures Establishes(r) <==>
      || (text == Lit("not_started") && NoRun(rec))
      || ((text == Lit("already_failed") || text == Lit("transitioned_failed")) && FailedRun(rec))
  {
    SaysMeans(r, FAILURE, rec, Str(text));
    SaysOnly(r, FAILURE, rec, Str(text));
  }

  lemma FailureOfText(r: Reply, rec: seq<Member>, text: PyStr)
    requires Says(r, FAILURE, rec, Str(text))
    ensures ReconcileFailure(r) == if Establishes(r) then Gave(r.value.members) else Threw
  {
    SaysMeans(r, FAILURE, rec, Str(text));
    EstablishesText(r, rec, text);
    RunMeans(rec);
    assert Lit("not_started")[0] != Lit("already_failed")[0];
    assert Lit("not_started")[0] != Lit("transitioned_failed")[0];
  }

  lemma ReconcileMeans(r: Reply)
    ensures Unreadable(r, FAILURE) ==> ReconcileFailure(r).HookRaises?
    ensures !Unreadable(r, FAILURE) && Establishes(r) ==> ReconcileFailure(r) == Gave(r.value.members)
    ensures !Unreadable(r, FAILURE) && !Establishes(r) ==> ReconcileFailure(r).Threw?
  {
    if r.Undecodable? || !Granted(r) || !Field(r.value.members, Lit(FAILURE)).Obj? {
      if !r.Undecodable? { SaysNothing(r, FAILURE); }
    } else {
      var inner := Field(r.value.members, Lit(FAILURE)).members;
      var x := Field(inner, Lit("outcome"));
      SaysField(r, FAILURE, inner, x);
      SaysOnly(r, FAILURE, inner, x);
      if x.Str? { FailureOfText(r, inner, x.text); }
    }
  }

  // ---------------------------------------------------------------- the child decides

  /** Round k of the reading loop neither stops nor ends it: time is left, the output is open, and no
      more than 524288 bytes came. */
  predicate WithinBounds(w: World, k: nat) {
    w.clock(k) < w.deadline && !w.got(k).Eof? && |Sent(w, k + 1)| <= 524288
  }

  /** Round n is the first that is not. */
  ghost predicate Decisive(w: World, n: nat) { !WithinBounds(w, n) && forall k :: 0 <= k < n ==> WithinBounds(w, k) }

  lemma BoundsMean(w: World, k: nat)
    ensures WithinBounds(w, k) <==> Continues(w, k)
  {
  }

  /** Every child reaches one decisive round. */
  lemma SomeRoundDecides(w: World) returns (n: nat)
    requires Physical(w)
    ensures Decisive(w, n)
  {
    n := FirstStop(w);
    BoundsMean(w, n);
    forall k | 0 <= k < n ensures WithinBounds(w, k) { assert Continues(w, k); BoundsMean(w, k); }
  }

  lemma OneRoundDecides(w: World, n: nat, m: nat)
    requires Decisive(w, n) && Decisive(w, m)
    ensures n == m
  {
    assert !WithinBounds(w, n) && !WithinBounds(w, m);
  }

  lemma StopKnown(w: World, n: nat)
    requires Physical(w) && Decisive(w, n)
    ensures StopsAt(w, n, Supervise(w, 0, []))
  {
    var m := FirstStop(w);
    BoundsMean(w, m);
    forall k | 0 <= k < m ensures WithinBounds(w, k) { assert Continues(w, k); BoundsMean(w, k); }
    OneRoundDecides(w, n, m);
  }

  /** The checks passed and the probe, which a dry run does not make, lets the child run. */
  ghost predicate Launching(w: World, dryRun: bool) {
    && w.args.Passed? && w.installAgain.Passed?
    && (dryRun || (w.install.Passed? && SaysLaunch(w.probe)))
  }

  function Lead(w: World, dryRun: bool): seq<Event> { (if dryRun then [] else [Probed]) + [Launched(w.text)] }

  /** The rest of a failed run: a dry run sends its envelope as it is; any other one reconciles once,
      with nothing tracked, and sends it with what the reply establishes, unless that is unreadable. */
  ghost predicate Concludes(o: Outcome, before: seq<Event>, w: World, dryRun: bool, why: Reason, e: Envelope, code: int)
    requires e.Stopped? || e.Ended?
  {
    if dryRun then o == Outcome(before + [Emitted(e.(cleanup := NotAttempted))], Returned(code))
    else if Unreadable(w.reconcile, FAILURE) then o == Outcome(before + [Reconciling(why, [])], Traceback)
    else if Establishes(w.reconcile) then
      o == Outcome(
        before + [Reconciling(why, []), Emitted(e.(cleanup := Established(w.reconcile.value.members)))], Returned(code))
    else o == Outcome(before + [Reconciling(why, []), Emitted(e.(cleanup := NotEstablished))], Returned(code))
  }

  lemma ConcludeMeans(w: World, dryRun: bool, why: Reason, e: Envelope, code: int)
    requires (e.Stopped? || e.Ended?) && e.cleanup == NotAttempted
    ensures Concludes(Conclude(w, !dryRun, why, e, code), [], w, dryRun, why, e, code)
  {
    ReconcileMeans(w.reconcile);
  }

  lemma ConcludesAfter(x: Event, before: seq<Event>, o: Outcome, w: World, dryRun: bool, why: Reason,
                       e: Envelope, code: int)
    requires (e.Stopped? || e.Ended?) && Concludes(o, before, w, dryRun, why, e, code)
    ensures Concludes(After(x, o), [x] + before, w, dryRun, why, e, code)
  {
  }

  /** What a launched run does once it is launched. */
  lemma LaunchedRun(w: World, dryRun: bool)
    requires Physical(w) && Launching(w, dryRun)
    ensures RunWorkflow(w, dryRun) == if dryRun then Execute(w, false) else After(Probed, Execute(w, true))
  {
    if !dryRun { ProbeMeans(w.probe); }
  }

  /** A child over its time or its bytes, and one that closed its output and did not exit, is killed
      and its run fails with that reason and code 1. */
  lemma StoppedRun(w: World, dryRun: bool, n: nat, why: Reason)
    requires Physical(w) && Launching(w, dryRun) && Decisive(w, n)
    requires match why
      case LobsterTimeout => w.clock(n) >= w.deadline
      case OutputLimit => w.clock(n) < w.deadline && !w.got(n).Eof?
      case NoExit => w.clock(n) < w.deadline && w.got(n).Eof? && w.exit.None?
      case _ => false
    ensures var e := Stopped(why, w.reaped, NotAttempted);
      Concludes(RunWorkflow(w, dryRun), Lead(w, dryRun) + [Killed], w, dryRun, why, e, 1)
  {
    StopKnown(w, n);
    LaunchedRun(w, dryRun);
    var e := Stopped(why, w.reaped, NotAttempted);
    var o := Conclude(w, !dryRun, why, e, 1);
    ConcludeMeans(w, dryRun, why, e, 1);
    ConcludesAfter(Killed, [], o, w, dryRun, why, e, 1);
    ConcludesAfter(Launched(w.text), [Killed] + [], After(Killed, o), w, dryRun, why, e, 1);
    var more := [Launched(w.text)] + ([Killed] + []);
    assert Execute(w, !dryRun) == After(Launched(w.text), After(Killed, o));
    if dryRun {
      assert Lead(w, dryRun) + [Killed] == more;
    } else {
      ConcludesAfter(Probed, more, Execute(w, true), w, dryRun, why, e, 1);
      assert Lead(w, dryRun) + [Killed] == [Probed] + more;
    }
  }

  /** A child that closed its output and exited is judged by its code and its final object. */
  lemma EndedRun(w: World, dryRun: bool, n: nat, code: int, found: LastObject.Scan)
    requires Physical(w) && Launching(w, dryRun) && Decisive(w, n)
    requires w.clock(n) < w.deadline && w.got(n).Eof? && w.exit == Some(code)
    requires LastObject.Answers(w.decode(Sent(w, n)), found)
    ensures var o := RunWorkflow(w, dryRun); var status := if code == 0 then 1 else code;
      match found
      case Raised => o == Outcome(Lead(w, dryRun), Traceback)
      case NoObject =>
        Concludes(o, Lead(w, dryRun), w, dryRun, InvalidOutput, Ended(false, code, None, NotAttempted), status)
      case Found(ms) =>
        if code == 0 && Holds(ms, "ok", Bool(true)) then
          o == Outcome(Lead(w, dryRun) + [Emitted(Ended(true, 0, Some(RedactMembers(ms)), NotAttempted))], Returned(0))
        else
          Concludes(o, Lead(w, dryRun), w, dryRun, StepFailure,
                    Ended(false, code, Some(RedactMembers(ms)), NotAttempted), status)
  {
    StopKnown(w, n);
    LaunchedRun(w, dryRun);
    var text := w.decode(Sent(w, n));
    LastObject.ScanAnswers(text, |text|, found);
    var judged := Judge(w, !dryRun, code, found);
    assert Execute(w, !dryRun) == After(Launched(w.text), judged);
    match found
    case Raised =>
    case NoObject =>
      FailedEnd(w, dryRun, InvalidOutput, Ended(false, code, None, NotAttempted), if code == 0 then 1 else code);
    case Found(ms) =>
      HoldsMeans(ms, "ok", Bool(true));
      if code != 0 || !Holds(ms, "ok", Bool(true)) {
        FailedEnd(w, dryRun, StepFailure, Ended(false, code, Some(RedactMembers(ms)), NotAttempted),
                  if code == 0 then 1 else code);
      }
  }

  lemma FailedEnd(w: World, dryRun: bool, why: Reason, e: Envelope, code: int)
    requires e.Ended? && e.cleanup == NotAttempted
    ensures var rest := After(Launched(w.text), Conclude(w, !dryRun, why, e, code));
      Concludes(if dryRun then rest else After(Probed, rest), Lead(w, dryRun), w, dryRun, why, e, code)
  {
    var o := Conclude(w, !dryRun, why, e, code);
    ConcludeMeans(w, dryRun, why, e, code);
    ConcludesAfter(Launched(w.text), [], o, w, dryRun, why, e, code);
    var more := [Launched(w.text)] + [];
    if dryRun {
      assert Lead(w, dryRun) == more;
    } else {
      ConcludesAfter(Probed, more, After(Launched(w.text), o), w, dryRun, why, e, code);
      assert Lead(w, dryRun) == [Probed] + more;
    }
  }
}
