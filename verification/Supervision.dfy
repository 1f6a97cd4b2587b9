// vcrun.py's run path: ask for a replay, launch the child once, read it under a time and a byte
// bound, kill it when it exceeds them, reconcile the failure, emit one envelope.
module Supervision {
  import opened PyText
  import opened Json
  import opened Options
  import opened Redaction
  import LastObject

  const MAX_OUTPUT_BYTES := 512 * 1024
  const CHUNK_BYTES := 65536

  type Byte = b: int | 0 <= b < 256

  // ---------------------------------------------------------------- what the outside gives

  /** Raises stands for an exception that no handler of main names. */
  datatype Check = Passed | Refused | Raises

  /** One helper process. NotJson is a JSONDecodeError or a repeated key; Undecodable is a ValueError
      of another kind, from the decoding of its bytes or from int(). */
  datatype Reply = TimedOut | TooLong | NotJson | Undecodable | Replied(code: int, value: Json)

  datatype Read = Nothing | Chunk(bytes: seq<Byte>) | Eof

  /** text is the argument text for Lobster, when the arguments pass; clock(i) and got(i) are what
      round i of the reading loop finds; exit is what wait gives within its bound, reaped the return
      code known after a kill. */
  datatype World = World(
    args: Check, text: PyStr, install: Check, installAgain: Check, probe: Reply, pid: int,
    deadline: int, clock: nat -> int, got: nat -> Read, decode: seq<Byte> -> PyStr,
    exit: Option<int>, reaped: Option<int>, reconcile: Reply)

  predicate Ticks(w: World, i: nat) {
    && w.clock(i) <= w.clock(i + 1)
    && (w.got(i).Nothing? ==> w.clock(i) < w.clock(i + 1))
    && (w.got(i).Chunk? ==> 0 < |w.got(i).bytes| <= CHUNK_BYTES)
  }

  /** A round that reads nothing takes time, a read gives 1 to 65536 bytes, and a child's return code
      is a byte or the negative number of a signal. */
  ghost predicate Physical(w: World) {
    && (forall i: nat :: Ticks(w, i))
    && (w.exit.Some? ==> -64 <= w.exit.value < 256)
  }

  // ---------------------------------------------------------------- helper replies

  function Field(ms: seq<Member>, key: PyStr): Json { if key in LastWins(ms) then LastWins(ms)[key] else Null }

  predicate Unhashable(v: Json) { v.Arr? || v.Obj? }

  /** A helper result with return code zero and ok true. */
  predicate Granted(r: Reply) { r.Replied? && r.code == 0 && r.value.Obj? && IsTrue(r.value.members, OK) }

  const PROBE_OUTCOMES := {Lit("absent"), Lit("in_progress"), Lit("completed"), Lit("retried"), Lit("unverifiable")}

  datatype Replay = Go | Completed(probe: seq<Member>) | ReplayRefused | ReplayRaises

  function ProbeReplay(r: Reply): Replay {
    if r.Undecodable? then ReplayRaises
    else if !Granted(r) then ReplayRefused
    else
      var probe := Field(r.value.members, Lit("workflow_replay_probe"));
      if !probe.Obj? then ReplayRefused
      else
        var outcome := Field(probe.members, Lit("outcome"));
        if Unhashable(outcome) then ReplayRaises
        else if !outcome.Str? || outcome.text !in PROBE_OUTCOMES then ReplayRefused
        else if outcome.text == Lit("completed") then Completed(probe.members)
        else Go
  }

  const FAILURE_OUTCOMES := {Lit("not_started"), Lit("already_failed"), Lit("transitioned_failed")}

  datatype Hook = Gave(result: seq<Member>) | Threw | HookRaises

  function ReconcileFailure(r: Reply): Hook {
    if r.Undecodable? then HookRaises
    else if !Granted(r) then Threw
    else
      var rec := Field(r.value.members, Lit("workflow_failure_reconciliation"));
      if !rec.Obj? then Threw
      else
        var outcome := Field(rec.members, Lit("outcome"));
        var run := Field(rec.members, Lit("workflow_run"));
        if Unhashable(outcome) then HookRaises
        else if !outcome.Str? || outcome.text !in FAILURE_OUTCOMES then Threw
        else if outcome.text == Lit("not_started") then (if run.Null? then Gave(r.value.members) else Threw)
        else if !run.Obj? || Field(run.members, Lit("status")) != Str(Lit("failed")) then Threw
        else Gave(r.value.members)
  }

  // ---------------------------------------------------------------- what the runner does

  datatype Reason = LobsterTimeout | OutputLimit | NoExit | InvalidOutput | StepFailure

  /** The postgres_reconciliation field. */
  datatype Cleanup = NotAttempted | NotEstablished | Established(result: seq<Member>)

  datatype Envelope =
    | Error
    | Replayed(probe: seq<Member>)
    | Stopped(reason: Reason, returnCode: Option<int>, cleanup: Cleanup)
    | Ended(ok: bool, exitCode: int, lobster: Option<seq<Member>>, cleanup: Cleanup)

  predicate SaysOk(e: Envelope) { e.Replayed? || (e.Ended? && e.ok) }

  datatype Event =
    | Probed
    | Launched(text: PyStr)
    | Killed
    | Reconciling(reason: Reason, tracked: seq<int>)
    | Emitted(envelope: Envelope)

  /** main's return value, or an exception that escapes it. */
  datatype Ending = Returned(code: int) | Traceback

  /** The status the operating system reports for it. */
  function Status(e: Ending): int {
    match e case Returned(code) => code % 256 case Traceback => 1
  }

  datatype Outcome = Outcome(events: seq<Event>, ending: Ending)

  function After(e: Event, o: Outcome): Outcome { Outcome([e] + o.events, o.ending) }

  // ---------------------------------------------------------------- the reading loop

  datatype Stop = Overtime(captured: seq<Byte>) | Overflow(captured: seq<Byte>) | Closed(captured: seq<Byte>)

  function TimeLeft(w: World, i: nat): nat { if w.clock(i) < w.deadline then w.deadline - w.clock(i) else 0 }

  function Supervise(w: World, i: nat, captured: seq<Byte>): Stop
    requires Physical(w) && |captured| <= MAX_OUTPUT_BYTES
    decreases TimeLeft(w, i), MAX_OUTPUT_BYTES - |captured|
  {
    assert Ticks(w, i);
    if w.clock(i) >= w.deadline then Overtime(captured)
    else
      match w.got(i)
      case Eof => Closed(captured)
      case Nothing => Supervise(w, i + 1, captured)
      case Chunk(bytes) =>
        if |captured + bytes| > MAX_OUTPUT_BYTES then Overflow(captured + bytes)
        else Supervise(w, i + 1, captured + bytes)
  }

  /** Everything the first n rounds read. */
  function Sent(w: World, n: nat): seq<Byte> {
    if n == 0 then [] else Sent(w, n - 1) + if w.got(n - 1).Chunk? then w.got(n - 1).bytes else []
  }

  /** Round k neither stops the loop nor ends it. */
  predicate Continues(w: World, k: nat) {
    w.clock(k) < w.deadline && !w.got(k).Eof? && |Sent(w, k + 1)| <= MAX_OUTPUT_BYTES
  }

  predicate StopsAt(w: World, n: nat, stop: Stop) {
    match stop
    case Overtime(c) => w.clock(n) >= w.deadline && c == Sent(w, n)
    case Closed(c) => w.clock(n) < w.deadline && w.got(n).Eof? && c == Sent(w, n)
    case Overflow(c) =>
      && w.clock(n) < w.deadline && w.got(n).Chunk? && c == Sent(w, n + 1)
      && MAX_OUTPUT_BYTES < |c| <= MAX_OUTPUT_BYTES + CHUNK_BYTES
  }

  lemma {:induction false} SuperviseFrom(w: World, i: nat) returns (n: nat)
    requires Physical(w) && |Sent(w, i)| <= MAX_OUTPUT_BYTES
    requires forall k :: 0 <= k < i ==> Continues(w, k)
    ensures forall k :: 0 <= k < n ==> Continues(w, k)
    ensures StopsAt(w, n, Supervise(w, i, Sent(w, i)))
    decreases TimeLeft(w, i), MAX_OUTPUT_BYTES - |Sent(w, i)|
  {
    assert Ticks(w, i);
    n := i;
    if w.clock(i) < w.deadline && !w.got(i).Eof? {
      assert w.got(i).Nothing? ==> Sent(w, i + 1) == Sent(w, i);
      if |Sent(w, i + 1)| <= MAX_OUTPUT_BYTES {
        assert Continues(w, i);
        n := SuperviseFrom(w, i + 1);
      }
    }
  }

  /** The loop stops at the first round that finds the deadline passed, the output closed or the byte
      limit exceeded, with all that was read so far, at most one chunk above the limit. */
  lemma FirstStop(w: World) returns (n: nat)
    requires Physical(w)
    ensures forall k :: 0 <= k < n ==> Continues(w, k)
    ensures !Continues(w, n) && StopsAt(w, n, Supervise(w, 0, []))
  {
    n := SuperviseFrom(w, 0);
  }

  // ---------------------------------------------------------------- the whole run, as a function

  /** The failure payload with its reconciliation, once the child is gone. */
  function Conclude(w: World, hooked: bool, reason: Reason, e: Envelope, code: int): Outcome
    requires e.Stopped? || e.Ended?
  {
    if !hooked then Outcome([Emitted(e)], Returned(code))
    else
      After(Reconciling(reason, []),
        match ReconcileFailure(w.reconcile)
        case HookRaises => Outcome([], Traceback)
        case Threw => Outcome([Emitted(e.(cleanup := NotEstablished))], Returned(code))
        case Gave(result) => Outcome([Emitted(e.(cleanup := Established(result)))], Returned(code)))
  }

  function Kill(w: World, hooked: bool, reason: Reason): Outcome {
    After(Killed, Conclude(w, hooked, reason, Stopped(reason, w.reaped, NotAttempted), 1))
  }

  function Scan(w: World, captured: seq<Byte>): LastObject.Scan {
    LastObject.ScanBefore(w.decode(captured), |w.decode(captured)|)
  }

  function Judge(w: World, hooked: bool, code: int, found: LastObject.Scan): Outcome {
    match found
    case Raised => Outcome([], Traceback)
    case NoObject =>
      Conclude(w, hooked, InvalidOutput, Ended(false, code, None, NotAttempted), if code == 0 then 1 else code)
    case Found(ms) =>
      var e := Ended(code == 0 && IsTrue(ms, OK), code, Some(RedactMembers(ms)), NotAttempted);
      if e.ok then Outcome([Emitted(e)], Returned(0))
      else Conclude(w, hooked, StepFailure, e, if code == 0 then 1 else code)
  }

  function Execute(w: World, hooked: bool): Outcome
    requires Physical(w)
  {
    match w.installAgain
    case Refused => Outcome([Emitted(Error)], Returned(2))
    case Raises => Outcome([], Traceback)
    case Passed =>
      After(Launched(w.text),
        match Supervise(w, 0, [])
        case Overtime(_) => Kill(w, hooked, LobsterTimeout)
        case Overflow(_) => Kill(w, hooked, OutputLimit)
        case Closed(captured) =>
          if w.exit.None? then Kill(w, hooked, NoExit)
          else Judge(w, hooked, w.exit.value, Scan(w, captured)))
  }

  function Refusal(): Outcome { Outcome([Emitted(Error)], Returned(2)) }

  function RunWorkflow(w: World, dryRun: bool): Outcome
    requires Physical(w)
  {
    match w.args
    case Refused => Refusal()
    case Raises => Outcome([], Traceback)
    case Passed =>
      if dryRun then Execute(w, false)
      else
        match w.install
        case Refused => Refusal()
        case Raises => Outcome([], Traceback)
        case Passed =>
          After(Probed,
            match ProbeReplay(w.probe)
            case ReplayRaises => Outcome([], Traceback)
            case ReplayRefused => Refusal()
            case Completed(probe) => Outcome([Emitted(Replayed(probe))], Returned(0))
            case Go => Execute(w, true))
  }

  // ---------------------------------------------------------------- the protocol every run follows

  datatype Phase = Fresh | Asked | Running | Gone | Reconciled | Done | Wrong

  /** The reference protocol: at most one probe, then at most one launch, then at most one kill, then
      at most one reconciliation, with no process group tracked any more, then one envelope, which
      does not say ok after a kill or a reconciliation. */
  function Advance(p: Phase, e: Event): Phase {
    match e
    case Probed => if p.Fresh? then Asked else Wrong
    case Launched(_) => if p.Fresh? || p.Asked? then Running else Wrong
    case Killed => if p.Running? then Gone else Wrong
    case Reconciling(_, tracked) => if (p.Running? || p.Gone?) && tracked == [] then Reconciled else Wrong
    case Emitted(envelope) =>
      if p.Done? || p.Wrong? then Wrong
      else if (p.Gone? || p.Reconciled?) && SaysOk(envelope) then Wrong
      else Phase.Done
  }

  function Follow(p: Phase, events: seq<Event>): Phase
    decreases |events|
  {
    if events == [] then p else Follow(Advance(p, events[0]), events[1..])
  }

  predicate Launches(e: Event) { e.Launched? }
  predicate Reconciles(e: Event) { e.Reconciling? }
  predicate Emits(e: Event) { e.Emitted? }

  function Count(events: seq<Event>, kind: Event -> bool): nat
    decreases |events|
  {
    if events == [] then 0 else (if kind(events[0]) then 1 else 0) + Count(events[1..], kind)
  }

  predicate CanLaunch(p: Phase) { p.Fresh? || p.Asked? }
  predicate CanReconcile(p: Phase) { CanLaunch(p) || p.Running? || p.Gone? }

  /** What following the protocol means for a trace: one launch and one reconciliation at most, and
      exactly one envelope iff it ran to the end. */
  lemma {:induction false} ProtocolMeans(p: Phase, events: seq<Event>)
    requires !Follow(p, events).Wrong?
    ensures Count(events, Launches) <= if CanLaunch(p) then 1 else 0
    ensures Count(events, Reconciles) <= if CanReconcile(p) then 1 else 0
    ensures Count(events, Emits) == if Follow(p, events).Done? && !p.Done? then 1 else 0
    ensures forall i :: 0 <= i < |events| && events[i].Reconciling? ==> events[i].tracked == []
    ensures p.Done? ==> events == []
    decreases |events|
  {
    if events != [] {
      var q := Advance(p, events[0]);
      if q.Wrong? { StaysWrong(events[1..]); }
      ProtocolMeans(q, events[1..]);
      forall i | 0 <= i < |events| && events[i].Reconciling? ensures events[i].tracked == [] {
        if i > 0 { assert events[i] == events[1..][i-1]; }
      }
    }
  }

  lemma {:induction false} StaysWrong(events: seq<Event>)
    ensures Follow(Wrong, events) == Wrong
    decreases |events|
  {
    if events != [] { StaysWrong(events[1..]); }
  }

  // ---------------------------------------------------------------- every run follows it

  predicate EndsOk(o: Outcome) {
    o.events != [] && var last := o.events[|o.events|-1]; last.Emitted? && SaysOk(last.envelope)
  }

  /** From phase p the rest of the run keeps the protocol; it returns iff it emitted its envelope, and
      with status zero iff that says ok. */
  predicate Lawful(p: Phase, o: Outcome) {
    && !Follow(p, o.events).Wrong?
    && (o.ending.Returned? <==> Follow(p, o.events).Done?)
    && (EndsOk(o) <==> Status(o.ending) == 0)
  }

  lemma AfterLawful(p: Phase, e: Event, o: Outcome)
    requires Lawful(Advance(p, e), o) && !e.Emitted?
    ensures Lawful(p, After(e, o))
    ensures Count(After(e, o).events, Reconciles) == Count(o.events, Reconciles) + if e.Reconciling? then 1 else 0
    ensures Count(After(e, o).events, Launches) == Count(o.events, Launches) + if e.Launched? then 1 else 0
    ensures EndsOk(After(e, o)) <==> EndsOk(o)
  {
    assert After(e, o).events[1..] == o.events;
  }

  lemma EmitLawful(p: Phase, e: Envelope, code: int)
    requires !p.Done? && !p.Wrong? && (SaysOk(e) ==> !p.Gone? && !p.Reconciled?)
    requires SaysOk(e) <==> code % 256 == 0
    ensures var o := Outcome([Emitted(e)], Returned(code));
      Lawful(p, o) && Count(o.events, Reconciles) == 0 == Count(o.events, Launches) && (EndsOk(o) <==> SaysOk(e))
  {
    assert [Emitted(e)][1..] == [];
  }

  /** A failed run, once nothing is tracked, is reconciled exactly once, unless it was a dry run. */
  lemma ConcludeLawful(p: Phase, w: World, hooked: bool, reason: Reason, e: Envelope, code: int)
    requires p.Running? || p.Gone?
    requires (e.Stopped? || e.Ended?) && !SaysOk(e) && code % 256 != 0
    ensures var o := Conclude(w, hooked, reason, e, code);
      && Lawful(p, o) && !EndsOk(o) && Count(o.events, Launches) == 0
      && Count(o.events, Reconciles) == (if hooked then 1 else 0)
      && (o.ending.Traceback? <==> hooked && ReconcileFailure(w.reconcile).HookRaises?)
  {
    if !hooked {
      EmitLawful(p, e, code);
    } else {
      var rest := match ReconcileFailure(w.reconcile)
        case HookRaises => Outcome([], Traceback)
        case Threw => Outcome([Emitted(e.(cleanup := NotEstablished))], Returned(code))
        case Gave(result) => Outcome([Emitted(e.(cleanup := Established(result)))], Returned(code));
      match ReconcileFailure(w.reconcile) {
        case HookRaises =>
        case Threw => EmitLawful(Reconciled, e.(cleanup := NotEstablished), code);
        case Gave(result) => EmitLawful(Reconciled, e.(cleanup := Established(result)), code);
      }
      AfterLawful(p, Reconciling(reason, []), rest);
    }
  }

  predicate ReconcileRaises(w: World, hooked: bool) { hooked && ReconcileFailure(w.reconcile).HookRaises? }

  /** What a launched run gives back. */
  predicate Settled(p: Phase, hooked: bool, o: Outcome) {
    && Lawful(p, o) && Count(o.events, Launches) == 0
    && (o.ending.Returned? ==> Count(o.events, Reconciles) == if hooked && !EndsOk(o) then 1 else 0)
  }

  lemma KillLawful(w: World, hooked: bool, reason: Reason)
    ensures Settled(Running, hooked, Kill(w, hooked, reason)) && !EndsOk(Kill(w, hooked, reason))
    ensures Kill(w, hooked, reason).ending.Traceback? <==> ReconcileRaises(w, hooked)
  {
    var rest := Conclude(w, hooked, reason, Stopped(reason, w.reaped, NotAttempted), 1);
    ConcludeLawful(Gone, w, hooked, reason, Stopped(reason, w.reaped, NotAttempted), 1);
    AfterLawful(Running, Killed, rest);
  }

  /** The child's own verdict is a success. */
  predicate Succeeds(code: int, found: LastObject.Scan) { code == 0 && found.Found? && IsTrue(found.value, OK) }

  lemma JudgeLawful(w: World, hooked: bool, code: int, found: LastObject.Scan)
    requires -64 <= code < 256
    ensures var o := Judge(w, hooked, code, found);
      && Settled(Running, hooked, o)
      && (EndsOk(o) <==> Succeeds(code, found))
      && (o.ending.Traceback? <==> found.Raised? || (!Succeeds(code, found) && ReconcileRaises(w, hooked)))
  {
    var status := if code == 0 then 1 else code;
    match found
    case Raised =>
    case NoObject => ConcludeLawful(Running, w, hooked, InvalidOutput, Ended(false, code, None, NotAttempted), status);
    case Found(ms) =>
      var e := Ended(code == 0 && IsTrue(ms, OK), code, Some(RedactMembers(ms)), NotAttempted);
      if e.ok { EmitLawful(Running, e, 0); } else { ConcludeLawful(Running, w, hooked, StepFailure, e, status); }
  }

  /** An exception escapes a run that launches: the second installation check raises, the final-object
      scan raises, or the run fails and the reconciliation reply raises. */
  predicate LaunchRaises(w: World, hooked: bool)
    requires Physical(w)
  {
    w.installAgain.Raises? || (w.installAgain.Passed? && ChildRaises(w, hooked))
  }

  predicate ChildRaises(w: World, hooked: bool)
    requires Physical(w)
  {
    match Supervise(w, 0, [])
    case Closed(captured) =>
      if w.exit.None? then ReconcileRaises(w, hooked)
      else Scan(w, captured).Raised? ||
           (!Succeeds(w.exit.value, Scan(w, captured)) && ReconcileRaises(w, hooked))
    case _ => ReconcileRaises(w, hooked)
  }

  lemma ExecuteLawful(w: World, hooked: bool, p: Phase)
    requires Physical(w) && CanLaunch(p)
    ensures var o := Execute(w, hooked);
      && Lawful(p, o)
      && (o.ending.Traceback? <==> LaunchRaises(w, hooked))
      && (Count(o.events, Launches) == 0 ==> Count(o.events, Reconciles) == 0 && !EndsOk(o))
      && (Count(o.events, Launches) > 0 && o.ending.Returned? ==>
            Count(o.events, Reconciles) == if hooked && !EndsOk(o) then 1 else 0)
  {
    match w.installAgain
    case Refused => EmitLawful(p, Error, 2);
    case Raises =>
    case Passed =>
      var rest := Outcome(Execute(w, hooked).events[1..], Execute(w, hooked).ending);
      match Supervise(w, 0, []) {
        case Overtime(_) => KillLawful(w, hooked, LobsterTimeout);
        case Overflow(_) => KillLawful(w, hooked, OutputLimit);
        case Closed(captured) =>
          if w.exit.None? { KillLawful(w, hooked, NoExit); }
          else { JudgeLawful(w, hooked, w.exit.value, Scan(w, captured)); }
      }
      AfterLawful(p, Launched(w.text), rest);
  }

  /** The guards under which an exception escapes main. */
  predicate Escapes(w: World, dryRun: bool)
    requires Physical(w)
  {
    || w.args.Raises?
    || (w.args.Passed? && dryRun && LaunchRaises(w, false))
    || (w.args.Passed? && !dryRun && (
          || w.install.Raises?
          || (w.install.Passed? && ProbeReplay(w.probe).ReplayRaises?)
          || (w.install.Passed? && ProbeReplay(w.probe).Go? && LaunchRaises(w, true))))
  }

  /** Every run keeps the protocol; the child is launched only after a probe that says go; a launched
      run that returns was reconciled exactly once if it is not ok and never if it is; it returns iff
      it emitted its one envelope, with status zero iff that says ok; and it returns iff no exception
      escapes. */
  lemma RunIsSound(w: World, dryRun: bool)
    requires Physical(w)
    ensures var o := RunWorkflow(w, dryRun);
      && Lawful(Fresh, o)
      && (o.ending.Traceback? <==> Escapes(w, dryRun))
      && (Count(o.events, Launches) > 0 && !dryRun ==> ProbeReplay(w.probe).Go?)
      && (Count(o.events, Launches) == 0 ==> Count(o.events, Reconciles) == 0)
      && (Count(o.events, Launches) > 0 && o.ending.Returned? ==>
            Count(o.events, Reconciles) == if !dryRun && !EndsOk(o) then 1 else 0)
  {
    match w.args
    case Refused => EmitLawful(Fresh, Error, 2);
    case Raises =>
    case Passed =>
      if dryRun {
        ExecuteLawful(w, false, Fresh);
      } else {
        match w.install
        case Refused => EmitLawful(Fresh, Error, 2);
        case Raises =>
        case Passed => ProbedLawful(w);
      }
  }

  lemma ProbedLawful(w: World)
    requires Physical(w) && w.args.Passed? && w.install.Passed?
    ensures var o := RunWorkflow(w, false);
      && Lawful(Fresh, o)
      && (o.ending.Traceback? <==> Escapes(w, false))
      && (Count(o.events, Launches) > 0 ==> ProbeReplay(w.probe).Go?)
      && (Count(o.events, Launches) == 0 ==> Count(o.events, Reconciles) == 0)
      && (Count(o.events, Launches) > 0 && o.ending.Returned? ==>
            Count(o.events, Reconciles) == if !EndsOk(o) then 1 else 0)
  {
    match ProbeReplay(w.probe)
    case ReplayRaises => AfterLawful(Fresh, Probed, Outcome([], Traceback));
    case ReplayRefused =>
      EmitLawful(Asked, Error, 2);
      AfterLawful(Fresh, Probed, Refusal());
    case Completed(probe) =>
      EmitLawful(Asked, Replayed(probe), 0);
      AfterLawful(Fresh, Probed, Outcome([Emitted(Replayed(probe))], Returned(0)));
    case Go =>
      ExecuteLawful(w, true, Asked);
      AfterLawful(Fresh, Probed, Execute(w, true));
  }

  // ---------------------------------------------------------------- exactly when a run is reconciled

  /** The child closed its output and exited in time, and either the scan for its final object raised
      or that object reports success. */
  predicate LeavesNothing(w: World)
    requires Physical(w)
  {
    match Supervise(w, 0, [])
    case Closed(captured) =>
      w.exit.Some? && (Scan(w, captured).Raised? || Succeeds(w.exit.value, Scan(w, captured)))
    case _ => false
  }

  lemma AfterCounts(e: Event, o: Outcome, kind: Event -> bool)
    ensures Count(After(e, o).events, kind) == Count(o.events, kind) + if kind(e) then 1 else 0
  {
    assert After(e, o).events[1..] == o.events;
  }

  lemma ConcludeCounts(w: World, hooked: bool, reason: Reason, e: Envelope, code: int)
    requires e.Stopped? || e.Ended?
    ensures Count(Conclude(w, hooked, reason, e, code).events, Reconciles) == if hooked then 1 else 0
    ensures Count(Conclude(w, hooked, reason, e, code).events, Launches) == 0
  {
    var o := Conclude(w, hooked, reason, e, code);
    if hooked {
      var rest := Outcome(o.events[1..], o.ending);
      if rest.events != [] { assert rest.events[0].Emitted? && rest.events[1..] == []; }
      AfterCounts(Reconciling(reason, []), rest, Reconciles);
      AfterCounts(Reconciling(reason, []), rest, Launches);
      assert o == After(Reconciling(reason, []), rest);
    } else {
      assert o.events[1..] == [];
    }
  }

  lemma KillCounts(w: World, hooked: bool, reason: Reason)
    ensures Count(Kill(w, hooked, reason).events, Reconciles) == if hooked then 1 else 0
    ensures Count(Kill(w, hooked, reason).events, Launches) == 0
  {
    var e := Stopped(reason, w.reaped, NotAttempted);
    ConcludeCounts(w, hooked, reason, e, 1);
    AfterCounts(Killed, Conclude(w, hooked, reason, e, 1), Reconciles);
    AfterCounts(Killed, Conclude(w, hooked, reason, e, 1), Launches);
  }

  lemma JudgeCounts(w: World, hooked: bool, code: int, found: LastObject.Scan)
    ensures Count(Judge(w, hooked, code, found).events, Reconciles) ==
            if !hooked || found.Raised? || Succeeds(code, found) then 0 else 1
    ensures Count(Judge(w, hooked, code, found).events, Launches) == 0
  {
    var status := if code == 0 then 1 else code;
    match found
    case Raised =>
    case NoObject => ConcludeCounts(w, hooked, InvalidOutput, Ended(false, code, None, NotAttempted), status);
    case Found(ms) =>
      var e := Ended(code == 0 && IsTrue(ms, OK), code, Some(RedactMembers(ms)), NotAttempted);
      if e.ok { assert [Emitted(e)][1..] == []; } else { ConcludeCounts(w, hooked, StepFailure, e, status); }
  }

  lemma ExecuteCounts(w: World, hooked: bool)
    requires Physical(w)
    ensures Count(Execute(w, hooked).events, Launches) == if w.installAgain.Passed? then 1 else 0
    ensures Count(Execute(w, hooked).events, Reconciles) ==
            if hooked && w.installAgain.Passed? && !LeavesNothing(w) then 1 else 0
  {
    if w.installAgain.Refused? {
      assert Execute(w, hooked).events == [Emitted(Error)] && [Emitted(Error)][1..] == [];
    } else if w.installAgain.Passed? {
      var rest := Outcome(Execute(w, hooked).events[1..], Execute(w, hooked).ending);
      match Supervise(w, 0, []) {
        case Overtime(_) => KillCounts(w, hooked, LobsterTimeout);
        case Overflow(_) => KillCounts(w, hooked, OutputLimit);
        case Closed(captured) =>
          if w.exit.None? { KillCounts(w, hooked, NoExit); }
          else { JudgeCounts(w, hooked, w.exit.value, Scan(w, captured)); }
      }
      AfterCounts(Launched(w.text), rest, Launches);
      AfterCounts(Launched(w.text), rest, Reconciles);
    }
  }

  /** The checks and the probe let the child be launched. */
  predicate Starts(w: World, dryRun: bool) {
    && w.args.Passed? && w.installAgain.Passed?
    && (dryRun || (w.install.Passed? && ProbeReplay(w.probe).Go?))
  }

  /** Whether a run launches, and exactly when a launched one makes its reconciliation attempt, in
      every run, those that end in a traceback included: always, unless it was a dry run or the child
      closed its output and exited in time and either reported success or made the scan raise. */
  lemma ReconciledExactly(w: World, dryRun: bool)
    requires Physical(w)
    ensures Count(RunWorkflow(w, dryRun).events, Launches) == if Starts(w, dryRun) then 1 else 0
    ensures Count(RunWorkflow(w, dryRun).events, Reconciles) ==
            if Starts(w, dryRun) && !dryRun && !LeavesNothing(w) then 1 else 0
  {
    var o := RunWorkflow(w, dryRun);
    if w.args.Passed? && dryRun {
      ExecuteCounts(w, false);
    } else if w.args.Passed? && w.install.Passed? {
      var rest := Outcome(o.events[1..], o.ending);
      if ProbeReplay(w.probe).Go? {
        ExecuteCounts(w, true);
      } else if rest.events != [] {
        assert rest.events[0].Emitted? && rest.events[1..] == [];
      }
      AfterCounts(Probed, rest, Launches);
      AfterCounts(Probed, rest, Reconciles);
    } else if o.events != [] {
      assert o.events == [Emitted(Error)] && o.events[1..] == [];
    }
  }

  lemma LaunchText(w: World, dryRun: bool, i: nat)
    requires Physical(w) && i < |RunWorkflow(w, dryRun).events| && RunWorkflow(w, dryRun).events[i].Launched?
    ensures w.args.Passed? && RunWorkflow(w, dryRun).events[i].text == w.text
  {
    var o := RunWorkflow(w, dryRun);
    if w.args.Passed? && dryRun {
      ExecuteText(w, false, i);
    } else if w.args.Passed? && w.install.Passed? && ProbeReplay(w.probe).Go? {
      assert o.events[i] == Execute(w, true).events[i-1];
      ExecuteText(w, true, i - 1);
    }
  }

  lemma {:induction false} Counted(events: seq<Event>, kind: Event -> bool, i: nat)
    requires i < |events| && kind(events[i])
    ensures Count(events, kind) >= if i > 0 && kind(events[0]) then 2 else 1
    decreases |events|
  {
    if i > 0 { Counted(events[1..], kind, i - 1); }
  }

  lemma ExecuteText(w: World, hooked: bool, i: nat)
    requires Physical(w) && i < |Execute(w, hooked).events| && Execute(w, hooked).events[i].Launched?
    ensures Execute(w, hooked).events[i].text == w.text
  {
    ExecuteCounts(w, hooked);
    Counted(Execute(w, hooked).events, Launches, i);
  }

  // ---------------------------------------------------------------- replies that raise

  function OutcomeReply(field: string, outcome: Json): Reply {
    Replied(0, Obj([Member(OK, Bool(true)), Member(Lit(field), Obj([Member(Lit("outcome"), outcome)]))]))
  }

  lemma ReplyFields(field: string, outcome: Json)
    requires |field| > 2
    ensures Granted(OutcomeReply(field, outcome))
    ensures Field(OutcomeReply(field, outcome).value.members, Lit(field)) == Obj([Member(Lit("outcome"), outcome)])
    ensures Field([Member(Lit("outcome"), outcome)], Lit("outcome")) == outcome
  {
    var inner := [Member(Lit("outcome"), outcome)];
    var ok := Member(OK, Bool(true));
    var ms := [ok, Member(Lit(field), Obj(inner))];
    assert inner[..0] == [] && [ok][..0] == [] && ms[..1] == [ok];
    assert |OK| == 2;
    assert LastWins([ok])[OK] == Bool(true);
    assert LastWins(ms) == LastWins([ok])[Lit(field) := Obj(inner)];
  }

  /** A granted reply whose outcome is a list raises, both before the launch and in the
      reconciliation. */
  lemma ListOutcomeRaises(items: seq<Json>)
    ensures ProbeReplay(OutcomeReply("workflow_replay_probe", Arr(items))).ReplayRaises?
    ensures ReconcileFailure(OutcomeReply("workflow_failure_reconciliation", Arr(items))).HookRaises?
  {
    ReplyFields("workflow_replay_probe", Arr(items));
    ReplyFields("workflow_failure_reconciliation", Arr(items));
  }
}
