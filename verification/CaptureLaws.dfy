// What a run, a message and an attachment can count on, over every sequence of hook calls.
module CaptureLaws {
  import opened Options
  import opened OrderedMap
  import opened CaptureQueue
  import opened CaptureInvariants

  // ---------------------------------------------------------------- places in a Map

  /** k holds v, and every key inserted after it is one of the others. */
  ghost predicate Behind<V>(m: OMap<V>, k: string, v: V, others: set<string>) {
    exists p :: BehindAt(m, k, v, others, p)
  }

  ghost predicate BehindAt<V>(m: OMap<V>, k: string, v: V, others: set<string>, p: int) {
    0 <= p < |m| && m[p].key == k && m[p].value == v && forall q :: p < q < |m| ==> m[q].key in others
  }

  ghost function Keys<V>(m: OMap<V>): set<string> { set i | 0 <= i < |m| :: m[i].key }

  lemma {:induction false} KeysCount<V>(m: OMap<V>)
    requires UniqueKeys(m)
    ensures |Keys(m)| == |m|
    decreases |m|
  {
    if m != [] {
      UniqueTail(m);
      KeysCount(m[1..]);
      KeysSplit(m);
    }
  }

  lemma KeysSplit<V>(m: OMap<V>)
    requires m != [] && UniqueKeys(m)
    ensures Keys(m) == {m[0].key} + Keys(m[1..]) && m[0].key !in Keys(m[1..])
  {
    assert m == [m[0]] + m[1..];
    forall k ensures k in Keys(m) <==> k in {m[0].key} + Keys(m[1..]) {
      if k in Keys(m) {
        var i :| 0 <= i < |m| && m[i].key == k;
        if i > 0 { assert m[1..][i-1].key == k; }
      }
      if k in Keys(m[1..]) {
        var i :| 0 <= i < |m[1..]| && m[1..][i].key == k;
        assert m[i+1].key == k;
      }
    }
    UniqueTail(m);
  }

  lemma {:induction false} SubsetCount(a: set<string>, b: set<string>)
    requires a <= b
    ensures |a| <= |b|
    decreases |a|
  {
    if a != {} {
      var x :| x in a;
      SubsetCount(a - {x}, b - {x});
    }
  }

  lemma UniqueDrop<V>(m: OMap<V>, n: nat)
    requires n <= |m| && UniqueKeys(m)
    ensures UniqueKeys(m[n..])
  {
  }

  /** More entries stand behind k than there are others to stand there. */
  lemma TooManyBehind<V>(m: OMap<V>, k: string, v: V, others: set<string>, p: nat)
    requires UniqueKeys(m) && BehindAt(m, k, v, others, p)
    ensures |m| - p - 1 <= |others|
  {
    var rest := m[p+1..];
    UniqueDrop(m, p + 1);
    KeysCount(rest);
    forall x | x in Keys(rest) ensures x in others {
      var i :| 0 <= i < |rest| && rest[i].key == x;
      assert m[p+1+i].key == x;
    }
    SubsetCount(Keys(rest), others);
  }

  /** The size cap removes a key only when 2048 others stand behind it. */
  lemma TrimBehind<V>(m: OMap<V>, k: string, v: V, others: set<string>)
    requires UniqueKeys(m) && Behind(m, k, v, others) && |others| < 2048
    ensures Behind(Trim(m), k, v, others)
  {
    var p :| BehindAt(m, k, v, others, p);
    TooManyBehind(m, k, v, others, p);
    var n := Surplus(m);
    assert n <= p;
    assert BehindAt(m[n..], k, v, others, p - n);
  }

  lemma {:induction false} PutAt<V>(m: OMap<V>, x: string, y: V)
    ensures Has(m, x) ==> |Put(m, x, y)| == |m| && forall i :: 0 <= i < |m| ==> Put(m, x, y)[i].key == m[i].key
    ensures !Has(m, x) ==> Put(m, x, y) == m + [Entry(x, y)]
    ensures forall i :: 0 <= i < |m| && m[i].key != x ==> i < |Put(m, x, y)| && Put(m, x, y)[i] == m[i]
    decreases |m|
  {
    if m != [] {
      HasTail(m, x);
      if m[0].key != x {
        PutAt(m[1..], x, y);
        assert Put(m, x, y)[1..] == Put(m[1..], x, y);
        assert m == [m[0]] + m[1..];
        forall i | 0 <= i < |m| && m[i].key != x ensures Put(m, x, y)[i] == m[i] {
          if i > 0 { assert m[1..][i-1] == m[i]; }
        }
      }
    }
  }

  lemma PutBehind<V>(m: OMap<V>, k: string, v: V, others: set<string>, x: string, y: V)
    requires Behind(m, k, v, others) && x != k
    ensures Behind(Put(m, x, y), k, v, others + {x})
  {
    var p :| BehindAt(m, k, v, others, p);
    PutAt(m, x, y);
    assert BehindAt(Put(m, x, y), k, v, others + {x}, p);
  }

  lemma PutLast<V>(m: OMap<V>, k: string, v: V)
    requires !Has(m, k)
    ensures Behind(Put(m, k, v), k, v, {})
  {
    PutAt(m, k, v);
    assert BehindAt(Put(m, k, v), k, v, {}, |m|);
  }

  /** Where the entries of a Map go when one key is deleted. */
  lemma {:induction false} RemoveBehind<V>(m: OMap<V>, k: string, v: V, others: set<string>, x: string)
    requires Behind(m, k, v, others) && x != k
    ensures Behind(Remove(m, x), k, v, others)
    decreases |m|
  {
    var p :| BehindAt(m, k, v, others, p);
    if m[0].key == x {
      assert BehindAt(m[1..], k, v, others, p - 1);
    } else if p == 0 {
      RemoveSubset(m[1..], x, others);
      assert BehindAt(Remove(m, x), k, v, others, 0);
    } else {
      assert BehindAt(m[1..], k, v, others, p - 1);
      RemoveBehind(m[1..], k, v, others, x);
      var q :| BehindAt(Remove(m[1..], x), k, v, others, q);
      assert BehindAt(Remove(m, x), k, v, others, q + 1);
    }
  }

  lemma {:induction false} RemoveSubset<V>(m: OMap<V>, x: string, others: set<string>)
    requires forall i :: 0 <= i < |m| ==> m[i].key in others
    ensures forall i :: 0 <= i < |Remove(m, x)| ==> Remove(m, x)[i].key in others
    decreases |m|
  {
    if m != [] && m[0].key != x { RemoveSubset(m[1..], x, others); }
  }

  lemma BehindGet<V>(m: OMap<V>, k: string, v: V, others: set<string>)
    requires UniqueKeys(m) && Behind(m, k, v, others)
    ensures Get(m, k) == Some(v)
  {
    var p :| BehindAt(m, k, v, others, p);
    GetAt(m, p);
  }

  lemma BehindMore<V>(m: OMap<V>, k: string, v: V, a: set<string>, b: set<string>)
    requires Behind(m, k, v, a) && a <= b
    ensures Behind(m, k, v, b)
  {
    var p :| BehindAt(m, k, v, a, p);
    assert BehindAt(m, k, v, b, p);
  }

  // ---------------------------------------------------------------- a non-document attachment

  /** before_model_resolve saw an attachment of another kind than a document, for a named run. */
  predicate IsMark(e: Event) { e.ModelResolve? && e.nonDocument && e.run != "" }

  predicate IsStart(e: Event, run: string) { e.AgentRun? && e.run == run }

  /** The run was marked by event i, and its before_agent_run has not come since. */
  predicate OpenMark(events: seq<Event>, run: string, i: int) {
    && 0 <= i < |events| && IsMark(events[i]) && events[i].run == run
    && forall j :: i < j < |events| ==> !IsStart(events[j], run)
  }

  ghost function MarkedRuns(events: seq<Event>): set<string> {
    set i | 0 <= i < |events| && IsMark(events[i]) :: events[i].run
  }

  function MarkedBy(e: Event): set<string> { if IsMark(e) then {e.run} else {} }

  lemma MarkedSplit(e: Event, rest: seq<Event>)
    ensures MarkedRuns([e] + rest) == MarkedBy(e) + MarkedRuns(rest)
  {
    var all := [e] + rest;
    forall r ensures r in MarkedRuns(all) <==> r in MarkedBy(e) + MarkedRuns(rest) {
      if r in MarkedRuns(all) {
        var i :| 0 <= i < |all| && IsMark(all[i]) && all[i].run == r;
        if i > 0 { assert rest[i-1] == all[i]; }
      }
      if r in MarkedRuns(rest) {
        var i :| 0 <= i < |rest| && IsMark(rest[i]) && rest[i].run == r;
        assert all[i+1] == rest[i];
      }
      if IsMark(e) { assert all[0] == e; }
    }
  }

  lemma BlockedAfter(st: State, e: Event)
    ensures var b, after := st.blockedRuns, Step(st, e).0.blockedRuns;
      match e
      case Received(_, _) => after == Trim(b) || after == Trim(Trim(b))
      case ModelResolve(run, _, _) => after == if IsMark(e) then Trim(Put(b, run, UNSUPPORTED)) else b
      case PromptBuild(_, _, _, _, _) => after == Trim(b)
      case AgentRun(_, run, _) => after == if run == "" then Trim(b) else Remove(Trim(b), run)
  {
  }

  /** A mark outlives every call but the run's own before_agent_run, while fewer than 2048 other runs
      were marked after it. */
  lemma MarkKept(st: State, e: Event, run: string, others: set<string>)
    requires Keyed(st) && run != "" && Behind(st.blockedRuns, run, UNSUPPORTED, others) && !IsStart(e, run)
    requires |others + (MarkedBy(e) - {run})| < 2048
    ensures Behind(Step(st, e).0.blockedRuns, run, UNSUPPORTED, others + (MarkedBy(e) - {run}))
  {
    var b := st.blockedRuns;
    BlockedAfter(st, e);
    TrimNamed(b);
    if IsMark(e) {
      var more := others + (MarkedBy(e) - {run});
      if e.run == run {
        PutSame(b, run, UNSUPPORTED, others);
        assert more == others;
      } else {
        PutBehind(b, run, UNSUPPORTED, others, e.run, UNSUPPORTED);
        assert more == others + {e.run};
      }
      PutNamed(b, e.run, UNSUPPORTED);
      TrimBehind(Put(b, e.run, UNSUPPORTED), run, UNSUPPORTED, more);
    } else {
      assert others + (MarkedBy(e) - {run}) == others;
      TrimBehind(b, run, UNSUPPORTED, others);
      if e.Received? { TrimNamed(Trim(b)); TrimBehind(Trim(b), run, UNSUPPORTED, others); }
      if e.AgentRun? { RemoveBehind(Trim(b), run, UNSUPPORTED, others, e.run); }
    }
  }

  /** Setting a key to the value it has changes nothing. */
  lemma PutSame<V>(m: OMap<V>, k: string, v: V, others: set<string>)
    requires UniqueKeys(m) && Behind(m, k, v, others)
    ensures Behind(Put(m, k, v), k, v, others)
  {
    var p :| BehindAt(m, k, v, others, p);
    PutValue(m, k, v, p);
  }

  lemma {:induction false} PutValue<V>(m: OMap<V>, k: string, v: V, p: nat)
    requires UniqueKeys(m) && p < |m| && m[p].key == k && m[p].value == v
    ensures Put(m, k, v) == m
    decreases |m|
  {
    assert m == [m[0]] + m[1..];
    if p > 0 { PutValue(m[1..], k, v, p - 1); }
  }

  lemma {:induction false} MarkLasts(st: State, events: seq<Event>, run: string, others: set<string>)
    requires Inv(st) && run != "" && Behind(st.blockedRuns, run, UNSUPPORTED, others)
    requires forall j :: 0 <= j < |events| ==> !IsStart(events[j], run)
    requires |others + (MarkedRuns(events) - {run})| < 2048
    ensures Inv(RunFrom(st, events))
    ensures Behind(RunFrom(st, events).blockedRuns, run, UNSUPPORTED, others + (MarkedRuns(events) - {run}))
    decreases |events|
  {
    if events == [] {
      BehindMore(st.blockedRuns, run, UNSUPPORTED, others, others + (MarkedRuns(events) - {run}));
    } else {
      var e, rest := events[0], events[1..];
      assert events == [e] + rest;
      MarkedSplit(e, rest);
      var more := others + (MarkedBy(e) - {run});
      assert more + (MarkedRuns(rest) - {run}) == others + (MarkedRuns(events) - {run});
      SubsetCount(more, others + (MarkedRuns(events) - {run}));
      StepInv(st, e);
      MarkKept(st, e, run, others);
      MarkLasts(Step(st, e).0, rest, run, more);
    }
  }

  lemma RunSnoc(a: seq<Event>, e: Event)
    ensures Run(a + [e]) == Step(Run(a), e).0
  {
    assert (a + [e])[..|a|] == a;
  }

  lemma {:induction false} RunSplit(a: seq<Event>, b: seq<Event>)
    ensures Run(a + b) == RunFrom(Run(a), b)
    decreases |b|
  {
    if b == [] {
      assert a + b == a;
    } else {
      Regroup(a, b);
      RunSnoc(a, b[0]);
      RunSplit(a + [b[0]], b[1..]);
    }
  }

  lemma Regroup(a: seq<Event>, b: seq<Event>)
    requires b != []
    ensures (a + [b[0]]) + b[1..] == a + b
  {
  }

  lemma TrimKeeps<V>(m: OMap<V>, k: string)
    requires KeysNamed(m) && Get(Trim(m), k).Some?
    ensures k != "" && Get(Trim(m), k) == Get(m, k)
  {
    TrimNamed(m);
  }

  /** A record present after a call was set by it or was there before it. */
  lemma RecordStep(st: State, e: Event, run: string)
    requires Keyed(st) && Get(Step(st, e).0.blockedRuns, run).Some?
    ensures var after := Get(Step(st, e).0.blockedRuns, run);
      if IsMark(e) && e.run == run then after == Some(UNSUPPORTED)
      else !IsStart(e, run) && after == Get(st.blockedRuns, run)
  {
    var b := st.blockedRuns;
    BlockedAfter(st, e);
    TrimNamed(b);
    if IsMark(e) {
      PutMeans(b, e.run, UNSUPPORTED, run);
      PutNamed(b, e.run, UNSUPPORTED);
      TrimKeeps(Put(b, e.run, UNSUPPORTED), run);
    } else if e.AgentRun? {
      if e.run != "" { RemoveMeans(Trim(b), e.run, run); }
      TrimKeeps(b, run);
    } else if e.Received? && Get(Trim(Trim(b)), run).Some? {
      TrimKeeps(Trim(b), run);
    }
  }

  /** A recorded run has an open mark, and its record says why. */
  lemma {:induction false} RecordHasMark(events: seq<Event>, run: string) returns (i: int)
    requires Get(Run(events).blockedRuns, run).Some?
    ensures OpenMark(events, run, i) && Get(Run(events).blockedRuns, run) == Some(UNSUPPORTED)
    decreases |events|
  {
    var n := |events| - 1;
    var before, e := events[..n], events[n];
    RunInv(before);
    RecordStep(Run(before), e, run);
    if IsMark(e) && e.run == run {
      i := n;
    } else {
      i := RecordHasMark(before, run);
      OpenLonger(before, e, run, i);
      assert events == before + [e];
    }
  }

  lemma OpenLonger(before: seq<Event>, e: Event, run: string, i: int)
    requires OpenMark(before, run, i) && !IsStart(e, run)
    ensures OpenMark(before + [e], run, i)
  {
  }

  /** The run's record stands while fewer than 2048 other runs are marked after its first open mark. */
  lemma RecordStands(events: seq<Event>, i: nat, run: string)
    requires OpenMark(events, run, i) && forall k :: 0 <= k < i ==> !OpenMark(events, run, k)
    requires |MarkedRuns(events[i+1..]) - {run}| < 2048
    ensures Behind(Run(events).blockedRuns, run, UNSUPPORTED, MarkedRuns(events[i+1..]) - {run})
  {
    var a, e, b := events[..i], events[i], events[i+1..];
    SplitAt(events, i);
    RunInv(a);
    if Get(Run(a).blockedRuns, run).Some? { EarlierMark(events, i, run); }
    FirstMark(Run(a), e, run);
    RunSnoc(a, e);
    StepInv(Run(a), e);
    RunSplit(a + [e], b);
    assert {} + (MarkedRuns(b) - {run}) == MarkedRuns(b) - {run};
    MarkLasts(Run(a + [e]), b, run, {});
  }

  lemma EarlierMark(events: seq<Event>, i: nat, run: string)
    requires OpenMark(events, run, i) && Get(Run(events[..i]).blockedRuns, run).Some?
    ensures exists k :: 0 <= k < i && OpenMark(events, run, k)
  {
    var k := RecordHasMark(events[..i], run);
    OpenOn(events, run, k, i);
  }

  lemma OpenOn(events: seq<Event>, run: string, k: int, i: nat)
    requires OpenMark(events, run, i) && OpenMark(events[..i], run, k)
    ensures 0 <= k < i && OpenMark(events, run, k)
  {
    assert events[..i][k] == events[k];
    forall j | k < j < |events| ensures !IsStart(events[j], run) {
      if j < i { assert events[..i][j] == events[j]; }
    }
  }

  lemma SplitAt(events: seq<Event>, i: nat)
    requires i < |events|
    ensures (events[..i] + [events[i]]) + events[i+1..] == events
  {
  }

  lemma FirstMark(st: State, e: Event, run: string)
    requires Keyed(st) && IsMark(e) && e.run == run && Get(st.blockedRuns, run).None?
    ensures Behind(Step(st, e).0.blockedRuns, run, UNSUPPORTED, {})
  {
    BlockedAfter(st, e);
    PutLast(st.blockedRuns, run, UNSUPPORTED);
    PutNamed(st.blockedRuns, run, UNSUPPORTED);
    TrimBehind(Put(st.blockedRuns, run, UNSUPPORTED), run, UNSUPPORTED, {});
  }

  /** The boundary the extension is for: a run marked for a non-document attachment is refused when it
      starts, whatever hooks of whatever runs came in between, unless 2048 other runs were marked after
      its mark. */
  lemma AttachmentRefused(events: seq<Event>, i: nat, session: string, run: string, now: int)
    requires OpenMark(events, run, i) && forall k :: 0 <= k < i ==> !OpenMark(events, run, k)
    requires |MarkedRuns(events[i+1..]) - {run}| < 2048
    ensures Step(Run(events), AgentRun(session, run, now)).1 == Block("unsupported_attachment_type")
  {
    var st := Run(events);
    RunInv(events);
    RecordStands(events, i, run);
    TrimNamed(st.blockedRuns);
    TrimBehind(st.blockedRuns, run, UNSUPPORTED, MarkedRuns(events[i+1..]) - {run});
    BehindGet(Trim(st.blockedRuns), run, UNSUPPORTED, MarkedRuns(events[i+1..]) - {run});
    RecordRefuses(st, session, run, now);
  }

  lemma RecordRefuses(st: State, session: string, run: string, now: int)
    requires run != "" && Get(Trim(st.blockedRuns), run) == Some(UNSUPPORTED)
    ensures Step(st, AgentRun(session, run, now)).1 == Block("unsupported_attachment_type")
  {
    assert BlockOf(Prune(st, now), run) == UNSUPPORTED;
  }

  // ---------------------------------------------------------------- what arrives

  predicate Signable(m: Message) { m.sender != "" && m.channel != "" && m.message != "" }

  /** The capture that call e leaves as number id: of every message with a session that can be signed or
      has an unsupported attachment. */
  function Arrival(e: Event, id: nat): seq<Capture> {
    if e.Received? && e.m.session != "" && (Signable(e.m) || e.m.unsupported) then
      [Capture(id, e.m.session, e.clock.captured, e.m.sender, e.m.channel, e.m.message,
               e.m.unsupported, Signable(e.m))]
    else []
  }

  function Arrivals(events: seq<Event>): seq<Capture> {
    if events == [] then []
    else
      var before := Arrivals(events[..|events|-1]);
      before + Arrival(events[|events|-1], |before|)
  }

  lemma ReceivedGrows(st: State, e: Event)
    ensures Step(st, e).0.log.received == st.log.received + Arrival(e, |st.log.received|)
  {
  }

  /** The extension captures exactly these, in the order of the messages. */
  lemma {:induction false} ReceivedAre(events: seq<Event>)
    ensures Run(events).log.received == Arrivals(events)
    decreases |events|
  {
    if events != [] {
      var before := events[..|events|-1];
      ReceivedAre(before);
      ReceivedGrows(Run(before), events[|events|-1]);
    }
  }

  predicate Sent(e: Event, c: Capture) {
    && e.Received? && e.m.session == c.session && e.m.sender == c.sender && e.m.channel == c.channel
    && e.m.message == c.message && e.clock.captured == c.capturedAt && e.m.unsupported == c.blocked
    && (c.signable <==> Signable(e.m))
  }

  lemma {:induction false} ArrivalSent(events: seq<Event>, c: Capture) returns (k: nat)
    requires c in Arrivals(events)
    ensures k < |events| && Sent(events[k], c)
    decreases |events|
  {
    var before := events[..|events|-1];
    if c in Arrivals(before) { k := ArrivalSent(before, c); } else { k := |before|; }
  }

  lemma {:induction false} ClaimedIn(claims: seq<Claim>, i: nat)
    requires i < |claims|
    ensures claims[i].capture in Claimed(claims)
    decreases |claims|
  {
    if i < |claims| - 1 { ClaimedIn(claims[..|claims|-1], i); }
  }

  /** What a run is bound to is the capture of a message that was received. */
  lemma BoundSent(events: seq<Event>, run: string) returns (k: nat)
    requires Get(Run(events).claimed, run).Some?
    ensures k < |events| && Sent(events[k], Get(Run(events).claimed, run).value)
  {
    var st := Run(events);
    var c := Get(st.claimed, run).value;
    RunInv(events);
    assert Stands(st.log.claims, run, c);
    var i :| 0 <= i < |st.log.claims| && st.log.claims[i].run == run && st.log.claims[i].capture == c;
    ClaimedIn(st.log.claims, i);
    assert c in multiset(st.log.received);
    ReceivedAre(events);
    k := ArrivalSent(events, c);
  }

  /** Why a run is refused: its open mark, or the unsupported attachment of the message it is bound to. */
  lemma RefusalHasCause(events: seq<Event>, session: string, run: string, now: int) returns (k: nat)
    requires Step(Run(events), AgentRun(session, run, now)).1.Block?
    ensures Step(Run(events), AgentRun(session, run, now)).1 == Block("unsupported_attachment_type")
    ensures run != "" && k < |events|
    ensures OpenMark(events, run, k) ||
      (var bound := Get(Step(Run(events), AgentRun(session, run, now)).0.claimed, run);
       bound.Some? && Sent(events[k], bound.value) && events[k].m.unsupported)
  {
    var st, e := Run(events), AgentRun(session, run, now);
    RunInv(events);
    TrimNamed(st.blockedRuns);
    if run != "" && Get(Trim(st.blockedRuns), run).Some? {
      k := RecordHasMark(events, run);
      RecordRefuses(st, session, run, now);
    } else {
      RefusedByCapture(st, session, run, now);
      RunSnoc(events, e);
      k := BoundSent(events + [e], run);
    }
  }

  lemma RefusedByCapture(st: State, session: string, run: string, now: int)
    requires Step(st, AgentRun(session, run, now)).1.Block? && (run == "" || Get(Trim(st.blockedRuns), run).None?)
    ensures Step(st, AgentRun(session, run, now)).1 == Block(UNSUPPORTED) && run != ""
    ensures var bound := Get(Step(st, AgentRun(session, run, now)).0.claimed, run); bound.Some? && bound.value.blocked
  {
    var pruned := Cleared(Prune(st, now), run);
    assert BlockOf(Prune(st, now), run) == "";
    ClaimCaptureBinds(pruned, session, run, now);
  }

  // ---------------------------------------------------------------- how long a claim lasts

  ghost function RunsAfter(claims: seq<Claim>, i: int): set<string> {
    set j | 0 <= j < |claims| && i < j :: claims[j].run
  }

  /** The last claim that the run made. */
  predicate LastClaim(claims: seq<Claim>, i: int) {
    0 <= i < |claims| && forall j :: i < j < |claims| ==> claims[j].run != claims[i].run
  }

  ghost predicate ClaimStands(m: OMap<Capture>, claims: seq<Claim>, i: int)
    requires 0 <= i < |claims|
  {
    Behind(m, claims[i].run, claims[i].capture, RunsAfter(claims, i))
  }

  /** A run stays bound to what it claimed last until 2048 other runs have claimed something. */
  ghost predicate ClaimsLast(st: State) {
    forall i :: LastClaim(st.log.claims, i) ==>
      |RunsAfter(st.log.claims, i)| >= 2048 || ClaimStands(st.claimed, st.log.claims, i)
  }

  lemma TrimLasts(st: State, now: int)
    requires Keyed(st) && ClaimsLast(st)
    ensures ClaimsLast(Prune(st, now))
  {
    forall i | LastClaim(st.log.claims, i) && |RunsAfter(st.log.claims, i)| < 2048
      ensures ClaimStands(Trim(st.claimed), st.log.claims, i)
    {
      assert ClaimStands(st.claimed, st.log.claims, i);
      TrimBehind(st.claimed, st.log.claims[i].run, st.log.claims[i].capture, RunsAfter(st.log.claims, i));
    }
  }

  lemma RunsAfterSnoc(claims: seq<Claim>, c: Claim, i: nat)
    requires i < |claims|
    ensures RunsAfter(claims + [c], i) == RunsAfter(claims, i) + {c.run}
    ensures RunsAfter(claims + [c], |claims|) == {}
  {
    var all := claims + [c];
    forall r ensures r in RunsAfter(all, i) <==> r in RunsAfter(claims, i) + {c.run} {
      if r in RunsAfter(claims, i) {
        var j :| 0 <= j < |claims| && i < j && claims[j].run == r;
        assert all[j].run == r;
      }
      if r == c.run { assert all[|claims|].run == r; }
    }
  }

  lemma ClaimLasts(st: State, session: string, run: string, now: int)
    requires Keyed(st) && ClaimsLast(st)
    ensures ClaimsLast(ClaimCapture(st, session, run, now).0)
  {
    if Takes(st, session, run) {
      var c := Claim(run, QueueOf(st.pending, session)[0], now);
      var claims := st.log.claims;
      var all, m := claims + [c], Put(st.claimed, run, c.capture);
      forall i | LastClaim(all, i) && |RunsAfter(all, i)| < 2048 ensures ClaimStands(m, all, i) {
        if i == |claims| {
          if claims != [] { RunsAfterSnoc(claims, c, 0); } else { assert RunsAfter(all, 0) == {}; }
          PutLast(st.claimed, run, c.capture);
        } else {
          RunsAfterSnoc(claims, c, i);
          assert all[|claims|] == c && all[i] == claims[i];
          EarlierClaim(st, claims, c, i);
        }
      }
    }
  }

  lemma EarlierClaim(st: State, claims: seq<Claim>, c: Claim, i: nat)
    requires ClaimsLast(st) && claims == st.log.claims && LastClaim(claims + [c], i) && i < |claims|
    requires |RunsAfter(claims + [c], i)| < 2048
    ensures ClaimStands(Put(st.claimed, c.run, c.capture), claims + [c], i)
  {
    var all := claims + [c];
    RunsAfterSnoc(claims, c, i);
    assert all[|claims|] == c && all[i] == claims[i];
    assert forall j :: i < j < |claims| ==> all[j] == claims[j];
    assert LastClaim(claims, i);
    SubsetCount(RunsAfter(claims, i), RunsAfter(all, i));
    assert ClaimStands(st.claimed, claims, i);
    PutBehind(st.claimed, claims[i].run, claims[i].capture, RunsAfter(claims, i), c.run, c.capture);
  }

  lemma SameClaims(a: State, b: State)
    requires ClaimsLast(a) && b.claimed == a.claimed && b.log.claims == a.log.claims
    ensures ClaimsLast(b)
  {
  }

  lemma ReceivedLasts(st: State, m: Message, clock: Clock)
    requires Inv(st) && ClaimsLast(st)
    ensures ClaimsLast(MessageReceived(st, m, clock))
  {
    TrimLasts(st, clock.start);
    PruneKeyed(st, clock.start);
    var pruned := Prune(st, clock.start);
    var c := CaptureOf(pruned, m, clock.captured);
    if m.session != "" && (c.signable || c.blocked) {
      EnqueueQueues(pruned, c);
      SameClaims(pruned, Enqueue(pruned, c));
      TrimLasts(Enqueue(pruned, c), clock.end);
    }
  }

  lemma StepLasts(st: State, e: Event)
    requires Inv(st) && ClaimsLast(st)
    ensures ClaimsLast(Step(st, e).0)
  {
    match e
    case Received(m, clock) => ReceivedLasts(st, m, clock);
    case ModelResolve(run, nonDocument, now) =>
      if IsMark(e) {
        var marked := st.(blockedRuns := Put(st.blockedRuns, run, UNSUPPORTED));
        PutNamed(st.blockedRuns, run, UNSUPPORTED);
        SameClaims(st, marked);
        TrimLasts(marked, now);
      }
    case PromptBuild(session, run, _, _, now) =>
      TrimLasts(st, now);
      PruneKeyed(st, now);
      ClaimLasts(Prune(st, now), session, run, now);
    case AgentRun(session, run, now) =>
      TrimLasts(st, now);
      PruneKeyed(st, now);
      SameClaims(Prune(st, now), Cleared(Prune(st, now), run));
      if run != "" { RemoveNamed(Prune(st, now).blockedRuns, run); }
      ClaimLasts(Cleared(Prune(st, now), run), session, run, now);
  }

  lemma {:induction false} RunLasts(events: seq<Event>)
    ensures ClaimsLast(Run(events))
    decreases |events|
  {
    if events != [] {
      var before := events[..|events|-1];
      RunLasts(before);
      RunInv(before);
      StepLasts(Run(before), events[|events|-1]);
    }
  }

  /** A retried prompt build finds the capture its run claimed, however long the run takes, unless 2048
      other runs have claimed one since. */
  lemma BindingLasts(events: seq<Event>, i: nat)
    requires LastClaim(Run(events).log.claims, i) && |RunsAfter(Run(events).log.claims, i)| < 2048
    ensures var claim := Run(events).log.claims[i]; Get(Run(events).claimed, claim.run) == Some(claim.capture)
  {
    RunLasts(events);
    RunInv(events);
    var st := Run(events);
    assert ClaimStands(st.claimed, st.log.claims, i);
    BehindGet(st.claimed, st.log.claims[i].run, st.log.claims[i].capture, RunsAfter(st.log.claims, i));
  }

  // ---------------------------------------------------------------- a message and its token

  lemma {:induction false} ExpireKeeps(p: OMap<Queue>, k: string, q: Queue, now: int)
    requires UniqueKeys(p) && BehindAt(p, k, q, {}, |p| - 1) && q != [] && FreshOf(q, now) == q
    ensures Expire(p, now) != [] && BehindAt(Expire(p, now), k, q, {}, |Expire(p, now)| - 1)
    decreases |p|
  {
    if |p| == 1 {
      assert Expire(p[1..], now) == [];
    } else {
      assert BehindAt(p[1..], k, q, {}, |p[1..]| - 1);
      ExpireKeeps(p[1..], k, q, now);
    }
  }

  /** The newest session is kept by a prune that finds its captures fresh. */
  lemma NewestKept(st: State, session: string, c: Capture, now: int)
    requires Keyed(st) && NewestIs(st, session, c) && now - c.capturedAt <= 1200000
    ensures NewestIs(Prune(st, now), session, c)
  {
    ExpireKeeps(st.pending, session, [c], now);
  }

  /** The session inserted last has just this capture waiting. */
  ghost predicate NewestIs(st: State, session: string, c: Capture) {
    st.pending != [] && BehindAt(st.pending, session, [c], {}, |st.pending| - 1)
  }

  lemma {:induction false} AllStale(q: Queue, now: int)
    requires forall c :: c in q ==> now - c.capturedAt > 1200000
    ensures FreshOf(q, now) == []
    decreases |q|
  {
    if q != [] { AllStale(q[1..], now); }
  }

  lemma AloneArrives(st: State, c: Capture)
    requires Keyed(st) && c.session != "" && QueueOf(st.pending, c.session) == []
    ensures NewestIs(Enqueue(st, c), c.session, c) && Keyed(Enqueue(st, c))
  {
    EnqueueQueues(st, c);
    PutAt(st.pending, c.session, [c]);
  }

  lemma ArrivesAlone(st: State, m: Message, clock: Clock, c: Capture)
    requires Inv(st) && m.session != "" && (Signable(m) || m.unsupported) && clock.end - clock.captured <= 1200000
    requires forall x :: x in QueueOf(st.pending, m.session) ==> clock.start - x.capturedAt > 1200000
    requires c == CaptureOf(st, m, clock.captured)
    ensures NewestIs(MessageReceived(st, m, clock), m.session, c)
  {
    var pruned := Prune(st, clock.start);
    PruneKeyed(st, clock.start);
    AllStale(QueueOf(st.pending, m.session), clock.start);
    PruneSub(st, clock.start, m.session);
    AloneArrives(pruned, c);
    NewestKept(Enqueue(pruned, c), m.session, c, clock.end);
  }

  lemma NewestClaimed(st: State, session: string, c: Capture, run: string, now: int)
    requires Keyed(st) && NewestIs(st, session, c) && session != "" && run != "" && Get(st.claimed, run).None?
    requires now - c.capturedAt <= 1200000 && c.signable
    ensures Step(st, PromptBuild(session, run, c.sender, c.channel, now)).1 == Token(run, c)
  {
    NewestKept(st, session, c, now);
    PruneKeyed(st, now);
    var pruned := Prune(st, now);
    GetAt(pruned.pending, |pruned.pending| - 1);
  }

  lemma UnboundStays(st: State, m: Message, clock: Clock, run: string)
    requires Keyed(st) && Get(st.claimed, run).None?
    ensures Get(MessageReceived(st, m, clock).claimed, run).None?
  {
    TrimNamed(st.claimed);
    TrimNamed(Trim(st.claimed));
  }

  /** The token of a message: when nothing in its session is younger than twenty minutes, an unbound
      run that builds its prompt there within twenty minutes, for the same sender on the same channel,
      gets the token of exactly this message. */
  lemma MessageGetsToken(events: seq<Event>, m: Message, clock: Clock, run: string, now: int)
    requires m.session != "" && m.sender != "" && m.channel != "" && m.message != "" && run != ""
    requires clock.end - clock.captured <= 1200000 && now - clock.captured <= 1200000
    requires forall x :: x in QueueOf(Run(events).pending, m.session) ==> clock.start - x.capturedAt > 1200000
    requires Get(Run(events).claimed, run).None?
    ensures Step(Run(events + [Received(m, clock)]), PromptBuild(m.session, run, m.sender, m.channel, now)).1 ==
            Token(run, Capture(|Arrivals(events)|, m.session, clock.captured, m.sender, m.channel, m.message,
                               m.unsupported, true))
  {
    var st := Run(events);
    var c := CaptureOf(st, m, clock.captured);
    RunInv(events);
    ReceivedAre(events);
    RunSnoc(events, Received(m, clock));
    StepInv(st, Received(m, clock));
    ArrivesAlone(st, m, clock, c);
    UnboundStays(st, m, clock, run);
    NewestClaimed(Run(events + [Received(m, clock)]), m.session, c, run, now);
  }

  lemma NewestRefused(st: State, session: string, c: Capture, run: string, now: int)
    requires Keyed(st) && NewestIs(st, session, c) && session != "" && run != "" && Get(st.claimed, run).None?
    requires now - c.capturedAt <= 1200000 && c.blocked
    ensures Step(st, AgentRun(session, run, now)).1.Block?
  {
    NewestKept(st, session, c, now);
    PruneKeyed(st, now);
    var pruned := Prune(st, now);
    GetAt(pruned.pending, |pruned.pending| - 1);
  }

  /** A message with an unsupported attachment, signable or not, refuses the unbound run that starts in
      its session within twenty minutes, when nothing in the session is younger than that. */
  lemma MessageRefused(events: seq<Event>, m: Message, clock: Clock, run: string, now: int)
    requires m.session != "" && m.unsupported && run != ""
    requires clock.end - clock.captured <= 1200000 && now - clock.captured <= 1200000
    requires forall x :: x in QueueOf(Run(events).pending, m.session) ==> clock.start - x.capturedAt > 1200000
    requires Get(Run(events).claimed, run).None?
    ensures Step(Run(events + [Received(m, clock)]), AgentRun(m.session, run, now)).1 ==
            Block("unsupported_attachment_type")
  {
    var st, after := Run(events), events + [Received(m, clock)];
    var c := CaptureOf(st, m, clock.captured);
    RunInv(events);
    RunSnoc(events, Received(m, clock));
    StepInv(st, Received(m, clock));
    ArrivesAlone(st, m, clock, c);
    UnboundStays(st, m, clock, run);
    NewestRefused(Run(after), m.session, c, run, now);
    var k := RefusalHasCause(after, m.session, run, now);
  }

  /** The converse of TokenMatches: the run's capture, once signable and of the asked sender and
      channel, gets its token, on the first prompt build and on every retry. */
  lemma TokenMinted(events: seq<Event>, e: Event)
    requires e.PromptBuild? && e.run != ""
    requires var bound := Get(Step(Run(events), e).0.claimed, e.run);
      bound.Some? && bound.value.signable && bound.value.sender == e.sender && bound.value.channel == e.channel
    ensures Step(Run(events), e).1 == Token(e.run, Get(Step(Run(events), e).0.claimed, e.run).value)
  {
    var pruned := Prune(Run(events), e.now);
    if Takes(pruned, e.session, e.run) {
      PutMeans(pruned.claimed, e.run, QueueOf(pruned.pending, e.session)[0], e.run);
    }
  }

  /** An arrival drops a capture of its session only when eight wait there, and then the oldest. */
  lemma OverflowExactly(st: State, c: Capture)
    requires Keyed(st) && c.session != ""
    ensures var q := QueueOf(st.pending, c.session);
      && QueueOf(Enqueue(st, c).pending, c.session) == (if |q| == 8 then q[1..] else q) + [c]
      && Enqueue(st, c).log.overflowed == st.log.overflowed + (if |q| == 8 then multiset{q[0]} else multiset{})
  {
    EnqueueQueues(st, c);
    var q := QueueOf(st.pending, c.session);
    if |q| == 8 { assert (q + [c])[1..] == q[1..] + [c]; }
  }
}
