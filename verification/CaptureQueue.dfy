// runtime-extensions/vc-trusted-context/index.js: captures of inbound messages wait per session and
// are claimed by agent runs. This module gives each hook as a function of the three Maps and of a
// history of what became of every capture.
module CaptureQueue {
  import opened Options
  import opened OrderedMap

  const PENDING_TTL_MS := 20 * 60 * 1000
  const MAX_CACHE_ENTRIES := 2048
  const MAX_PENDING_PER_SESSION := 8

  /** A captured message. id is the identity of the capture object: its place in arrival order. */
  datatype Capture = Capture(
    id: nat, session: string, capturedAt: int, sender: string, channel: string, message: string,
    blocked: bool, signable: bool)

  type Queue = seq<Capture>

  datatype Claim = Claim(run: string, capture: Capture, at: int)

  /** What happened to every capture so far. */
  datatype Log = Log(
    received: seq<Capture>, claims: seq<Claim>,
    expired: multiset<Capture>, overflowed: multiset<Capture>, evicted: multiset<Capture>)

  datatype State = State(pending: OMap<Queue>, claimed: OMap<Capture>, blockedRuns: OMap<string>, log: Log)

  function Start(): State { State([], [], [], Log([], [], multiset{}, multiset{}, multiset{})) }

  // ---------------------------------------------------------------- prune

  predicate IsFresh(c: Capture, now: int) { now - c.capturedAt <= PENDING_TTL_MS }

  function FreshOf(q: Queue, now: int): Queue {
    if q == [] then [] else (if IsFresh(q[0], now) then [q[0]] else []) + FreshOf(q[1..], now)
  }

  function StaleOf(q: Queue, now: int): multiset<Capture> {
    if q == [] then multiset{} else (if IsFresh(q[0], now) then multiset{} else multiset{q[0]}) + StaleOf(q[1..], now)
  }

  function Expire(p: OMap<Queue>, now: int): OMap<Queue> {
    if p == [] then []
    else
      var kept := FreshOf(p[0].value, now);
      (if kept == [] then [] else [Entry(p[0].key, kept)]) + Expire(p[1..], now)
  }

  function Stale(p: OMap<Queue>, now: int): multiset<Capture> {
    if p == [] then multiset{} else StaleOf(p[0].value, now) + Stale(p[1..], now)
  }

  /** All pending captures. */
  function Held(p: OMap<Queue>): multiset<Capture> {
    if p == [] then multiset{} else multiset(p[0].value) + Held(p[1..])
  }

  /** How many of the oldest entries the size cap removes. */
  function Surplus<V>(m: OMap<V>): (n: nat)
    ensures n <= |m|
  {
    if |m| > MAX_CACHE_ENTRIES then |m| - MAX_CACHE_ENTRIES else 0
  }

  function Trim<V>(m: OMap<V>): OMap<V> { m[Surplus(m)..] }

  function Prune(st: State, now: int): State {
    var left := Expire(st.pending, now);
    State(Trim(left), Trim(st.claimed), Trim(st.blockedRuns),
      st.log.(expired := st.log.expired + Stale(st.pending, now),
              evicted := st.log.evicted + Held(left[..Surplus(left)])))
  }

  // ---------------------------------------------------------------- hooks

  function QueueOf(p: OMap<Queue>, session: string): Queue {
    match Get(p, session) case None => [] case Some(q) => q
  }

  function ClaimCapture(st: State, session: string, run: string, now: int): (State, Option<Capture>) {
    if run == "" then (st, None)
    else if Get(st.claimed, run).Some? then (st, Get(st.claimed, run))
    else if session == "" || QueueOf(st.pending, session) == [] then (st, None)
    else
      var q := QueueOf(st.pending, session);
      (State(
        if |q| == 1 then Remove(st.pending, session) else Put(st.pending, session, q[1..]),
        Put(st.claimed, run, q[0]),
        st.blockedRuns,
        st.log.(claims := st.log.claims + [Claim(run, q[0], now)])),
       Some(q[0]))
  }

  /** A message with its fields already through text(): "" where that rejects the value. */
  datatype Message = Message(session: string, sender: string, channel: string, message: string, unsupported: bool)

  function CaptureOf(st: State, m: Message, now: int): Capture {
    Capture(|st.log.received|, m.session, now, m.sender, m.channel, m.message,
      m.unsupported, m.sender != "" && m.channel != "" && m.message != "")
  }

  /** push, then drop from the front above the per-session limit. */
  function Enqueue(st: State, c: Capture): State {
    var q := QueueOf(st.pending, c.session) + [c];
    var surplus := if |q| > MAX_PENDING_PER_SESSION then |q| - MAX_PENDING_PER_SESSION else 0;
    st.(pending := Put(st.pending, c.session, q[surplus..]),
        log := st.log.(received := st.log.received + [c], overflowed := st.log.overflowed + multiset(q[..surplus])))
  }

  /** The hook reads the clock three times: to prune, for the capture, and to prune again. */
  datatype Clock = Clock(start: int, captured: int, end: int)

  function MessageReceived(st: State, m: Message, clock: Clock): State {
    var pruned := Prune(st, clock.start);
    if m.session == "" then pruned
    else
      var c := CaptureOf(pruned, m, clock.captured);
      if !c.signable && !c.blocked then pruned else Prune(Enqueue(pruned, c), clock.end)
  }

  const UNSUPPORTED := "unsupported_attachment_type"

  function BeforeModelResolve(st: State, run: string, nonDocument: bool, now: int): State {
    if nonDocument && run != "" then Prune(st.(blockedRuns := Put(st.blockedRuns, run, UNSUPPORTED)), now) else st
  }

  datatype Output = Nothing | Token(run: string, capture: Capture) | Block(category: string)

  function BeforePromptBuild(st: State, session: string, run: string, sender: string, channel: string, now: int)
    : (State, Output)
  {
    var (next, captured) := ClaimCapture(Prune(st, now), session, run, now);
    if captured.None? || !captured.value.signable
      || sender != captured.value.sender || channel != captured.value.channel
    then (next, Nothing)
    else (next, Token(run, captured.value))
  }

  /** The category recorded for a run, "" for none, and the state once that record is deleted. */
  function BlockOf(st: State, run: string): string {
    if run == "" || Get(st.blockedRuns, run).None? then "" else Get(st.blockedRuns, run).value
  }

  function Cleared(st: State, run: string): State {
    st.(blockedRuns := if run == "" then st.blockedRuns else Remove(st.blockedRuns, run))
  }

  function BeforeAgentRun(st: State, session: string, run: string, now: int): (State, Output) {
    var pruned := Prune(st, now);
    if BlockOf(pruned, run) != "" then (Cleared(pruned, run), Block(BlockOf(pruned, run)))
    else
      var (next, captured) := ClaimCapture(Cleared(pruned, run), session, run, now);
      (next, if captured.Some? && captured.value.blocked then Block(UNSUPPORTED) else Nothing)
  }

  /** One hook call, with what its Date.now() returns. */
  datatype Event =
    | Received(m: Message, clock: Clock)
    | ModelResolve(run: string, nonDocument: bool, now: int)
    | PromptBuild(session: string, run: string, sender: string, channel: string, now: int)
    | AgentRun(session: string, run: string, now: int)

  function Step(st: State, e: Event): (State, Output) {
    match e
    case Received(m, clock) => (MessageReceived(st, m, clock), Nothing)
    case ModelResolve(run, nonDocument, now) => (BeforeModelResolve(st, run, nonDocument, now), Nothing)
    case PromptBuild(session, run, sender, channel, now) => BeforePromptBuild(st, session, run, sender, channel, now)
    case AgentRun(session, run, now) => BeforeAgentRun(st, session, run, now)
  }

  /** Any interleaving of hook calls. */
  function Run(events: seq<Event>): State {
    if events == [] then Start() else Step(Run(events[..|events|-1]), events[|events|-1]).0
  }
}
