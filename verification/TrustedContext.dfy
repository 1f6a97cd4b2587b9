// The extension's module-level Maps as an object, its hooks as methods that update them in place.
module TrustedContext {
  import opened Options
  import opened OrderedMap
  import Q = CaptureQueue
  import I = CaptureInvariants

  lemma {:induction false} ExpireConcat(a: OMap<Q.Queue>, b: OMap<Q.Queue>, now: int)
    ensures Q.Expire(a + b, now) == Q.Expire(a, now) + Q.Expire(b, now)
    decreases |a|
  {
    if a == [] {
      assert a + b == b;
    } else {
      ExpireConcat(a[1..], b, now);
      assert (a + b)[1..] == a[1..] + b;
    }
  }

  predicate Swept(p: OMap<Q.Queue>, n: nat, now: int, cur: OMap<Q.Queue>, i: nat) {
    n <= |p| && i == |Q.Expire(p[..n], now)| && cur == Q.Expire(p[..n], now) + p[n..]
  }

  lemma SplitAt<T>(a: seq<T>, x: T, y: seq<T>, b: seq<T>)
    ensures (a + [x] + b)[|a|] == x
    ensures (a + [x] + b)[..|a|] + (a + [x] + b)[|a|+1..] == a + b
    ensures |y| == 1 ==> (a + [x] + b)[|a| := y[0]] == a + y + b
  {
    assert (a + [x] + b)[..|a|] == a && (a + [x] + b)[|a|+1..] == b;
  }

  function Left(e: Entry<Q.Queue>, now: int): OMap<Q.Queue> {
    var kept := Q.FreshOf(e.value, now);
    if kept == [] then [] else [Entry(e.key, kept)]
  }

  lemma ExpireSnoc(p: OMap<Q.Queue>, n: nat, now: int)
    requires n < |p|
    ensures Q.Expire(p[..n+1], now) == Q.Expire(p[..n], now) + Left(p[n], now)
  {
    assert p[..n+1] == p[..n] + [p[n]];
    ExpireConcat(p[..n], [p[n]], now);
    assert [p[n]][1..] == [];
  }

  /** One more queue looked at: its entry goes, shrinks or stays. */
  lemma SweepOne(p: OMap<Q.Queue>, n: nat, now: int, cur: OMap<Q.Queue>, i: nat)
    requires n < |p| && Swept(p, n, now, cur, i)
    ensures i < |cur| && cur[i] == p[n]
    ensures Left(p[n], now) == [] ==> Swept(p, n + 1, now, cur[..i] + cur[i+1..], i)
    ensures |Left(p[n], now)| == 1 ==> Swept(p, n + 1, now, cur[i := Left(p[n], now)[0]], i + 1)
  {
    ExpireSnoc(p, n, now);
    var head, entry := Q.Expire(p[..n], now), Left(p[n], now);
    assert cur == head + [p[n]] + p[n+1..];
    SplitAt(head, p[n], entry, p[n+1..]);
    assert head + [] == head;
  }

  /** A queue that keeps its length keeps its captures. */
  lemma {:induction false} SameLength(q: Q.Queue, now: int)
    ensures |Q.FreshOf(q, now)| <= |q|
    ensures |Q.FreshOf(q, now)| == |q| ==> Q.FreshOf(q, now) == q
  {
    if q != [] { SameLength(q[1..], now); }
  }

  /** The size cap of one Map: the oldest keys go first. */
  method TrimMap<V>(m: OMap<V>) returns (r: OMap<V>)
    requires I.KeysNamed(m)
    ensures r == Q.Trim(m)
  {
    r := m;
    ghost var n := 0;
    while |r| > Q.MAX_CACHE_ENTRIES
      invariant n <= |m| && r == m[n..] && (|r| < Q.MAX_CACHE_ENTRIES ==> n == 0)
    {
      var oldest := r[0].key;
      assert oldest == m[n].key;
      if oldest == "" { break; }
      r := r[1..];
      n := n + 1;
    }
  }

  class Hooks {
    var pending: OMap<Q.Queue>
    var claimed: OMap<Q.Capture>
    var blockedRuns: OMap<string>
    /** The identity the next capture object gets. */
    var arrivals: nat
    ghost var log: Q.Log

    ghost function State(): Q.State
      reads this
    {
      Q.State(pending, claimed, blockedRuns, log)
    }

    /** The object is in a state some interleaving of hooks reaches. */
    ghost predicate Valid()
      reads this
    {
      I.Inv(State()) && arrivals == |log.received|
    }

    constructor ()
      ensures Valid() && State() == Q.Start()
    {
      pending, claimed, blockedRuns, arrivals := [], [], [], 0;
      log := Q.Log([], [], multiset{}, multiset{}, multiset{});
      new;
      I.StartInv();
    }

    method DropStale(now: int)
      modifies this`pending
      ensures pending == Q.Expire(old(pending), now)
    {
      var i := 0;
      ghost var all, done := pending, 0;
      while i < |pending|
        invariant Swept(all, done, now, pending, i)
        decreases |all| - done
      {
        SweepOne(all, done, now, pending, i);
        var entry := pending[i];
        var kept := Q.FreshOf(entry.value, now);
        SameLength(entry.value, now);
        if |kept| == 0 {
          pending := pending[..i] + pending[i+1..];
        } else {
          if |kept| != |entry.value| { pending := pending[i := Entry(entry.key, kept)]; }
          i := i + 1;
        }
        done := done + 1;
      }
      assert all[..done] == all;
    }

    /** The size caps of the three Maps. */
    method TrimAll()
      requires I.KeysNamed(pending) && I.KeysNamed(claimed) && I.KeysNamed(blockedRuns)
      modifies this`pending, this`claimed, this`blockedRuns
      ensures pending == Q.Trim(old(pending))
      ensures claimed == Q.Trim(old(claimed))
      ensures blockedRuns == Q.Trim(old(blockedRuns))
    {
      var queues := TrimMap(pending);
      var claims := TrimMap(claimed);
      var blocks := TrimMap(blockedRuns);
      pending, claimed, blockedRuns := queues, claims, blocks;
    }

    method Prune(now: int)
      requires I.Keyed(State())
      modifies this
      ensures State() == Q.Prune(old(State()), now) && arrivals == old(arrivals)
    {
      ghost var before := State();
      DropStale(now);
      I.ExpireGet(before.pending, now, "");
      TrimAll();
      log := Q.Prune(before, now).log;
    }

    method ClaimCapture(session: string, run: string, now: int) returns (capture: Option<Q.Capture>)
      modifies this
      ensures arrivals == old(arrivals) && |log.received| == old(|log.received|)
      ensures (State(), capture) == Q.ClaimCapture(old(State()), session, run, now)
    {
      if run == "" { return None; }
      var existing := Get(claimed, run);
      if existing.Some? { return existing; }
      if session == "" { return None; }
      var queue := Get(pending, session);
      if queue.None? || queue.value == [] { return None; }
      var head := queue.value[0];
      var rest := queue.value[1..];
      if rest == [] { pending := Remove(pending, session); } else { pending := Put(pending, session, rest); }
      claimed := Put(claimed, run, head);
      log := log.(claims := log.claims + [Q.Claim(run, head, now)]);
      capture := Some(head);
    }

    /** push, then shift above the limit. */
    method Enqueue(capture: Q.Capture)
      modifies this
      ensures State() == Q.Enqueue(old(State()), capture) && arrivals == old(arrivals) + 1
    {
      var known := Get(pending, capture.session);
      var queue := (if known.Some? then known.value else []) + [capture];
      ghost var all, n := queue, 0;
      while |queue| > Q.MAX_PENDING_PER_SESSION
        invariant n <= |all| && queue == all[n..] && (|queue| < Q.MAX_PENDING_PER_SESSION ==> n == 0)
      {
        queue := queue[1..];
        n := n + 1;
      }
      pending := Put(pending, capture.session, queue);
      arrivals := arrivals + 1;
      log := log.(received := log.received + [capture], overflowed := log.overflowed + multiset(all[..n]));
    }

    method MessageReceived(m: Q.Message, clock: Q.Clock)
      requires Valid()
      modifies this
      ensures Valid() && State() == Q.MessageReceived(old(State()), m, clock)
    {
      I.StepInv(State(), Q.Received(m, clock));
      I.PruneInv(State(), clock.start);
      Prune(clock.start);
      if m.session == "" { return; }
      var capture := Q.Capture(arrivals, m.session, clock.captured, m.sender, m.channel, m.message,
        m.unsupported, m.sender != "" && m.channel != "" && m.message != "");
      if !capture.signable && !capture.blocked { return; }
      I.EnqueueQueues(State(), capture);
      Enqueue(capture);
      Prune(clock.end);
    }

    /** before_model_resolve; blockRun is its last two statements. */
    method BeforeModelResolve(run: string, nonDocument: bool, now: int)
      requires Valid()
      modifies this
      ensures Valid() && State() == Q.BeforeModelResolve(old(State()), run, nonDocument, now)
    {
      if !nonDocument || run == "" { return; }
      I.StepInv(State(), Q.ModelResolve(run, nonDocument, now));
      I.PutNamed(blockedRuns, run, Q.UNSUPPORTED);
      blockedRuns := Put(blockedRuns, run, Q.UNSUPPORTED);
      Prune(now);
    }

    method BeforePromptBuild(session: string, run: string, sender: string, channel: string, now: int)
      returns (out: Q.Output)
      requires Valid()
      modifies this
      ensures Valid() && (State(), out) == Q.BeforePromptBuild(old(State()), session, run, sender, channel, now)
    {
      I.StepInv(State(), Q.PromptBuild(session, run, sender, channel, now));
      Prune(now);
      var captured := ClaimCapture(session, run, now);
      if captured.None? || !captured.value.signable { return Q.Nothing; }
      if sender != captured.value.sender || channel != captured.value.channel { return Q.Nothing; }
      out := Q.Token(run, captured.value);
    }

    method TakeBlock(run: string) returns (category: string)
      modifies this`blockedRuns
      ensures category == Q.BlockOf(old(State()), run) && State() == Q.Cleared(old(State()), run)
    {
      category := "";
      if run != "" {
        var blocked := Get(blockedRuns, run);
        blockedRuns := Remove(blockedRuns, run);
        if blocked.Some? { category := blocked.value; }
      }
    }

    method BeforeAgentRun(session: string, run: string, now: int) returns (out: Q.Output)
      requires Valid()
      modifies this
      ensures Valid() && (State(), out) == Q.BeforeAgentRun(old(State()), session, run, now)
    {
      I.StepInv(State(), Q.AgentRun(session, run, now));
      Prune(now);
      var category := TakeBlock(run);
      if category != "" { return Q.Block(category); }
      var captured := ClaimCapture(session, run, now);
      out := if captured.Some? && captured.value.blocked then Q.Block(Q.UNSUPPORTED) else Q.Nothing;
    }
  }
}
