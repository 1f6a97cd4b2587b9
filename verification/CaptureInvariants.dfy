// What every interleaving of hooks keeps.
module CaptureInvariants {
  import opened Options
  import opened OrderedMap
  import opened CaptureQueue

  // ---------------------------------------------------------------- the invariant

  function ClaimsOf(claims: seq<Claim>, session: string): Queue {
    if claims == [] then []
    else
      var c := claims[|claims|-1].capture;
      ClaimsOf(claims[..|claims|-1], session) + if c.session == session then [c] else []
  }

  function ReceivedOf(received: seq<Capture>, session: string): Queue {
    if received == [] then []
    else
      var c := received[|received|-1];
      ReceivedOf(received[..|received|-1], session) + if c.session == session then [c] else []
  }

  function Claimed(claims: seq<Claim>): multiset<Capture> {
    if claims == [] then multiset{} else Claimed(claims[..|claims|-1]) + multiset{claims[|claims|-1].capture}
  }

  /** The captures of a session in the order they were or will be claimed. */
  function Line(st: State, session: string): Queue { ClaimsOf(st.log.claims, session) + QueueOf(st.pending, session) }

  /** Captures of one session in strictly rising arrival order, from lo on and below hi. */
  predicate Rising(q: Queue, session: string, lo: nat, hi: nat) {
    q == [] || (q[0].session == session && lo <= q[0].id < hi && Rising(q[1..], session, q[0].id + 1, hi))
  }

  ghost predicate NoDrops(log: Log, session: string) {
    forall c :: c in log.expired + log.overflowed + log.evicted ==> c.session != session
  }

  /** Every received capture is pending, claimed, expired, overflowed or evicted, exactly once. */
  ghost predicate Conserved(st: State) {
    multiset(st.log.received) ==
      Held(st.pending) + Claimed(st.log.claims) + st.log.expired + st.log.overflowed + st.log.evicted
  }

  ghost predicate InOrder(st: State, session: string) {
    && Rising(Line(st, session), session, 0, |st.log.received|)
    && (NoDrops(st.log, session) ==> Line(st, session) == ReceivedOf(st.log.received, session))
  }

  predicate KeysNamed<V>(m: OMap<V>) { UniqueKeys(m) && forall i :: 0 <= i < |m| ==> m[i].key != "" }

  ghost predicate QueuesShort(p: OMap<Queue>) {
    forall k :: Get(p, k).Some? ==> 0 < |Get(p, k).value| <= 8
  }

  ghost predicate Keyed(st: State) {
    && KeysNamed(st.pending) && KeysNamed(st.claimed) && KeysNamed(st.blockedRuns)
    && QueuesShort(st.pending)
  }

  predicate Bounded(st: State) {
    |st.pending| <= 2048 && |st.blockedRuns| <= 2048 && |st.claimed| <= 2049
  }

  predicate ClaimsFresh(claims: seq<Claim>) {
    forall i :: 0 <= i < |claims| ==> IsFresh(claims[i].capture, claims[i].at)
  }

  predicate Stands(claims: seq<Claim>, run: string, c: Capture) {
    exists i :: 0 <= i < |claims| && claims[i].run == run && claims[i].capture == c
  }

  /** What a run is bound to, it once claimed. */
  ghost predicate Backed(st: State) {
    forall run :: Get(st.claimed, run).Some? ==> Stands(st.log.claims, run, Get(st.claimed, run).value)
  }

  ghost predicate Inv(st: State) {
    && Keyed(st) && Bounded(st) && Conserved(st) && ClaimsFresh(st.log.claims) && Backed(st)
    && forall session :: InOrder(st, session)
  }

  // ---------------------------------------------------------------- subsequences

  /** a is b with some captures left out. */
  predicate Sub(a: Queue, b: Queue) {
    a == [] || (b != [] && ((a[0] == b[0] && Sub(a[1..], b[1..])) || Sub(a, b[1..])))
  }

  lemma {:induction false} SubSelf(a: Queue)
    ensures Sub(a, a)
    decreases |a|
  {
    if a != [] { SubSelf(a[1..]); }
  }

  lemma {:induction false} SubConcat(p: Queue, a: Queue, b: Queue)
    requires Sub(a, b)
    ensures Sub(p + a, p + b)
    decreases |p|
  {
    if p == [] {
      assert p + a == a && p + b == b;
    } else {
      SubConcat(p[1..], a, b);
      assert (p + a)[1..] == p[1..] + a && (p + b)[1..] == p[1..] + b;
    }
  }

  lemma SubTail(q: Queue, n: nat)
    requires n <= |q|
    ensures Sub(q[n..], q)
    decreases n
  {
    if n == 0 { SubSelf(q); assert q[0..] == q; }
    else { SubTail(q[1..], n - 1); assert q[1..][n-1..] == q[n..]; }
  }

  lemma {:induction false} SubRising(a: Queue, b: Queue, session: string, lo: nat, hi: nat)
    requires Sub(a, b) && Rising(b, session, lo, hi)
    ensures Rising(a, session, lo, hi)
    decreases |b|
  {
    if a != [] {
      if a[0] == b[0] && Sub(a[1..], b[1..]) {
        SubRising(a[1..], b[1..], session, b[0].id + 1, hi);
      } else {
        SubRising(a, b[1..], session, b[0].id + 1, hi);
      }
    }
  }

  lemma {:induction false} RisingSnoc(q: Queue, session: string, lo: nat, hi: nat, c: Capture)
    requires Rising(q, session, lo, hi) && c.session == session && c.id == hi && lo <= hi
    ensures Rising(q + [c], session, lo, hi + 1)
    decreases |q|
  {
    if q != [] {
      RisingSnoc(q[1..], session, q[0].id + 1, hi, c);
      assert (q + [c])[1..] == q[1..] + [c];
    }
  }

  lemma {:induction false} RisingWider(q: Queue, session: string, lo: nat, hi: nat)
    requires Rising(q, session, lo, hi)
    ensures Rising(q, session, lo, hi + 1)
    decreases |q|
  {
    if q != [] { RisingWider(q[1..], session, q[0].id + 1, hi); }
  }

  lemma {:induction false} RisingMeans(q: Queue, session: string, lo: nat, hi: nat, i: nat, j: nat)
    requires Rising(q, session, lo, hi) && i <= j < |q|
    ensures q[i].session == session && lo <= q[i].id < hi
    ensures i < j ==> q[i].id < q[j].id
    decreases |q|
  {
    if i > 0 { RisingMeans(q[1..], session, q[0].id + 1, hi, i - 1, j - 1); }
    else if j > 0 { RisingMeans(q[1..], session, q[0].id + 1, hi, j - 1, j - 1); }
  }

  // ---------------------------------------------------------------- prune

  lemma {:induction false} FreshBag(q: Queue, now: int)
    ensures multiset(FreshOf(q, now)) + StaleOf(q, now) == multiset(q)
    decreases |q|
  {
    if q != [] {
      FreshBag(q[1..], now);
      assert q == [q[0]] + q[1..];
    }
  }

  lemma {:induction false} FreshSub(q: Queue, now: int)
    ensures Sub(FreshOf(q, now), q) && |FreshOf(q, now)| <= |q|
    ensures StaleOf(q, now) == multiset{} ==> FreshOf(q, now) == q
    decreases |q|
  {
    if q != [] {
      FreshSub(q[1..], now);
      if IsFresh(q[0], now) {
        assert FreshOf(q, now)[1..] == FreshOf(q[1..], now);
      } else {
        assert FreshOf(q, now) == FreshOf(q[1..], now);
        assert q[0] in StaleOf(q, now);
      }
    }
  }

  lemma {:induction false} FreshAll(q: Queue, now: int, i: nat)
    requires i < |FreshOf(q, now)|
    ensures IsFresh(FreshOf(q, now)[i], now)
    decreases |q|
  {
    if !IsFresh(q[0], now) { FreshAll(q[1..], now, i); }
    else if i > 0 { FreshAll(q[1..], now, i - 1); }
  }

  lemma {:induction false} ExpireGet(p: OMap<Queue>, now: int, k: string)
    requires KeysNamed(p)
    ensures KeysNamed(Expire(p, now)) && |Expire(p, now)| <= |p|
    ensures QueueOf(Expire(p, now), k) == FreshOf(QueueOf(p, k), now)
    ensures Get(Expire(p, now), k).Some? ==> Get(p, k).Some? && Get(Expire(p, now), k).value != []
    decreases |p|
  {
    if p != [] {
      UniqueTail(p);
      ExpireGet(p[1..], now, k);
      ExpireGet(p[1..], now, p[0].key);
      var e := Expire(p, now);
      if FreshOf(p[0].value, now) != [] {
        assert e[1..] == Expire(p[1..], now);
        UniqueTail(e);
      } else {
        assert e == Expire(p[1..], now);
      }
    }
  }

  lemma {:induction false} ExpireBag(p: OMap<Queue>, now: int)
    ensures Held(Expire(p, now)) + Stale(p, now) == Held(p)
    decreases |p|
  {
    if p != [] {
      ExpireBag(p[1..], now);
      FreshBag(p[0].value, now);
      var e := Expire(p, now);
      if FreshOf(p[0].value, now) != [] { assert e[1..] == Expire(p[1..], now); }
      else { assert e == Expire(p[1..], now); }
    }
  }

  lemma {:induction false} StaleIn(p: OMap<Queue>, now: int, k: string, c: Capture)
    requires c in StaleOf(QueueOf(p, k), now)
    ensures c in Stale(p, now)
    decreases |p|
  {
    if p != [] && p[0].key != k { StaleIn(p[1..], now, k, c); }
  }

  lemma {:induction false} HeldSplit(p: OMap<Queue>, n: nat)
    requires n <= |p|
    ensures Held(p) == Held(p[..n]) + Held(p[n..])
    decreases |p|
  {
    if n > 0 {
      HeldSplit(p[1..], n - 1);
      assert p[..n][1..] == p[1..][..n-1];
      assert p[1..][n-1..] == p[n..];
    } else {
      assert p[0..] == p;
    }
  }

  lemma {:induction false} HeldIn(p: OMap<Queue>, k: string, c: Capture)
    requires c in QueueOf(p, k)
    ensures c in Held(p)
    decreases |p|
  {
    if p != [] && p[0].key != k { HeldIn(p[1..], k, c); }
    else { assert c in multiset(p[0].value); }
  }

  /** The first session's queue goes with the first entries dropped. */
  lemma HeadDropped(p: OMap<Queue>, n: nat)
    requires 0 < n <= |p| && UniqueKeys(p)
    ensures QueueOf(p[n..], p[0].key) == [] && QueueOf(p, p[0].key) == QueueOf(p[..n], p[0].key)
  {
    UniqueTail(p);
    assert Get(p[1..], p[0].key) == None;
    DropMeans(p[1..], n - 1, p[0].key);
    assert p[1..][n-1..] == p[n..];
  }

  /** A session that loses its queue to the size cap has its captures among the evicted. */
  lemma {:induction false} DropHeld(p: OMap<Queue>, n: nat, k: string)
    requires n <= |p| && UniqueKeys(p)
    ensures QueueOf(p[n..], k) == QueueOf(p, k) ||
            (QueueOf(p[n..], k) == [] && QueueOf(p, k) == QueueOf(p[..n], k))
    decreases |p|
  {
    if n == 0 {
      assert p[0..] == p;
    } else if p[0].key == k {
      HeadDropped(p, n);
    } else {
      UniqueTail(p);
      DropHeld(p[1..], n - 1, k);
      assert p[..n][1..] == p[1..][..n-1];
      assert p[1..][n-1..] == p[n..];
    }
  }

  /** Prune leaves a session's queue alone, thins it out or empties it. */
  lemma PruneSub(st: State, now: int, k: string)
    requires KeysNamed(st.pending)
    ensures Sub(QueueOf(Prune(st, now).pending, k), FreshOf(QueueOf(st.pending, k), now))
    ensures Sub(QueueOf(Prune(st, now).pending, k), QueueOf(st.pending, k))
  {
    var left := Expire(st.pending, now);
    ExpireGet(st.pending, now, k);
    DropHeld(left, Surplus(left), k);
    FreshSub(QueueOf(st.pending, k), now);
    SubSelf(FreshOf(QueueOf(st.pending, k), now));
  }

  /** A queue that prune changes has a capture in the drop record. */
  lemma PruneRecords(st: State, now: int, k: string) returns (c: Capture)
    requires KeysNamed(st.pending)
    requires QueueOf(Prune(st, now).pending, k) != QueueOf(st.pending, k)
    ensures c in QueueOf(st.pending, k)
    ensures c in Prune(st, now).log.expired + Prune(st, now).log.evicted
  {
    var q, left := QueueOf(st.pending, k), Expire(st.pending, now);
    ExpireGet(st.pending, now, k);
    DropHeld(left, Surplus(left), k);
    FreshSub(q, now);
    FreshBag(q, now);
    if StaleOf(q, now) != multiset{} {
      c :| c in StaleOf(q, now);
      StaleIn(st.pending, now, k, c);
      assert c in multiset(q);
    } else {
      c := q[0];
      HeldIn(left[..Surplus(left)], k, c);
    }
  }

  lemma PruneInOrder(st: State, now: int, k: string)
    requires KeysNamed(st.pending) && InOrder(st, k)
    ensures InOrder(Prune(st, now), k)
  {
    var next, done := Prune(st, now), ClaimsOf(st.log.claims, k);
    PruneSub(st, now, k);
    SubConcat(done, QueueOf(next.pending, k), QueueOf(st.pending, k));
    SubRising(Line(next, k), Line(st, k), k, 0, |st.log.received|);
    if NoDrops(next.log, k) {
      PruneNoDrops(st, now, k);
    }
  }

  lemma InLine(st: State, k: string, c: Capture)
    requires InOrder(st, k) && c in QueueOf(st.pending, k)
    ensures c.session == k
  {
    var j :| 0 <= j < |QueueOf(st.pending, k)| && QueueOf(st.pending, k)[j] == c;
    var i := |ClaimsOf(st.log.claims, k)| + j;
    RisingMeans(Line(st, k), k, 0, |st.log.received|, i, i);
  }

  lemma PruneNoDrops(st: State, now: int, k: string)
    requires KeysNamed(st.pending) && InOrder(st, k) && NoDrops(Prune(st, now).log, k)
    ensures NoDrops(st.log, k) && QueueOf(Prune(st, now).pending, k) == QueueOf(st.pending, k)
  {
    var next := Prune(st, now);
    forall c | c in st.log.expired + st.log.overflowed + st.log.evicted ensures c.session != k {
      assert c in next.log.expired + next.log.overflowed + next.log.evicted;
    }
    if QueueOf(next.pending, k) != QueueOf(st.pending, k) { PruneDrops(st, now, k); }
  }

  lemma PruneDrops(st: State, now: int, k: string)
    requires KeysNamed(st.pending) && InOrder(st, k)
    requires QueueOf(Prune(st, now).pending, k) != QueueOf(st.pending, k)
    ensures !NoDrops(Prune(st, now).log, k)
  {
    var c := PruneRecords(st, now, k);
    InLine(st, k, c);
  }

  lemma TrimNamed<V>(m: OMap<V>)
    requires KeysNamed(m)
    ensures KeysNamed(Trim(m)) && |Trim(m)| <= MAX_CACHE_ENTRIES
    ensures forall k :: Get(Trim(m), k).Some? ==> Get(Trim(m), k) == Get(m, k)
  {
    forall k ensures Get(Trim(m), k).Some? ==> Get(Trim(m), k) == Get(m, k) { DropMeans(m, Surplus(m), k); }
  }

  lemma PruneKeyed(st: State, now: int)
    requires Keyed(st)
    ensures Keyed(Prune(st, now))
    ensures |Prune(st, now).pending| <= MAX_CACHE_ENTRIES && |Prune(st, now).claimed| <= MAX_CACHE_ENTRIES
    ensures |Prune(st, now).blockedRuns| <= MAX_CACHE_ENTRIES
    ensures forall k :: Get(Prune(st, now).claimed, k).Some? ==> Get(Prune(st, now).claimed, k) == Get(st.claimed, k)
    ensures forall k, c :: c in QueueOf(Prune(st, now).pending, k) ==> IsFresh(c, now)
  {
    var left := Expire(st.pending, now);
    ExpireGet(st.pending, now, "");
    TrimNamed(left);
    TrimNamed(st.claimed);
    TrimNamed(st.blockedRuns);
    forall k
      ensures Get(Trim(left), k).Some? ==> 0 < |Get(Trim(left), k).value| <= MAX_PENDING_PER_SESSION
      ensures forall c :: c in QueueOf(Trim(left), k) ==> IsFresh(c, now)
    {
      ExpireGet(st.pending, now, k);
      FreshSub(QueueOf(st.pending, k), now);
      forall c | c in FreshOf(QueueOf(st.pending, k), now) ensures IsFresh(c, now) {
        var i :| 0 <= i < |FreshOf(QueueOf(st.pending, k), now)| && FreshOf(QueueOf(st.pending, k), now)[i] == c;
        FreshAll(QueueOf(st.pending, k), now, i);
      }
    }
  }

  lemma PruneConserved(st: State, now: int)
    requires Conserved(st)
    ensures Conserved(Prune(st, now))
  {
    var left := Expire(st.pending, now);
    ExpireBag(st.pending, now);
    HeldSplit(left, Surplus(left));
  }

  lemma PruneInv(st: State, now: int)
    requires Keyed(st) && Conserved(st) && ClaimsFresh(st.log.claims) && Backed(st)
    requires forall session :: InOrder(st, session)
    ensures Inv(Prune(st, now))
  {
    PruneKeyed(st, now);
    PruneConserved(st, now);
    forall session ensures InOrder(Prune(st, now), session) { PruneInOrder(st, now, session); }
  }

  // ---------------------------------------------------------------- claims

  lemma {:induction false} HeldPut(p: OMap<Queue>, k: string, q: Queue)
    requires UniqueKeys(p)
    ensures Held(Put(p, k, q)) + multiset(QueueOf(p, k)) == Held(p) + multiset(q)
    decreases |p|
  {
    if p == [] {
      assert [Entry(k, q)][1..] == [];
    } else if p[0].key == k {
      assert Put(p, k, q)[1..] == p[1..];
    } else {
      UniqueTail(p);
      HeldPut(p[1..], k, q);
      assert Put(p, k, q)[1..] == Put(p[1..], k, q);
      var first := multiset(p[0].value);
      assert Put(p, k, q)[0] == p[0] && QueueOf(p, k) == QueueOf(p[1..], k);
      assert (first + Held(Put(p[1..], k, q))) + multiset(QueueOf(p, k))
          == first + (Held(Put(p[1..], k, q)) + multiset(QueueOf(p[1..], k)));
    }
  }

  lemma Cancel(x: multiset<Capture>, y: multiset<Capture>, b: multiset<Capture>)
    requires x + b == y + b
    ensures x == y
  {
    forall c ensures x[c] == y[c] { assert (x + b)[c] == x[c] + b[c] && (y + b)[c] == y[c] + b[c]; }
  }

  lemma {:induction false} HeldRemove(p: OMap<Queue>, k: string)
    requires UniqueKeys(p)
    ensures Held(Remove(p, k)) + multiset(QueueOf(p, k)) == Held(p)
    decreases |p|
  {
    if p != [] && p[0].key != k {
      UniqueTail(p);
      HeldRemove(p[1..], k);
      assert Remove(p, k)[1..] == Remove(p[1..], k);
    }
  }

  lemma PutNamed<V>(m: OMap<V>, k: string, v: V)
    requires KeysNamed(m) && k != ""
    ensures KeysNamed(Put(m, k, v))
  {
    PutUnique(m, k, v);
    var p := Put(m, k, v);
    forall i | 0 <= i < |p| ensures p[i].key != "" {
      GetAt(p, i);
      PutMeans(m, k, v, p[i].key);
    }
  }

  lemma RemoveNamed<V>(m: OMap<V>, k: string)
    requires KeysNamed(m)
    ensures KeysNamed(Remove(m, k)) && |Remove(m, k)| <= |m|
  {
    RemoveMeans(m, k, k);
    var p := Remove(m, k);
    forall i | 0 <= i < |p| ensures p[i].key != "" {
      GetAt(p, i);
      RemoveMeans(m, k, p[i].key);
    }
  }

  /** The branch of claimCapture that takes a capture. */
  predicate Takes(st: State, session: string, run: string) {
    run != "" && Get(st.claimed, run).None? && session != "" && QueueOf(st.pending, session) != []
  }

  function AfterTake(p: OMap<Queue>, session: string): OMap<Queue>
    requires QueueOf(p, session) != []
  {
    var q := QueueOf(p, session);
    if |q| == 1 then Remove(p, session) else Put(p, session, q[1..])
  }

  lemma TakeBag(p: OMap<Queue>, session: string)
    requires UniqueKeys(p) && QueueOf(p, session) != []
    ensures Held(AfterTake(p, session)) + multiset{QueueOf(p, session)[0]} == Held(p)
  {
    var q := QueueOf(p, session);
    assert q == [q[0]] + q[1..];
    if |q| == 1 {
      HeldRemove(p, session);
    } else {
      HeldPut(p, session, q[1..]);
      assert multiset(q) == multiset{q[0]} + multiset(q[1..]);
      var after := Held(Put(p, session, q[1..]));
      assert (after + multiset{q[0]}) + multiset(q[1..]) == after + multiset(q);
      Cancel(after + multiset{q[0]}, Held(p), multiset(q[1..]));
    }
  }

  predicate QueueTaken(p: OMap<Queue>, session: string, k: string)
    requires QueueOf(p, session) != []
  {
    QueueOf(AfterTake(p, session), k) == if k == session then QueueOf(p, session)[1..] else QueueOf(p, k)
  }

  lemma TakeLast(p: OMap<Queue>, session: string)
    requires KeysNamed(p) && session != "" && |QueueOf(p, session)| == 1
    ensures KeysNamed(Remove(p, session)) && |Remove(p, session)| <= |p|
    ensures forall k :: QueueTaken(p, session, k)
    ensures QueuesShort(p) ==> QueuesShort(Remove(p, session))
  {
    RemoveNamed(p, session);
    forall k ensures Get(Remove(p, session), k) == if k == session then None else Get(p, k) {
      RemoveMeans(p, session, k);
    }
  }

  lemma TakeHead(p: OMap<Queue>, session: string)
    requires KeysNamed(p) && session != "" && |QueueOf(p, session)| > 1
    ensures var next := Put(p, session, QueueOf(p, session)[1..]);
      && KeysNamed(next) && |next| <= |p| && (QueuesShort(p) ==> QueuesShort(next))
      && forall k :: QueueTaken(p, session, k)
  {
    var q := QueueOf(p, session);
    PutNamed(p, session, q[1..]);
    PutUnique(p, session, q[1..]);
    forall k ensures Get(Put(p, session, q[1..]), k) == if k == session then Some(q[1..]) else Get(p, k) {
      PutMeans(p, session, q[1..], k);
    }
  }

  lemma TakeQueues(p: OMap<Queue>, session: string)
    requires KeysNamed(p) && session != "" && QueueOf(p, session) != []
    ensures KeysNamed(AfterTake(p, session)) && |AfterTake(p, session)| <= |p|
    ensures forall k :: QueueTaken(p, session, k)
    ensures QueuesShort(p) ==> QueuesShort(AfterTake(p, session))
  {
    if |QueueOf(p, session)| == 1 { TakeLast(p, session); } else { TakeHead(p, session); }
  }

  lemma StandsSnoc(claims: seq<Claim>, c: Claim, run: string, capture: Capture)
    requires Stands(claims, run, capture) || (c.run == run && c.capture == capture)
    ensures Stands(claims + [c], run, capture)
  {
    if Stands(claims, run, capture) {
      var i :| 0 <= i < |claims| && claims[i].run == run && claims[i].capture == capture;
      assert (claims + [c])[i] == claims[i];
    } else {
      assert (claims + [c])[|claims|] == c;
    }
  }

  lemma TakeBacked(st: State, session: string, run: string, now: int)
    requires Keyed(st) && Takes(st, session, run) && Backed(st)
    ensures Backed(ClaimCapture(st, session, run, now).0)
  {
    var next := ClaimCapture(st, session, run, now).0;
    var c := QueueOf(st.pending, session)[0];
    forall r | Get(next.claimed, r).Some? ensures Stands(next.log.claims, r, Get(next.claimed, r).value) {
      PutMeans(st.claimed, run, c, r);
      StandsSnoc(st.log.claims, Claim(run, c, now), r, Get(next.claimed, r).value);
    }
  }

  lemma ClaimsSnoc(claims: seq<Claim>, c: Claim, k: string)
    ensures ClaimsOf(claims + [c], k) == ClaimsOf(claims, k) + if c.capture.session == k then [c.capture] else []
    ensures Claimed(claims + [c]) == Claimed(claims) + multiset{c.capture}
  {
    assert (claims + [c])[..|claims|] == claims;
  }

  lemma TakeState(st: State, session: string, run: string, now: int)
    requires Takes(st, session, run)
    ensures var next := ClaimCapture(st, session, run, now).0;
      && next.pending == AfterTake(st.pending, session)
      && next.log == st.log.(claims := st.log.claims + [Claim(run, QueueOf(st.pending, session)[0], now)])
  {
  }

  lemma MoveHead(done: Queue, q: Queue)
    requires q != []
    ensures (done + [q[0]]) + q[1..] == done + q
  {
  }

  /** Claiming moves the head of a queue to the end of the claims: the session's line stays. */
  lemma TakeLine(st: State, session: string, run: string, now: int, k: string)
    requires Keyed(st) && Takes(st, session, run) && InOrder(st, session)
    ensures Line(ClaimCapture(st, session, run, now).0, k) == Line(st, k)
  {
    var q, done := QueueOf(st.pending, session), ClaimsOf(st.log.claims, k);
    TakeState(st, session, run, now);
    TakeQueues(st.pending, session);
    assert QueueTaken(st.pending, session, k);
    ClaimsSnoc(st.log.claims, Claim(run, q[0], now), k);
    InLine(st, session, q[0]);
    if k == session { MoveHead(done, q); } else { assert done + [] == done; }
  }

  lemma TakeConserved(st: State, session: string, run: string, now: int)
    requires Keyed(st) && Takes(st, session, run) && Conserved(st)
    ensures Conserved(ClaimCapture(st, session, run, now).0)
  {
    var q := QueueOf(st.pending, session);
    TakeBag(st.pending, session);
    ClaimsSnoc(st.log.claims, Claim(run, q[0], now), session);
  }

  lemma TakeKeyed(st: State, session: string, run: string, now: int)
    requires Keyed(st) && Bounded(st) && |st.claimed| <= MAX_CACHE_ENTRIES && Takes(st, session, run)
    requires IsFresh(QueueOf(st.pending, session)[0], now) && ClaimsFresh(st.log.claims)
    ensures var next := ClaimCapture(st, session, run, now).0;
      Keyed(next) && Bounded(next) && ClaimsFresh(next.log.claims)
  {
    var c := QueueOf(st.pending, session)[0];
    TakeQueues(st.pending, session);
    PutNamed(st.claimed, run, c);
    PutUnique(st.claimed, run, c);
  }

  lemma TakeInv(st: State, session: string, run: string, now: int)
    requires Inv(st) && |st.claimed| <= MAX_CACHE_ENTRIES && Takes(st, session, run)
    requires IsFresh(QueueOf(st.pending, session)[0], now)
    ensures Inv(ClaimCapture(st, session, run, now).0)
  {
    TakeKeyed(st, session, run, now);
    TakeBacked(st, session, run, now);
    TakeConserved(st, session, run, now);
    assert InOrder(st, session);
    forall k ensures InOrder(ClaimCapture(st, session, run, now).0, k) { TakeInOrder(st, session, run, now, k); }
  }

  lemma TakeInOrder(st: State, session: string, run: string, now: int, k: string)
    requires Keyed(st) && Takes(st, session, run) && InOrder(st, session) && InOrder(st, k)
    ensures InOrder(ClaimCapture(st, session, run, now).0, k)
  {
    TakeLine(st, session, run, now, k);
  }

  /** claimCapture right after a prune at the same time. */
  lemma ClaimInv(st: State, session: string, run: string, now: int)
    requires Inv(st) && |st.claimed| <= MAX_CACHE_ENTRIES
    requires forall c :: c in QueueOf(st.pending, session) ==> IsFresh(c, now)
    ensures Inv(ClaimCapture(st, session, run, now).0)
  {
    if Takes(st, session, run) { TakeInv(st, session, run, now); }
  }

  // ---------------------------------------------------------------- arrivals

  predicate Full(q: Queue) { |q| == MAX_PENDING_PER_SESSION }

  /** A session's queue after an arrival. */
  function Pushed(q: Queue, c: Capture): Queue { if Full(q) then (q + [c])[1..] else q + [c] }

  lemma EnqueueQueues(st: State, c: Capture)
    requires Keyed(st) && c.session != ""
    ensures Enqueue(st, c).pending == Put(st.pending, c.session, Pushed(QueueOf(st.pending, c.session), c))
    ensures Keyed(Enqueue(st, c))
    ensures forall k :: k != c.session ==> QueueOf(Enqueue(st, c).pending, k) == QueueOf(st.pending, k)
    ensures QueueOf(Enqueue(st, c).pending, c.session) == Pushed(QueueOf(st.pending, c.session), c)
    ensures var q := QueueOf(st.pending, c.session);
      Enqueue(st, c).log.overflowed == st.log.overflowed + if Full(q) then multiset{q[0]} else multiset{}
  {
    var q := QueueOf(st.pending, c.session) + [c];
    assert q[0..] == q && q[..0] == [];
    assert q[..1] == [q[0]];
    var next := Pushed(QueueOf(st.pending, c.session), c);
    PutNamed(st.pending, c.session, next);
    forall k
      ensures Get(Put(st.pending, c.session, next), k) == if k == c.session then Some(next) else Get(st.pending, k)
    {
      PutMeans(st.pending, c.session, next, k);
    }
  }

  lemma PushedBag(q: Queue, c: Capture)
    ensures multiset(Pushed(q, c)) + (if Full(q) then multiset{q[0]} else multiset{}) == multiset{c} + multiset(q)
  {
    var all := q + [c];
    assert multiset(all) == multiset(q) + multiset{c};
    assert all == [all[0]] + all[1..];
    assert multiset([all[0]] + all[1..]) == multiset{all[0]} + multiset(all[1..]);
    if Full(q) {
      assert all[0] == q[0];
      assert multiset(all[1..]) + multiset{q[0]} == multiset(all);
    } else {
      assert multiset(all) + multiset{} == multiset(all);
    }
    assert multiset(q) + multiset{c} == multiset{c} + multiset(q);
  }

  lemma EnqueueConserved(st: State, c: Capture)
    requires Keyed(st) && Conserved(st) && c.session != ""
    ensures Conserved(Enqueue(st, c))
  {
    var q := QueueOf(st.pending, c.session);
    EnqueueQueues(st, c);
    PushedBag(q, c);
    HeldPut(st.pending, c.session, Pushed(q, c));
    var over := if Full(q) then multiset{q[0]} else multiset{};
    var after := Held(Enqueue(st, c).pending);
    assert (after + over) + multiset(q) == (after + multiset(q)) + over;
    assert (Held(st.pending) + multiset(Pushed(q, c))) + over == Held(st.pending) + (multiset(Pushed(q, c)) + over);
    assert Held(st.pending) + (multiset{c} + multiset(q)) == (Held(st.pending) + multiset{c}) + multiset(q);
    assert (Held(st.pending) + multiset(Pushed(q, c))) + over == (Held(st.pending) + multiset{c}) + multiset(q);
    Cancel(after + over, Held(st.pending) + multiset{c}, multiset(q));
    assert multiset(st.log.received + [c]) == multiset(st.log.received) + multiset{c};
    BagSum(after, Claimed(st.log.claims), st.log.expired, st.log.overflowed, st.log.evicted,
      Held(st.pending), over, multiset{c});
  }

  lemma BagSum(after: multiset<Capture>, a: multiset<Capture>, b: multiset<Capture>, d: multiset<Capture>,
      e: multiset<Capture>, before: multiset<Capture>, over: multiset<Capture>, c: multiset<Capture>)
    requires after + over == before + c
    ensures after + a + b + (d + over) + e == before + a + b + d + e + c
  {
    assert after + a + b + (d + over) + e == (after + over) + a + b + d + e;
    assert (before + c) + a + b + d + e == before + a + b + d + e + c;
  }

  lemma ReceivedSnoc(received: seq<Capture>, c: Capture, k: string)
    ensures ReceivedOf(received + [c], k) == ReceivedOf(received, k) + if c.session == k then [c] else []
  {
    assert (received + [c])[..|received|] == received;
  }

  lemma EnqueueOther(st: State, c: Capture, k: string)
    requires Keyed(st) && InOrder(st, k) && c.session != "" && k != c.session
    ensures InOrder(Enqueue(st, c), k)
  {
    EnqueueQueues(st, c);
    ReceivedSnoc(st.log.received, c, k);
    RisingWider(Line(st, k), k, 0, |st.log.received|);
    LogGrows(st, c);
    assert ReceivedOf(st.log.received, k) + [] == ReceivedOf(st.log.received, k);
  }

  lemma EnqueueOwn(st: State, c: Capture)
    requires Keyed(st) && InOrder(st, c.session) && c.id == |st.log.received| && c.session != ""
    ensures InOrder(Enqueue(st, c), c.session)
  {
    var k := c.session;
    var next, done, q := Enqueue(st, c), ClaimsOf(st.log.claims, k), QueueOf(st.pending, k);
    EnqueueQueues(st, c);
    ReceivedSnoc(st.log.received, c, k);
    RisingSnoc(Line(st, k), k, 0, |st.log.received|, c);
    assert Line(st, k) + [c] == done + (q + [c]);
    LogGrows(st, c);
    if Full(q) {
      SubTail(q + [c], 1);
      SubConcat(done, (q + [c])[1..], q + [c]);
      SubRising(Line(next, k), done + (q + [c]), k, 0, |next.log.received|);
      OverflowDrops(st, c);
    }
  }

  lemma LogGrows(st: State, c: Capture)
    ensures forall k :: NoDrops(Enqueue(st, c).log, k) ==> NoDrops(st.log, k)
  {
    var before, after := st.log, Enqueue(st, c).log;
    forall x | x in before.expired + before.overflowed + before.evicted
      ensures x in after.expired + after.overflowed + after.evicted
    {
    }
  }

  lemma OverflowDrops(st: State, c: Capture)
    requires Keyed(st) && InOrder(st, c.session) && c.session != ""
    requires Full(QueueOf(st.pending, c.session))
    ensures !NoDrops(Enqueue(st, c).log, c.session)
  {
    EnqueueQueues(st, c);
    var x := QueueOf(st.pending, c.session)[0];
    InLine(st, c.session, x);
    assert x in Enqueue(st, c).log.overflowed;
  }

  // ---------------------------------------------------------------- every run

  lemma StartInv()
    ensures Inv(Start())
  {
  }

  lemma ReceivedInv(st: State, m: Message, clock: Clock)
    requires Inv(st)
    ensures Inv(MessageReceived(st, m, clock))
  {
    PruneInv(st, clock.start);
    var pruned := Prune(st, clock.start);
    var c := CaptureOf(pruned, m, clock.captured);
    if m.session != "" && (c.signable || c.blocked) {
      var next := Enqueue(pruned, c);
      EnqueueQueues(pruned, c);
      EnqueueConserved(pruned, c);
      forall k ensures InOrder(next, k) {
        assert InOrder(pruned, k) && InOrder(pruned, c.session);
        if k == c.session { EnqueueOwn(pruned, c); } else { EnqueueOther(pruned, c, k); }
      }
      PruneInv(next, clock.end);
    }
  }

  lemma SetBlockedInv(st: State, b: OMap<string>)
    requires Inv(st) && KeysNamed(b)
    ensures Keyed(st.(blockedRuns := b)) && Conserved(st.(blockedRuns := b)) && Backed(st.(blockedRuns := b))
    ensures forall k :: InOrder(st.(blockedRuns := b), k)
    ensures |b| <= MAX_CACHE_ENTRIES ==> Inv(st.(blockedRuns := b))
  {
    forall k ensures InOrder(st.(blockedRuns := b), k) {
      assert InOrder(st, k) && Line(st.(blockedRuns := b), k) == Line(st, k);
    }
  }

  lemma ResolveInv(st: State, run: string, nonDocument: bool, now: int)
    requires Inv(st)
    ensures Inv(BeforeModelResolve(st, run, nonDocument, now))
  {
    if nonDocument && run != "" {
      PutNamed(st.blockedRuns, run, UNSUPPORTED);
      SetBlockedInv(st, Put(st.blockedRuns, run, UNSUPPORTED));
      PruneInv(st.(blockedRuns := Put(st.blockedRuns, run, UNSUPPORTED)), now);
    }
  }

  lemma PromptInv(st: State, session: string, run: string, now: int)
    requires Inv(st)
    ensures Inv(ClaimCapture(Prune(st, now), session, run, now).0)
  {
    PruneInv(st, now);
    PruneKeyed(st, now);
    ClaimInv(Prune(st, now), session, run, now);
  }

  lemma ClearedInv(st: State, run: string)
    requires Inv(st)
    ensures Inv(Cleared(st, run))
  {
    if run != "" {
      RemoveNamed(st.blockedRuns, run);
      SetBlockedInv(st, Remove(st.blockedRuns, run));
    } else {
      assert Cleared(st, run) == st;
    }
  }

  lemma AgentInv(st: State, session: string, run: string, now: int)
    requires Inv(st)
    ensures Inv(BeforeAgentRun(st, session, run, now).0)
  {
    PruneInv(st, now);
    PruneKeyed(st, now);
    ClearedInv(Prune(st, now), run);
    ClaimInv(Cleared(Prune(st, now), run), session, run, now);
  }

  lemma StepInv(st: State, e: Event)
    requires Inv(st)
    ensures Inv(Step(st, e).0)
  {
    match e
    case Received(m, clock) => ReceivedInv(st, m, clock);
    case ModelResolve(run, nonDocument, now) => ResolveInv(st, run, nonDocument, now);
    case PromptBuild(session, run, sender, channel, now) => PromptInv(st, session, run, now);
    case AgentRun(session, run, now) => AgentInv(st, session, run, now);
  }

  /** Every interleaving keeps the invariant: bounds, conservation, session order, no stale claim. */
  lemma {:induction false} RunInv(events: seq<Event>)
    ensures Inv(Run(events))
    decreases |events|
  {
    if events == [] { StartInv(); }
    else {
      RunInv(events[..|events|-1]);
      StepInv(Run(events[..|events|-1]), events[|events|-1]);
    }
  }

  // ---------------------------------------------------------------- main results

  lemma {:induction false} ClaimPlaces(claims: seq<Claim>, i: nat, j: nat, session: string) returns (p: nat, q: nat)
    requires i <= j < |claims| && claims[i].capture.session == session == claims[j].capture.session
    ensures p <= q < |ClaimsOf(claims, session)| && (i < j ==> p < q)
    ensures ClaimsOf(claims, session)[p] == claims[i].capture && ClaimsOf(claims, session)[q] == claims[j].capture
    decreases |claims|
  {
    var rest := claims[..|claims|-1];
    if j < |rest| {
      p, q := ClaimPlaces(rest, i, j, session);
    } else {
      q := |ClaimsOf(rest, session)|;
      if i < j {
        var p', _ := ClaimPlaces(rest, i, i, session);
        p := p';
      } else {
        p := q;
      }
    }
  }

  /** In every interleaving the claims of a session happen in arrival order, so no capture is ever
      bound twice, to one run or to two. */
  lemma ClaimsInArrivalOrder(events: seq<Event>, i: nat, j: nat)
    requires i < j < |Run(events).log.claims|
    ensures var claims := Run(events).log.claims;
      && claims[i].capture != claims[j].capture
      && (claims[i].capture.session == claims[j].capture.session ==> claims[i].capture.id < claims[j].capture.id)
  {
    var st := Run(events);
    RunInv(events);
    var s := st.log.claims[i].capture.session;
    if st.log.claims[j].capture.session == s {
      var p, q := ClaimPlaces(st.log.claims, i, j, s);
      assert InOrder(st, s);
      assert Line(st, s)[p] == ClaimsOf(st.log.claims, s)[p] && Line(st, s)[q] == ClaimsOf(st.log.claims, s)[q];
      RisingMeans(Line(st, s), s, 0, |st.log.received|, p, q);
    }
  }

  /** A pending capture of a session is in that session's own queue, and none of the queue is older
      than its head. */
  lemma HeadOldest(st: State, session: string, k: string, x: Capture)
    requires InOrder(st, k) && InOrder(st, session) && x in QueueOf(st.pending, k) && x.session == session
    ensures QueueOf(st.pending, session) != []
    ensures var head := QueueOf(st.pending, session)[0]; head.session == session && (x == head || head.id < x.id)
  {
    InLine(st, k, x);
    var q, n := QueueOf(st.pending, session), |ClaimsOf(st.log.claims, session)|;
    var j :| 0 <= j < |q| && q[j] == x;
    InLine(st, session, q[0]);
    assert Line(st, session)[n] == q[0] && Line(st, session)[n + j] == q[j];
    RisingMeans(Line(st, session), session, 0, |st.log.received|, n, n + j);
  }

  /** A first claim takes the oldest pending capture of the run's own session. */
  lemma ClaimTakesOldest(st: State, session: string, run: string, now: int, k: string, x: Capture)
    requires Inv(st) && Takes(st, session, run)
    requires x in QueueOf(st.pending, k) && x.session == session
    ensures var (next, c) := ClaimCapture(st, session, run, now);
      c.Some? && c.value.session == session && Get(next.claimed, run) == c && (x == c.value || c.value.id < x.id)
  {
    assert InOrder(st, k) && InOrder(st, session);
    HeadOldest(st, session, k, x);
    PutMeans(st.claimed, run, QueueOf(st.pending, session)[0], run);
  }

  /** While nothing of a session is dropped, its n-th claim is its n-th message. */
  lemma NthClaimIsNthMessage(events: seq<Event>, session: string, n: nat)
    requires NoDrops(Run(events).log, session) && n < |ClaimsOf(Run(events).log.claims, session)|
    ensures n < |ReceivedOf(Run(events).log.received, session)|
    ensures ClaimsOf(Run(events).log.claims, session)[n] == ReceivedOf(Run(events).log.received, session)[n]
  {
    RunInv(events);
    assert InOrder(Run(events), session);
    assert Line(Run(events), session)[n] == ClaimsOf(Run(events).log.claims, session)[n];
  }

  lemma ClaimCaptureKeeps(st: State, session: string, r: string, now: int, run: string, c: Capture)
    requires Get(st.claimed, run) == Some(c)
    ensures Get(ClaimCapture(st, session, r, now).0.claimed, run) == Some(c)
    ensures r == run != "" ==> ClaimCapture(st, session, r, now).1 == Some(c)
  {
    if Takes(st, session, r) { PutMeans(st.claimed, r, QueueOf(st.pending, session)[0], run); }
  }

  lemma ClaimCaptureBinds(st: State, session: string, run: string, now: int)
    ensures var (next, c) := ClaimCapture(st, session, run, now); c.Some? ==> Get(next.claimed, run) == c
  {
    if Takes(st, session, run) { PutMeans(st.claimed, run, QueueOf(st.pending, session)[0], run); }
  }

  /** A run keeps its binding through every hook call, its own and others', as long as the size cap
      does not remove it at the start of the call; a run bound to a blocked capture is refused. */
  lemma ClaimKept(st: State, e: Event, run: string, c: Capture)
    requires Keyed(st) && run != "" && Get(Trim(st.claimed), run) == Some(c)
    ensures Get(Step(st, e).0.claimed, run) == Some(c)
    ensures e.PromptBuild? && e.run == run && Step(st, e).1.Token? ==> Step(st, e).1.capture == c
    ensures e.AgentRun? && e.run == run && c.blocked ==> Step(st, e).1.Block?
  {
    TrimNamed(st.claimed);
    match e
    case Received(_, _) => assert Trim(Trim(st.claimed)) == Trim(st.claimed);
    case ModelResolve(_, _, now) =>
    case PromptBuild(session, r, _, _, now) => ClaimCaptureKeeps(Prune(st, now), session, r, now, run, c);
    case AgentRun(session, r, now) =>
      ClaimCaptureKeeps(Cleared(Prune(st, now), r), session, r, now, run, c);
  }

  function RunFrom(st: State, events: seq<Event>): State
    decreases |events|
  {
    if events == [] then st else RunFrom(Step(st, events[0]).0, events[1..])
  }

  /** No call of the sequence evicts the run's claim. */
  predicate NeverEvicted(st: State, events: seq<Event>, run: string)
    decreases |events|
  {
    events == [] || (Get(Trim(st.claimed), run).Some? && NeverEvicted(Step(st, events[0]).0, events[1..], run))
  }

  lemma {:induction false} ClaimSticks(st: State, events: seq<Event>, run: string, c: Capture)
    requires Inv(st) && run != "" && Get(st.claimed, run) == Some(c) && NeverEvicted(st, events, run)
    ensures Get(RunFrom(st, events).claimed, run) == Some(c)
    decreases |events|
  {
    if events != [] {
      TrimNamed(st.claimed);
      StepInv(st, events[0]);
      ClaimKept(st, events[0], run, c);
      ClaimSticks(Step(st, events[0]).0, events[1..], run, c);
    }
  }

  lemma TokenShape(st: State, e: Event)
    requires Step(st, e).1.Token?
    ensures var (next, out) := Step(st, e);
      && e.PromptBuild? && out.run == e.run && out.capture.signable
      && out.capture.sender == e.sender && out.capture.channel == e.channel
      && Get(next.claimed, e.run) == Some(out.capture)
  {
    if e.PromptBuild? { ClaimCaptureBinds(Prune(st, e.now), e.session, e.run, e.now); }
  }

  /** A token is minted only for a signable capture bound to the run, with the sender and channel of
      the captured message; that capture was within the window when it was first claimed. */
  lemma TokenMatches(events: seq<Event>, e: Event)
    requires Step(Run(events), e).1.Token?
    ensures var (next, out) := Step(Run(events), e);
      && e.PromptBuild? && out.run == e.run && out.capture.signable
      && out.capture.sender == e.sender && out.capture.channel == e.channel
      && Get(next.claimed, e.run) == Some(out.capture)
      && ClaimedFresh(next.log.claims, e.run, out.capture)
  {
    RunInv(events);
    StepInv(Run(events), e);
    TokenShape(Run(events), e);
    StandsFresh(Step(Run(events), e).0, e.run);
  }

  /** The run claimed the capture when that was within the window. */
  predicate ClaimedFresh(claims: seq<Claim>, run: string, c: Capture) {
    exists i ::
      0 <= i < |claims| && claims[i].run == run && claims[i].capture == c && claims[i].at - c.capturedAt <= 1200000
  }

  lemma StandsFresh(st: State, run: string)
    requires Inv(st) && Get(st.claimed, run).Some?
    ensures ClaimedFresh(st.log.claims, run, Get(st.claimed, run).value)
  {
    assert Stands(st.log.claims, run, Get(st.claimed, run).value);
  }
}
