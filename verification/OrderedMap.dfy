// A JavaScript Map: entries in insertion order, one per key.
module OrderedMap {
  import opened Options

  datatype Entry<V> = Entry(key: string, value: V)
  type OMap<V> = seq<Entry<V>>

  predicate UniqueKeys<V>(m: OMap<V>) { forall i, j :: 0 <= i < j < |m| ==> m[i].key != m[j].key }

  predicate Has<V>(m: OMap<V>, k: string) { exists i :: 0 <= i < |m| && m[i].key == k }

  function Get<V>(m: OMap<V>, k: string): (r: Option<V>)
    ensures r.Some? <==> Has(m, k)
    ensures r.Some? ==> exists i :: 0 <= i < |m| && m[i] == Entry(k, r.value)
  {
    if m == [] then None
    else if m[0].key == k then Some(m[0].value)
    else
      var r := Get(m[1..], k);
      assert Has(m[1..], k) <==> Has(m, k) by {
        if Has(m, k) {
          var i :| 0 <= i < |m| && m[i].key == k;
          assert m[1..][i-1].key == k;
        }
      }
      r
  }

  /** Map.set: a known key keeps its place. */
  function Put<V>(m: OMap<V>, k: string, v: V): OMap<V> {
    if m == [] then [Entry(k, v)]
    else if m[0].key == k then [Entry(k, v)] + m[1..]
    else [m[0]] + Put(m[1..], k, v)
  }

  /** Map.delete. */
  function Remove<V>(m: OMap<V>, k: string): OMap<V> {
    if m == [] then []
    else if m[0].key == k then m[1..]
    else [m[0]] + Remove(m[1..], k)
  }

  lemma HasTail<V>(m: OMap<V>, k: string)
    requires m != []
    ensures Has(m, k) <==> m[0].key == k || Has(m[1..], k)
  {
    if Has(m, k) && m[0].key != k {
      var i :| 0 <= i < |m| && m[i].key == k;
      assert m[1..][i-1].key == k;
    }
    if Has(m[1..], k) {
      var i :| 0 <= i < |m[1..]| && m[1..][i].key == k;
      assert m[i+1].key == k;
    }
  }

  lemma UniqueTail<V>(m: OMap<V>)
    requires m != []
    ensures UniqueKeys(m) <==> UniqueKeys(m[1..]) && !Has(m[1..], m[0].key)
  {
    if UniqueKeys(m) {
      forall i | 0 <= i < |m[1..]| ensures m[1..][i].key != m[0].key {}
    }
    if UniqueKeys(m[1..]) && !Has(m[1..], m[0].key) {
      forall i, j | 0 <= i < j < |m| ensures m[i].key != m[j].key {
        assert m[j] == m[1..][j-1];
        if i > 0 { assert m[i] == m[1..][i-1]; }
      }
    }
  }

  lemma {:induction false} PutMeans<V>(m: OMap<V>, k: string, v: V, x: string)
    ensures Get(Put(m, k, v), x) == if x == k then Some(v) else Get(m, x)
    decreases |m|
  {
    if m != [] && m[0].key != k {
      PutMeans(m[1..], k, v, x);
      assert Put(m, k, v)[1..] == Put(m[1..], k, v);
    }
  }

  lemma {:induction false} PutUnique<V>(m: OMap<V>, k: string, v: V)
    requires UniqueKeys(m)
    ensures UniqueKeys(Put(m, k, v))
    ensures |Put(m, k, v)| == if Has(m, k) then |m| else |m| + 1
    decreases |m|
  {
    if m != [] {
      HasTail(m, k);
      UniqueTail(m);
      var p := Put(m, k, v);
      if m[0].key == k {
        assert p[1..] == m[1..];
      } else {
        PutUnique(m[1..], k, v);
        assert p[1..] == Put(m[1..], k, v);
        PutMeans(m[1..], k, v, m[0].key);
      }
      UniqueTail(p);
    }
  }

  lemma {:induction false} RemoveMeans<V>(m: OMap<V>, k: string, x: string)
    requires UniqueKeys(m)
    ensures UniqueKeys(Remove(m, k))
    ensures Get(Remove(m, k), x) == if x == k then None else Get(m, x)
    ensures |Remove(m, k)| == if Has(m, k) then |m| - 1 else |m|
    decreases |m|
  {
    if m != [] {
      HasTail(m, k);
      UniqueTail(m);
      if m[0].key == k {
        assert !Has(m[1..], k);
      } else {
        RemoveMeans(m[1..], k, x);
        RemoveMeans(m[1..], k, m[0].key);
        var r := Remove(m, k);
        assert r[1..] == Remove(m[1..], k);
        UniqueTail(r);
      }
    }
  }

  lemma {:induction false} GetAt<V>(m: OMap<V>, i: nat)
    requires i < |m| && UniqueKeys(m)
    ensures Get(m, m[i].key) == Some(m[i].value)
    decreases |m|
  {
    if i > 0 {
      UniqueTail(m);
      GetAt(m[1..], i - 1);
    }
  }

  /** Dropping the oldest entries either keeps a key with its value or loses it. */
  lemma {:induction false} DropMeans<V>(m: OMap<V>, n: nat, x: string)
    requires n <= |m| && UniqueKeys(m)
    ensures Get(m[n..], x) == Get(m, x) || Get(m[n..], x) == None
    decreases |m|
  {
    if n > 0 {
      UniqueTail(m);
      DropMeans(m[1..], n - 1, x);
      assert m[1..][n-1..] == m[n..];
      if m[0].key == x { assert !Has(m[1..], x); }
    }
  }
}
