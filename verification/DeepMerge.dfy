// render_channel_config.py's deep_merge of a reviewed base configuration and a channel overlay.
module DeepMerge {
  import opened Options

  /** A JSON value as far as merging is concerned; Leaf stands for everything but an object. */
  datatype Config = Leaf(text: string) | Table(entries: map<string, Config>)

  type Entries = map<string, Config>

  function Merge(base: Entries, overlay: Entries): Entries
    decreases Table(overlay), 1
  {
    map k | k in base.Keys + overlay.Keys :: MergeAt(base, overlay, k)
  }

  /** The merged value of one key. */
  function MergeAt(base: Entries, overlay: Entries, k: string): Config
    requires k in base.Keys + overlay.Keys
    decreases Table(overlay), 0
  {
    if k !in overlay then base[k]
    else
      var v := overlay[k];
      if v.Table? && k in base && base[k].Table? then Table(Merge(base[k].entries, v.entries)) else v
  }

  /** The loop of the source; the keys of the overlay may come in any order. */
  method DeepMergeLoop(base: Entries, overlay: Entries) returns (merged: Entries)
    ensures merged == Merge(base, overlay)
    decreases Table(overlay), 1
  {
    merged := base;
    var left := overlay.Keys;
    while left != {}
      invariant left <= overlay.Keys
      invariant merged.Keys == base.Keys + (overlay.Keys - left)
      invariant forall k :: k in merged ==> merged[k] == if k in left then base[k] else MergeAt(base, overlay, k)
      decreases left
    {
      var key: string :| key in left;
      var value := overlay[key];
      if value.Table? && key in merged && merged[key].Table? {
        var inner := DeepMergeLoop(merged[key].entries, value.entries);
        merged := merged[key := Table(inner)];
      } else {
        merged := merged[key := value];
      }
      left := left - {key};
    }
  }

  // ---------------------------------------------------------------- paths

  /** What stands at a path, the table itself at the empty one. */
  function Lookup(t: Entries, path: seq<string>): Option<Config>
    decreases |path|
  {
    if path == [] then Some(Table(t))
    else if path[0] !in t then None
    else if |path| == 1 then Some(t[path[0]])
    else if t[path[0]].Table? then Lookup(t[path[0]].entries, path[1..])
    else None
  }

  /** Some proper prefix of the path ends in a value that is no table. */
  predicate Cut(t: Entries, path: seq<string>)
    decreases |path|
  {
    |path| > 1 && path[0] in t && (!t[path[0]].Table? || Cut(t[path[0]].entries, path[1..]))
  }

  /** The overlay decides at every path it reaches or cuts; two tables are merged; elsewhere the base
      stays. */
  lemma {:induction false} RightBiased(base: Entries, overlay: Entries, path: seq<string>)
    ensures Lookup(Merge(base, overlay), path) ==
            match Lookup(overlay, path)
            case Some(v) =>
              (match Lookup(base, path)
               case Some(b) => if v.Table? && b.Table? then Some(Table(Merge(b.entries, v.entries))) else Some(v)
               case None => Some(v))
            case None => if Cut(overlay, path) then None else Lookup(base, path)
    decreases |path|
  {
    if path != [] {
      var k := path[0];
      if k in base.Keys + overlay.Keys {
        assert Merge(base, overlay)[k] == MergeAt(base, overlay, k);
        if |path| > 1 && k in base && k in overlay && base[k].Table? && overlay[k].Table? {
          RightBiased(base[k].entries, overlay[k].entries, path[1..]);
        }
      }
    }
  }

  // ---------------------------------------------------------------- laws

  /** Merging the same overlay again changes nothing. */
  lemma {:induction false} MergeIdempotent(base: Entries, overlay: Entries)
    ensures Merge(Merge(base, overlay), overlay) == Merge(base, overlay)
    decreases Table(overlay), 1
  {
    var once := Merge(base, overlay);
    assert once.Keys == base.Keys + overlay.Keys;
    forall k | k in once ensures MergeAt(once, overlay, k) == once[k] {
      assert once[k] == MergeAt(base, overlay, k);
      if k in overlay && overlay[k].Table? {
        if k in base && base[k].Table? {
          MergeIdempotent(base[k].entries, overlay[k].entries);
        } else {
          MergeSelf(overlay[k].entries);
        }
      }
    }
    assert Merge(once, overlay).Keys == once.Keys;
  }

  lemma {:induction false} MergeSelf(t: Entries)
    ensures Merge(t, t) == t
    decreases Table(t)
  {
    forall k | k in t ensures MergeAt(t, t, k) == t[k] {
      if t[k].Table? { MergeSelf(t[k].entries); }
    }
    assert Merge(t, t).Keys == t.Keys;
  }

  /** Every key of a, at every depth where both are tables, is a key of c: merging c over a gives c. */
  predicate Absorbs(a: Entries, c: Entries)
    decreases Table(c), 1
  {
    && a.Keys <= c.Keys
    && forall k :: k in a && k in c && a[k].Table? && c[k].Table? ==> Absorbs(a[k].entries, c[k].entries)
  }

  lemma {:induction false} AbsorbsMeans(a: Entries, c: Entries)
    ensures Merge(a, c) == c <==> Absorbs(a, c)
    decreases Table(c), 1
  {
    var m := Merge(a, c);
    assert m.Keys == a.Keys + c.Keys;
    forall k | k in c ensures m[k] == MergeAt(a, c, k) {}
    forall k | k in a && k in c && a[k].Table? && c[k].Table?
      ensures Absorbs(a[k].entries, c[k].entries) <==> m[k] == c[k]
    {
      AbsorbsMeans(a[k].entries, c[k].entries);
    }
    if Absorbs(a, c) { assert m.Keys == c.Keys; }
    if m == c { assert a.Keys <= m.Keys; }
  }

  /** No path has tables in a and c with another value between them in b, unless c absorbs a there. */
  predicate NoLostTable(a: Entries, b: Entries, c: Entries)
    decreases Table(c), 1
  {
    forall k :: k in a.Keys * b.Keys * c.Keys ==> KeptAt(a, b, c, k)
  }

  predicate KeptAt(a: Entries, b: Entries, c: Entries, k: string)
    requires k in a && k in b && k in c
    decreases Table(c), 0
  {
    a[k].Table? && c[k].Table? ==>
      if b[k].Table? then NoLostTable(a[k].entries, b[k].entries, c[k].entries)
      else Absorbs(a[k].entries, c[k].entries)
  }

  /** Two overlays in sequence act as their merge iff no table of the base is lost in between. */
  lemma {:induction false} MergeAssociative(a: Entries, b: Entries, c: Entries)
    ensures Merge(Merge(a, b), c) == Merge(a, Merge(b, c)) <==> NoLostTable(a, b, c)
    decreases Table(c), 1
  {
    var l, r := Merge(Merge(a, b), c), Merge(a, Merge(b, c));
    assert l.Keys == a.Keys + b.Keys + c.Keys && r.Keys == l.Keys;
    if NoLostTable(a, b, c) {
      forall k | k in l ensures l[k] == r[k] { KeyAssociative(a, b, c, k); }
    }
    if l == r {
      forall k | k in a.Keys * b.Keys * c.Keys ensures KeptAt(a, b, c, k) { KeyAssociative(a, b, c, k); }
    }
  }

  lemma {:induction false} KeyAssociative(a: Entries, b: Entries, c: Entries, k: string)
    requires k in a.Keys + b.Keys + c.Keys
    ensures Merge(Merge(a, b), c)[k] == Merge(a, Merge(b, c))[k] <==>
            (k in a.Keys * b.Keys * c.Keys ==> KeptAt(a, b, c, k))
    decreases Table(c), 0
  {
    var ab, bc := Merge(a, b), Merge(b, c);
    assert Merge(ab, c)[k] == MergeAt(ab, c, k) && Merge(a, bc)[k] == MergeAt(a, bc, k);
    if k in a.Keys + b.Keys { assert ab[k] == MergeAt(a, b, k); }
    if k in b.Keys + c.Keys { assert bc[k] == MergeAt(b, c, k); }
    if k in a && k in b && k in c && a[k].Table? && c[k].Table? {
      if b[k].Table? { MergeAssociative(a[k].entries, b[k].entries, c[k].entries); }
      else { AbsorbsMeans(a[k].entries, c[k].entries); }
    }
  }

  // ---------------------------------------------------------------- the condition by paths

  /** At this path the base and the second overlay have tables and the first has another value. */
  predicate LostAt(a: Entries, b: Entries, c: Entries, path: seq<string>) {
    && Lookup(a, path).Some? && Lookup(a, path).value.Table?
    && Lookup(c, path).Some? && Lookup(c, path).value.Table?
    && Lookup(b, path).Some? && !Lookup(b, path).value.Table?
  }

  /** Without such a path merging is associative. */
  lemma {:induction false} NoLostPath(a: Entries, b: Entries, c: Entries)
    requires forall path :: !LostAt(a, b, c, path)
    ensures NoLostTable(a, b, c)
    decreases Table(c), 1
  {
    forall k | k in a && k in b && k in c && a[k].Table? && c[k].Table?
      ensures b[k].Table? && NoLostTable(a[k].entries, b[k].entries, c[k].entries)
    {
      assert !LostAt(a, b, c, [k]);
      forall path ensures !LostAt(a[k].entries, b[k].entries, c[k].entries, path) {
        var longer := [k] + path;
        assert !LostAt(a, b, c, longer);
        assert longer[1..] == path;
      }
      NoLostPath(a[k].entries, b[k].entries, c[k].entries);
    }
  }
}
