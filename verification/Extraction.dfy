// validate_recovery_archive.py: extraction of a validated member list into a new directory.
module Extraction {
  import opened PyText
  import opened Paths
  import opened ArchiveNames
  import opened Archive

  type Path = seq<PyStr>

  datatype Node = Folder | Blob(content: seq<bv8>)

  /** A directory tree by path below the destination, which is the empty path. */
  type Tree = map<Path, Node>

  function PathOf(m: Member): Path { Split(m.Name(), SLASH) }

  function Prefixes(path: Path): set<Path> { set i | 0 <= i <= |path| :: path[..i] }

  lemma PrefixesMean(path: Path, q: Path)
    ensures q in Prefixes(path) <==> q <= path
  {
    if q <= path { assert q == path[..|q|]; }
  }

  function WithFolders(tree: Tree, path: Path): Tree {
    tree + (map q | q in Prefixes(path) && q !in tree :: Folder)
  }

  predicate Blocked(tree: Tree, path: Path) { exists q :: q in Prefixes(path) && q in tree && tree[q].Blob? }

  const CHUNK_SIZE := 1024 * 1024

  /** What a validated list is: entries other than roots, directories or regular files, with distinct
      names and no path through a file. */
  ghost predicate Extractable(ms: seq<Member>) {
    && (forall m :: m in ms ==> !m.IsRoot() && m.kind != Special && (m.IsFile() ==> m.size >= 0))
    && (forall i, j :: 0 <= i < j < |ms| ==> !Clash(ms[i], ms[j]))
    && (forall a, b :: a in ms && b in ms ==> !Beneath(a, b))
  }

  /** The destination itself, an entry or an ancestor of one. */
  ghost predicate Needed(ms: seq<Member>, p: Path) { p == [] || exists m :: m in ms && p <= PathOf(m) }

  ghost predicate FileAt(ms: seq<Member>, p: Path, m: Member) { m in ms && m.IsFile() && PathOf(m) == p }

  ghost predicate NodeAt(ms: seq<Member>, p: Path, node: Node) {
    && (forall m :: FileAt(ms, p, m) ==> node == Blob(m.content))
    && ((forall m :: !FileAt(ms, p, m)) ==> node == Folder)
  }

  ghost predicate HoldsAt(tree: Tree, ms: seq<Member>, p: Path) {
    (p in tree <==> Needed(ms, p)) && (p in tree ==> NodeAt(ms, p, tree[p]))
  }

  /** The tree holds exactly the listed files with their contents, the listed directories, and every
      ancestor. */
  ghost predicate Holds(tree: Tree, ms: seq<Member>) { forall p :: HoldsAt(tree, ms, p) }

  /** The data stream has the declared length. */
  predicate Full(m: Member) { m.IsFile() ==> |m.content| == m.size }

  predicate Complete(ms: seq<Member>) { forall m :: m in ms ==> Full(m) }

  function Charge(m: Member): int { if m.IsFile() then m.size else 0 }

  class Disk {
    var tree: Tree
    var written: nat

    constructor ()
      ensures tree == map[] && written == 0
    {
      tree, written := map[], 0;
    }

    /** mkdir(parents=True, exist_ok=True). */
    method MkdirAll(path: Path) returns (ok: bool)
      modifies this`tree
      ensures ok <==> !Blocked(old(tree), path)
      ensures tree == if ok then WithFolders(old(tree), path) else old(tree)
    {
      ok := !Blocked(tree, path);
      if ok { tree := WithFolders(tree, path); }
    }

    /** Copies a data stream block by block into a file opened with "x". */
    method StoreFile(path: Path, content: seq<bv8>, size: nat) returns (ok: bool)
      modifies this
      ensures ok <==> path !in old(tree) && |content| == size
      ensures path in old(tree) ==> tree == old(tree) && written == old(written)
      ensures ok ==> tree == old(tree)[path := Blob(content)] && written == old(written) + size
      ensures written <= old(written) + size
    {
      if path in tree { return false; }
      tree := tree[path := Blob([])];
      var stored: seq<bv8> := [];
      var count := 0;
      while count < |content|
        invariant count == |stored| <= |content| && stored == content[..count]
        invariant count <= size && written == old(written) + count
        invariant tree == old(tree)[path := Blob(stored)]
      {
        var end := if count + CHUNK_SIZE < |content| then count + CHUNK_SIZE else |content|;
        var block := content[count..end];
        if count + |block| > size { return false; }
        count := count + |block|;
        stored := stored + block;
        tree := tree[path := Blob(stored)];
        written := written + |block|;
      }
      assert content[..count] == content;
      ok := count == size;
    }

    /** One round of extract_members. */
    method ExtractOne(ms: seq<Member>, k: nat) returns (ok: bool)
      requires Extractable(ms) && k < |ms| && Holds(tree, ms[..k])
      modifies this
      ensures ok <==> Full(ms[k])
      ensures ok ==> Holds(tree, ms[..k+1]) && written == old(written) + Charge(ms[k])
      ensures written <= old(written) + Charge(ms[k])
    {
      var m := ms[k];
      var path := PathOf(m);
      assert ms[..k+1] == ms[..k] + [m];
      assert path[..|path|] == path;
      if m.kind == Directory {
        FreePath(tree, ms, k, |path|);
        DirectoryAdded(tree, ms, k);
        ok := MkdirAll(path);
      } else {
        FreePath(tree, ms, k, |path| - 1);
        FreeFile(tree, ms, k);
        FileAdded(tree, ms, k);
        ok := MkdirAll(path[..|path|-1]);
        if ok { ok := StoreFile(path, m.content, m.size); }
      }
    }

    /** extract_members over a validated list, destination included. */
    method ExtractMembers(ms: seq<Member>) returns (ok: bool)
      requires tree == map[] && written == 0 && Extractable(ms)
      modifies this
      ensures ok <==> Complete(ms)
      ensures ok ==> Holds(tree, ms) && written == Total(ms)
      ensures written <= Total(ms)
    {
      tree := map[[] := Folder];
      forall p ensures HoldsAt(tree, ms[..0], p) {}
      for k := 0 to |ms|
        invariant Holds(tree, ms[..k])
        invariant forall i :: 0 <= i < k ==> Full(ms[i])
        invariant written == Total(ms[..k])
      {
        assert ms[..k+1][..k] == ms[..k];
        TotalGrows(ms, k + 1);
        var stored := ExtractOne(ms, k);
        if !stored {
          assert ms[k] in ms;
          return false;
        }
      }
      assert ms[..|ms|] == ms;
      return true;
    }
  }

  lemma {:induction false} TotalGrows(ms: seq<Member>, k: nat)
    requires k <= |ms| && forall m :: m in ms && m.IsFile() ==> m.size >= 0
    ensures Total(ms[..k]) <= Total(ms)
    decreases |ms| - k
  {
    if k < |ms| {
      assert ms[..k+1][..k] == ms[..k];
      TotalGrows(ms, k + 1);
    } else {
      assert ms[..k] == ms;
    }
  }

  /** Different entries have different paths, and no path leads through a file. */
  lemma Apart(ms: seq<Member>, i: nat, j: nat)
    requires Extractable(ms) && i < |ms| && j < |ms| && i != j
    ensures PathOf(ms[i]) != PathOf(ms[j])
    ensures ms[i].IsFile() ==> !(PathOf(ms[i]) <= PathOf(ms[j]))
  {
    var a, b := ms[i].Name(), ms[j].Name();
    assert !Clash(ms[i], ms[j]) || !Clash(ms[j], ms[i]);
    if Split(a, SLASH) == Split(b, SLASH) { SplitInjective(a, b); }
    assert !Beneath(ms[i], ms[j]);
    ParentMeansPrefix(a, b);
  }

  /** No proper or improper prefix of the next path is a file already extracted. */
  lemma NoFileAbove(ms: seq<Member>, k: nat, q: Path)
    requires Extractable(ms) && k < |ms| && q <= PathOf(ms[k])
    ensures forall m :: !FileAt(ms[..k], q, m)
  {
    forall m | m in ms[..k] && m.IsFile() ensures PathOf(m) != q {
      var i :| 0 <= i < k && ms[i] == m;
      Apart(ms, i, k);
    }
  }

  /** Nothing extracted already needs the path of a next file. */
  lemma NotNeededYet(ms: seq<Member>, k: nat)
    requires Extractable(ms) && k < |ms| && ms[k].IsFile()
    ensures !Needed(ms[..k], PathOf(ms[k]))
  {
    forall m | m in ms[..k] ensures !(PathOf(ms[k]) <= PathOf(m)) {
      var i :| 0 <= i < k && ms[i] == m;
      Apart(ms, k, i);
    }
  }

  /** No ancestor of the next path is a file, and the path of a next file is free. */
  lemma FreePath(tree: Tree, ms: seq<Member>, k: nat, n: nat)
    requires Extractable(ms) && k < |ms| && Holds(tree, ms[..k]) && n <= |PathOf(ms[k])|
    ensures !Blocked(tree, PathOf(ms[k])[..n])
  {
    forall q | q in Prefixes(PathOf(ms[k])[..n]) ensures q in tree ==> tree[q] == Folder {
      PrefixesMean(PathOf(ms[k])[..n], q);
      NoFileAbove(ms, k, q);
      assert HoldsAt(tree, ms[..k], q);
    }
  }

  lemma FreeFile(tree: Tree, ms: seq<Member>, k: nat)
    requires Extractable(ms) && k < |ms| && Holds(tree, ms[..k]) && ms[k].IsFile()
    ensures PathOf(ms[k]) !in WithFolders(tree, PathOf(ms[k])[..|PathOf(ms[k])|-1])
  {
    var path := PathOf(ms[k]);
    NotNeededYet(ms, k);
    assert HoldsAt(tree, ms[..k], path);
    PrefixesMean(path[..|path|-1], path);
  }

  lemma NeededSnoc(ms: seq<Member>, m: Member, p: Path)
    ensures Needed(ms + [m], p) <==> Needed(ms, p) || p <= PathOf(m)
  {
    assert m in ms + [m];
    if Needed(ms, p) && p != [] {
      var x :| x in ms && p <= PathOf(x);
      assert x in ms + [m];
    }
  }

  lemma FileSnoc(ms: seq<Member>, m: Member, p: Path, x: Member)
    ensures FileAt(ms + [m], p, x) <==> FileAt(ms, p, x) || (x == m && m.IsFile() && PathOf(m) == p)
  {
  }

  lemma DirectoryAdded(tree: Tree, ms: seq<Member>, k: nat)
    requires Extractable(ms) && k < |ms| && Holds(tree, ms[..k]) && ms[k].kind == Directory
    ensures Holds(WithFolders(tree, PathOf(ms[k])), ms[..k] + [ms[k]])
  {
    var m, path := ms[k], PathOf(ms[k]);
    forall p ensures HoldsAt(WithFolders(tree, path), ms[..k] + [m], p) {
      assert HoldsAt(tree, ms[..k], p);
      NeededSnoc(ms[..k], m, p);
      forall x ensures FileAt(ms[..k] + [m], p, x) <==> FileAt(ms[..k], p, x) { FileSnoc(ms[..k], m, p, x); }
      PrefixesMean(path, p);
      if p <= path { NoFileAbove(ms, k, p); }
    }
  }

  lemma FileAdded(tree: Tree, ms: seq<Member>, k: nat)
    requires Extractable(ms) && k < |ms| && Holds(tree, ms[..k]) && ms[k].IsFile()
    ensures var path := PathOf(ms[k]);
      Holds(WithFolders(tree, path[..|path|-1])[path := Blob(ms[k].content)], ms[..k] + [ms[k]])
  {
    var m, path := ms[k], PathOf(ms[k]);
    var next := WithFolders(tree, path[..|path|-1])[path := Blob(m.content)];
    forall p ensures HoldsAt(next, ms[..k] + [m], p) {
      assert HoldsAt(tree, ms[..k], p);
      FileAddedAt(tree, ms, k, p);
    }
  }

  lemma FileAddedAt(tree: Tree, ms: seq<Member>, k: nat, p: Path)
    requires Extractable(ms) && k < |ms| && HoldsAt(tree, ms[..k], p) && ms[k].IsFile()
    ensures var path := PathOf(ms[k]);
      HoldsAt(WithFolders(tree, path[..|path|-1])[path := Blob(ms[k].content)], ms[..k] + [ms[k]], p)
  {
    var m, path := ms[k], PathOf(ms[k]);
    var parent := path[..|path|-1];
    var next := WithFolders(tree, parent)[path := Blob(m.content)];
    NeededSnoc(ms[..k], m, p);
    forall x ensures FileAt(ms[..k] + [m], p, x) <==> FileAt(ms[..k], p, x) || (x == m && path == p) {
      FileSnoc(ms[..k], m, p, x);
    }
    if p <= path { NoFileAbove(ms, k, p); }
    if p == path {
      assert FileAt(ms[..k] + [m], p, m) && next[p] == Blob(m.content);
    } else {
      FolderBelow(path, p);
      PrefixesMean(parent, p);
      assert p in next <==> p in tree || p <= path;
      assert p in next ==> next[p] == if p in tree then tree[p] else Folder;
    }
  }

  lemma FolderBelow(path: Path, p: Path)
    requires path != [] && p != path
    ensures p <= path[..|path|-1] <==> p <= path
  {
    if p <= path { assert p == path[..|path|-1][..|p|]; }
  }

  // ---------------------------------------------------------------- main results

  lemma AcceptedExtractable(ms: seq<Member>, lim: Limits)
    requires Consistent(ms, lim)
    ensures Extractable(Entries(ms))
    ensures Total(Entries(ms)) == Total(ms)
  {
    EntriesConsistent(ms, lim);
    EntriesTotal(ms, lim);
    forall m | m in Entries(ms) ensures MemberOk(m, lim) {}
  }

  lemma {:induction false} EntriesConsistent(ms: seq<Member>, lim: Limits)
    requires Consistent(ms, lim)
    ensures Consistent(Entries(ms), lim)
    decreases |ms|
  {
    if ms != [] {
      var a, m := ms[..|ms|-1], ms[|ms|-1];
      assert ms == a + [m];
      SnocConsistent(a, m, lim);
      EntriesConsistent(a, lim);
      EntriesStep(a, m, lim);
    }
  }

  lemma EntriesSnoc(a: seq<Member>, m: Member)
    ensures Entries(a + [m]) == Entries(a) + if m.IsRoot() then [] else [m]
  {
    assert (a + [m])[..|a|] == a;
  }

  lemma EntriesStep(a: seq<Member>, m: Member, lim: Limits)
    requires Consistent(Entries(a), lim) && Joins(a, m, lim)
    ensures Consistent(Entries(a + [m]), lim)
  {
    EntriesSnoc(a, m);
    if m.IsRoot() {
      assert Entries(a) + [] == Entries(a);
    } else {
      JoinsFewer(a, m, lim);
      ConsistentSnoc(Entries(a), m, lim);
    }
  }

  lemma {:induction false} EntriesTotal(ms: seq<Member>, lim: Limits)
    requires forall m :: m in ms ==> MemberOk(m, lim)
    ensures Total(Entries(ms)) == Total(ms)
    decreases |ms|
  {
    if ms != [] {
      EntriesTotal(ms[..|ms|-1], lim);
      assert ms[|ms|-1] in ms;
      TotalStep(ms[..|ms|-1], ms[|ms|-1], lim);
      assert ms == ms[..|ms|-1] + [ms[|ms|-1]];
    }
  }

  lemma TotalStep(a: seq<Member>, m: Member, lim: Limits)
    requires MemberOk(m, lim) && Total(Entries(a)) == Total(a)
    ensures Total(Entries(a + [m])) == Total(a + [m])
  {
    EntriesSnoc(a, m);
    TotalSnoc(a, m);
    if m.IsRoot() { assert Entries(a) + [] == Entries(a); } else { TotalSnoc(Entries(a), m); }
  }

  lemma JoinsFewer(a: seq<Member>, m: Member, lim: Limits)
    requires Joins(a, m, lim)
    ensures Joins(Entries(a), m, lim)
  {
  }

  lemma TotalSnoc(a: seq<Member>, m: Member)
    ensures Total(a + [m]) == Total(a) + Charge(m)
  {
    assert (a + [m])[..|a|] == a;
  }

  /** Every list the validator accepts extracts into an empty destination without a collision: only a
      data stream of the wrong length stops it, never more than the validated total is written, and on
      success the tree holds exactly the accepted files, their contents, the directories and all
      ancestors, with the validated total written. */
  method ValidateAndExtract(archive: seq<Member>, lim: Limits, disk: Disk) returns (r: Validation, ok: bool)
    requires lim.Positive() && disk.tree == map[] && disk.written == 0
    modifies disk
    ensures r.Accepted? <==> Consistent(archive, lim) && WithinBudgets(archive, lim)
    ensures r.Rejected? ==> !ok && disk.tree == map[] && disk.written == 0
    ensures r.Accepted? ==> (ok <==> Complete(Entries(archive)))
    ensures r.Accepted? ==> disk.written <= r.total <= lim.maxTotal
    ensures ok ==> Holds(disk.tree, Entries(archive)) && disk.written == Total(archive)
  {
    r := ValidateMembers(archive, lim);
    if r.Rejected? { return r, false; }
    AcceptedExtractable(archive, lim);
    ok := disk.ExtractMembers(r.members);
  }

  lemma HoldsDetermines(t: Tree, u: Tree, a: seq<Member>, b: seq<Member>)
    requires Holds(t, a) && Holds(u, b) && (forall m :: m in a <==> m in b)
    ensures t == u
  {
    forall p ensures (p in t <==> p in u) && (p in t && p in u ==> t[p] == u[p]) {
      assert HoldsAt(t, a, p) && HoldsAt(u, b, p);
      assert forall m :: FileAt(a, p, m) <==> FileAt(b, p, m);
    }
  }

  /** The extracted tree does not depend on member order. */
  lemma TreeOrderFree(a: seq<Member>, b: seq<Member>, t: Tree, u: Tree)
    requires multiset(a) == multiset(b) && Holds(t, Entries(a)) && Holds(u, Entries(b))
    ensures t == u
  {
    forall m ensures m in a <==> m in b { assert m in multiset(a) <==> m in multiset(b); }
    HoldsDetermines(t, u, Entries(a), Entries(b));
  }
}
