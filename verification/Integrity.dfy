// The two integrity checkers: build_release_manifest.py writes the inventory of a package tree,
// verify_release.py --pristine re-reads it by its own walk and its own exclusion rules.
module Integrity {

  type Path = seq<string>
  type Bytes = seq<bv8>

  datatype Node = File(content: Bytes, executable: bool, readable: bool) | Dir | Link | Special

  predicate SafePath(p: Path) { p != [] && p[0] != "" && ".." !in p }

  /** What os.walk and lstat report of a package: nodes whose lstat succeeds, directories that cannot be
      listed, names whose lstat fails; a directory inside one that is not searchable is both of the
      latter. The package root itself is the empty path. */
  datatype Package = Package(nodes: map<Path, Node>, unlisted: set<Path>, unstated: set<Path>) {
    ghost predicate Valid() {
      (forall p :: p in nodes ==> SafePath(p)) && Closed() && ErrorsPlaced() && SiblingsHidden()
    }

    /** Every node lies in a directory. */
    ghost predicate Closed() {
      forall p :: p in nodes && |p| > 1 ==> IsDir(p[..|p|-1])
    }

    predicate IsDir(p: Path) { p in nodes && nodes[p].Dir? }

    ghost predicate ErrorsPlaced() {
      && (forall p :: p in unlisted && p != [] ==> IsDir(p) || p in unstated)
      && (forall p :: p in unstated ==> p != [] && p !in nodes)
      && (forall p :: p in unstated && |p| > 1 ==> IsDir(p[..|p|-1]))
    }

    /** lstat of a name fails when its directory is not searchable, so no sibling can be read either. */
    ghost predicate SiblingsHidden() {
      forall p, q :: p in unstated && q in nodes && |q| == |p| > 0 ==> p[..|p|-1] != q[..|p|-1]
    }

    /** The walk leaves out a top-level .git directory. */
    predicate Walked(p: Path) {
      !(p != [] && p[0] == ".git" && [".git"] in nodes && nodes[[".git"]].Dir?)
    }

    function Seen(): set<Path> { set p | p in nodes && Walked(p) }

    function Errors(): set<Path> { set p | p in unlisted + unstated && Walked(p) }
  }

  // ---------------------------------------------------------------- exclusion rules

  /** The rule sets of the two scripts; the last two are the verifier's own. */
  datatype Rules = Rules(
    files: set<Path>, parts: set<string>, prefixes: set<string>, roots: set<string>, placeholders: set<Path>,
    runtime: set<Path>, review: set<string>)

  const MANIFEST: Path := ["manifest.json"]
  const GIT := ".git"

  /** What the comments of both scripts ask of the sets. */
  ghost predicate InLockstep(r: Rules) {
    && MANIFEST in r.files && r.runtime == r.files - {MANIFEST}
    && GIT in r.parts && r.review == r.prefixes && r.roots !! r.prefixes
    && (forall p :: p in r.files ==> p != [] && p[0] !in r.roots && p[0] !in r.prefixes && p[0] != GIT)
    && (forall p :: p in r.placeholders ==> |p| == 2 && p[0] in r.roots && p[1] == ".gitkeep")
    && (forall n :: n in r.roots ==> n !in r.parts && n != GIT && [n] != MANIFEST)
    && ".gitkeep" !in r.parts && GIT !in r.prefixes
  }

  predicate EndsWith(s: string, suffix: string) { |suffix| <= |s| && s[|s|-|suffix|..] == suffix }

  /** Path.suffix is ".pyc" or ".pyo". */
  predicate Compiled(name: string) { |name| > 4 && (EndsWith(name, ".pyc") || EndsWith(name, ".pyo")) }

  /** A name is compiled iff a non-empty stem stands before one of the two suffixes. */
  lemma CompiledMeans(name: string)
    ensures Compiled(name) <==> exists stem :: stem != "" && (name == stem + ".pyc" || name == stem + ".pyo")
  {
    if Compiled(name) {
      var stem := name[..|name|-4];
      assert name == stem + name[|name|-4..];
    }
    forall stem | stem != "" && (name == stem + ".pyc" || name == stem + ".pyo") ensures Compiled(name) {
      assert name[|name|-4..] == ".pyc" || name[|name|-4..] == ".pyo";
    }
  }

  predicate HasPart(p: Path, parts: set<string>) { exists i :: 0 <= i < |p| && p[i] in parts }

  /** The builder's name rules. */
  predicate NameRule(r: Rules, p: Path)
    requires p != []
  {
    || p in r.files || p[0] in r.prefixes || HasPart(p, r.parts)
    || Compiled(p[|p|-1]) || p[|p|-1] == ".DS_Store"
    || (p[0] in r.roots && p !in r.placeholders)
  }

  /** build_release_manifest.tolerated. */
  predicate Tolerated(r: Rules, p: Path) {
    p != [] && (p[0] in r.prefixes || (p[0] in r.roots && |p| > 1 && p !in r.placeholders))
  }

  /** verify_release.tolerated_unreadable. */
  predicate ToleratedUnreadable(r: Rules, p: Path, declared: set<Path>) {
    p != [] && (p[0] in r.review || (p[0] in r.roots && |p| > 1 && p !in declared))
  }

  // ---------------------------------------------------------------- the builder

  datatype Entry = Entry(path: Path, sha256: string, size: nat, executable: bool)
  datatype Built = Manifest(files: seq<Entry>) | Refused

  predicate Inventoried(r: Rules, pkg: Package, p: Path) {
    p in pkg.nodes && p != [] && pkg.Walked(p) && pkg.nodes[p].File? && !NameRule(r, p)
  }

  function EntryOf(pkg: Package, p: Path, hash: Bytes -> string): Entry
    requires p in pkg.nodes && pkg.nodes[p].File?
  {
    Entry(p, hash(pkg.nodes[p].content), |pkg.nodes[p].content|, pkg.nodes[p].executable)
  }

  ghost predicate Enumerates(order: seq<Path>, s: set<Path>) {
    && (forall p :: p in order <==> p in s)
    && (forall i, j :: 0 <= i < j < |order| ==> order[i] != order[j])
  }

  ghost predicate Distinct(files: seq<Entry>) {
    forall i, j :: 0 <= i < j < |files| ==> files[i].path != files[j].path
  }

  function Declared(files: seq<Entry>): (r: set<Path>)
    ensures forall e :: e in files ==> e.path in r
  {
    set e | e in files :: e.path
  }

  /** files lists the package: one entry per inventoried path and nothing else. */
  ghost predicate Lists(r: Rules, files: seq<Entry>, pkg: Package, hash: Bytes -> string) {
    && Distinct(files)
    && (forall p :: Inventoried(r, pkg, p) ==> EntryOf(pkg, p, hash) in files)
    && (forall e :: e in files ==> Inventoried(r, pkg, e.path) && e == EntryOf(pkg, e.path, hash))
  }

  /** The walk or a read makes the builder refuse. */
  ghost predicate Refuses(r: Rules, pkg: Package) {
    || (exists p :: p in pkg.Errors() && !Tolerated(r, p))
    || (exists p :: Inventoried(r, pkg, p) && !pkg.nodes[p].readable)
  }

  predicate Known(pkg: Package, order: seq<Path>) {
    forall i :: 0 <= i < |order| ==> order[i] in pkg.nodes && order[i] != []
  }

  /** The loop of inventory over the walk's paths. */
  function Collect(r: Rules, pkg: Package, order: seq<Path>, hash: Bytes -> string): seq<Entry>
    requires Known(pkg, order)
  {
    if order == [] then []
    else
      var p := order[|order|-1];
      Collect(r, pkg, order[..|order|-1], hash)
      + if pkg.nodes[p].File? && !NameRule(r, p) then [EntryOf(pkg, p, hash)] else []
  }

  lemma {:induction false} CollectMeans(r: Rules, pkg: Package, order: seq<Path>, hash: Bytes -> string)
    requires Known(pkg, order)
    requires forall i, j :: 0 <= i < j < |order| ==> order[i] != order[j]
    ensures Distinct(Collect(r, pkg, order, hash))
    ensures forall e :: e in Collect(r, pkg, order, hash) <==>
      e.path in order && pkg.nodes[e.path].File? && !NameRule(r, e.path) && e == EntryOf(pkg, e.path, hash)
    decreases |order|
  {
    if order != [] {
      var rest, p := order[..|order|-1], order[|order|-1];
      assert forall i :: 0 <= i < |rest| ==> rest[i] == order[i];
      CollectMeans(r, pkg, rest, hash);
      assert order == rest + [p];
      assert p !in rest;
    }
  }

  /** walk_package and inventory. order lists the walk's paths, errors the paths it could not read. */
  method Inventory(r: Rules, pkg: Package, order: seq<Path>, errors: seq<Path>, hash: Bytes -> string)
    returns (built: Built)
    requires pkg.Valid() && Enumerates(order, pkg.Seen()) && Enumerates(errors, pkg.Errors())
    ensures built.Refused? <==> Refuses(r, pkg)
    ensures built.Manifest? ==> Lists(r, built.files, pkg, hash)
  {
    for k := 0 to |errors|
      invariant forall i :: 0 <= i < k ==> Tolerated(r, errors[i])
    {
      if !Tolerated(r, errors[k]) { assert errors[k] in pkg.Errors(); return Refused; }
    }
    assert forall i :: 0 <= i < |order| ==> order[i] in pkg.Seen();
    var files, readable := ReadAll(r, pkg, order, hash);
    if !readable {
      var i :| 0 <= i < |order| && Inventoried(r, pkg, order[i]) && !pkg.nodes[order[i]].readable;
      return Refused;
    }
    built := Manifest(files);
    BuiltLists(r, pkg, order, errors, hash);
  }

  method ReadAll(r: Rules, pkg: Package, order: seq<Path>, hash: Bytes -> string)
    returns (files: seq<Entry>, readable: bool)
    requires Known(pkg, order) && forall i :: 0 <= i < |order| ==> pkg.Walked(order[i])
    ensures readable <==> forall i :: 0 <= i < |order| && Inventoried(r, pkg, order[i]) ==> pkg.nodes[order[i]].readable
    ensures readable ==> files == Collect(r, pkg, order, hash)
  {
    files := [];
    for k := 0 to |order|
      invariant files == Collect(r, pkg, order[..k], hash)
      invariant forall i :: 0 <= i < k && Inventoried(r, pkg, order[i]) ==> pkg.nodes[order[i]].readable
    {
      var p := order[k];
      assert order[..k+1][..k] == order[..k];
      if pkg.nodes[p].File? && !NameRule(r, p) {
        if !pkg.nodes[p].readable {
          assert Inventoried(r, pkg, p);
          return files, false;
        }
        files := files + [EntryOf(pkg, p, hash)];
      }
    }
    assert order[..|order|] == order;
    readable := true;
  }

  lemma BuiltLists(r: Rules, pkg: Package, order: seq<Path>, errors: seq<Path>, hash: Bytes -> string)
    requires Known(pkg, order) && pkg.Valid() && Enumerates(order, pkg.Seen()) && Enumerates(errors, pkg.Errors())
    requires forall i :: 0 <= i < |errors| ==> Tolerated(r, errors[i])
    requires forall i :: 0 <= i < |order| && Inventoried(r, pkg, order[i]) ==> pkg.nodes[order[i]].readable
    ensures !Refuses(r, pkg) && Lists(r, Collect(r, pkg, order, hash), pkg, hash)
  {
    CollectMeans(r, pkg, order, hash);
    forall p | Inventoried(r, pkg, p) ensures p in order && pkg.nodes[p].readable {
      assert p in pkg.Seen();
      var i :| 0 <= i < |order| && order[i] == p;
    }
    forall e | e in Collect(r, pkg, order, hash) ensures Inventoried(r, pkg, e.path) {
      assert e.path in order && e.path in pkg.Seen();
    }
    forall p | p in pkg.Errors() ensures Tolerated(r, p) {
      var i :| 0 <= i < |errors| && errors[i] == p;
    }
  }

  // ---------------------------------------------------------------- the verifier

  predicate Matches(e: Entry, pkg: Package, hash: Bytes -> string) {
    && e.path in pkg.nodes && pkg.nodes[e.path].File? && pkg.nodes[e.path].readable
    && e == EntryOf(pkg, e.path, hash)
  }

  /** One path of the --pristine walk is no finding. */
  predicate Clean(r: Rules, pkg: Package, p: Path, declared: set<Path>)
    requires p in pkg.nodes && p != []
  {
    var node := pkg.nodes[p];
    if p == MANIFEST || p[0] == GIT then true
    else if p in r.runtime then node.File?
    else if p[0] in r.review then (|p| == 1 ==> node.Dir?)
    else if p[0] in r.roots && |p| > 1 && p !in declared then !node.Link?
    else node.Dir? || p in declared
  }

  /** An unreadable path is no finding; the lstat caller skips two names before it asks. */
  predicate CleanError(r: Rules, pkg: Package, p: Path, declared: set<Path>) {
    || (p in pkg.unstated && p !in pkg.unlisted && p != [] && (p == MANIFEST || p[0] == GIT))
    || ToleratedUnreadable(r, p, declared)
  }

  ghost predicate DeclaredFilesMatch(files: seq<Entry>, pkg: Package, hash: Bytes -> string) {
    Distinct(files) && forall e :: e in files ==> SafePath(e.path) && Matches(e, pkg, hash)
  }

  /** verify_release.py --pristine prints PASS. */
  ghost predicate Passes(r: Rules, files: seq<Entry>, pkg: Package, hash: Bytes -> string) {
    && files != [] && DeclaredFilesMatch(files, pkg, hash)
    && (forall p :: p in pkg.Errors() ==> CleanError(r, pkg, p, Declared(files)))
    && (forall p :: p in pkg.Seen() && p != [] ==> Clean(r, pkg, p, Declared(files)))
  }

  /** The declared-file loop. */
  method CheckDeclared(files: seq<Entry>, pkg: Package, hash: Bytes -> string)
    returns (declared: set<Path>, findings: nat)
    ensures findings == 0 <==> DeclaredFilesMatch(files, pkg, hash)
    ensures findings == 0 ==> declared == Declared(files)
  {
    declared, findings := {}, 0;
    for k := 0 to |files|
      invariant findings == 0 <==> DeclaredFilesMatch(files[..k], pkg, hash)
      invariant findings == 0 ==> declared == Declared(files[..k])
    {
      var e := files[k];
      assert files[..k+1] == files[..k] + [e];
      DeclaredSnoc(files[..k], e, pkg, hash);
      if !SafePath(e.path) || e.path in declared {
        findings := findings + 1;
      } else {
        declared := declared + {e.path};
        if !Matches(e, pkg, hash) { findings := findings + 1; }
      }
    }
    assert files[..|files|] == files;
  }

  lemma DeclaredSnoc(files: seq<Entry>, e: Entry, pkg: Package, hash: Bytes -> string)
    ensures Declared(files + [e]) == Declared(files) + {e.path}
    ensures DeclaredFilesMatch(files + [e], pkg, hash) <==>
            && DeclaredFilesMatch(files, pkg, hash) && SafePath(e.path)
            && e.path !in Declared(files) && Matches(e, pkg, hash)
  {
    var all := files + [e];
    assert forall x :: x in all <==> x in files || x == e;
    assert forall i :: 0 <= i < |files| ==> all[i] == files[i];
    assert all[|files|] == e;
    if DeclaredFilesMatch(all, pkg, hash) {
      forall i, j | 0 <= i < j < |files| ensures files[i].path != files[j].path {
        assert all[i].path != all[j].path;
      }
    }
  }

  method CountUnclean(r: Rules, pkg: Package, order: seq<Path>, errors: seq<Path>, declared: set<Path>)
    returns (findings: nat)
    requires Known(pkg, order)
    ensures findings == 0 <==>
      && (forall p :: p in errors ==> CleanError(r, pkg, p, declared))
      && (forall p :: p in order ==> Clean(r, pkg, p, declared))
  {
    findings := 0;
    for k := 0 to |errors|
      invariant findings == 0 <==> forall i :: 0 <= i < k ==> CleanError(r, pkg, errors[i], declared)
    {
      if !CleanError(r, pkg, errors[k], declared) { findings := findings + 1; }
    }
    ghost var before := findings;
    for k := 0 to |order|
      invariant findings == 0 <==> before == 0 && forall i :: 0 <= i < k ==> Clean(r, pkg, order[i], declared)
    {
      if !Clean(r, pkg, order[k], declared) { findings := findings + 1; }
    }
  }

  method Verify(r: Rules, files: seq<Entry>, pkg: Package, order: seq<Path>, errors: seq<Path>, hash: Bytes -> string)
    returns (pass: bool)
    requires pkg.Valid() && Enumerates(order, pkg.Seen()) && Enumerates(errors, pkg.Errors())
    ensures pass <==> Passes(r, files, pkg, hash)
  {
    if files == [] { return false; }
    var declared, findings := CheckDeclared(files, pkg, hash);
    if findings > 0 { return false; }
    assert forall i :: 0 <= i < |order| ==> order[i] in pkg.Seen();
    var walk := CountUnclean(r, pkg, order, errors, declared);
    pass := walk == 0;
  }

  // ---------------------------------------------------------------- main results

  /** On every path the two unreadable-path predicates agree, once the declared set comes from the
      builder with both placeholders present. */
  lemma TolerancesAgree(r: Rules, files: seq<Entry>, built: Package, hash: Bytes -> string, p: Path)
    requires InLockstep(r) && Lists(r, files, built, hash) && r.placeholders <= Declared(files)
    ensures Tolerated(r, p) <==> ToleratedUnreadable(r, p, Declared(files))
  {
    if p in Declared(files) {
      var e :| e in files && e.path == p;
      assert Inventoried(r, built, e.path);
    }
  }

  lemma {:induction false} TopDirectory(pkg: Package, p: Path)
    requires pkg.Valid() && p in pkg.nodes
    ensures [p[0]] in pkg.nodes && (|p| > 1 ==> pkg.nodes[[p[0]]].Dir?)
    decreases |p|
  {
    if |p| > 1 {
      TopDirectory(pkg, p[..|p|-1]);
      assert |p| == 2 ==> p[..1] == [p[0]];
    } else {
      assert p == [p[0]];
    }
  }

  lemma DeepErrors(pkg: Package, p: Path)
    requires pkg.Valid() && pkg.nodes != map[] && p in pkg.unstated
    ensures |p| > 1
  {
    var q :| q in pkg.nodes;
    TopDirectory(pkg, q);
    assert p[..0] == [q[0]][..0];
  }

  /** A name the verifier skips before its lstat is never the one whose lstat failed, unless nothing
      at all can be read. */
  lemma SkippedNamesReadable(pkg: Package, p: Path)
    requires pkg.Valid() && pkg.nodes != map[]
    requires p in pkg.unstated && pkg.Walked(p)
    ensures p != MANIFEST && p[0] != GIT
  {
    DeepErrors(pkg, p);
    TopDirectory(pkg, p[..|p|-1]);
    assert p[..1] == [p[0]];
  }

  lemma ErrorsAgree(r: Rules, files: seq<Entry>, built: Package, later: Package, hash: Bytes -> string, p: Path)
    requires InLockstep(r) && Lists(r, files, built, hash) && r.placeholders <= Declared(files)
    requires later.Valid() && later.nodes != map[] && p in later.Errors()
    ensures CleanError(r, later, p, Declared(files)) <==> Tolerated(r, p)
  {
    TolerancesAgree(r, files, built, hash, p);
    if p in later.unstated { SkippedNamesReadable(later, p); }
  }

  /** What a tree must look like beside its inventory: package directories, declared files, and nothing
      else outside the tolerated places. */
  predicate Orderly(r: Rules, pkg: Package, p: Path)
    requires p in pkg.nodes && p != []
  {
    var node := pkg.nodes[p];
    if p == MANIFEST || p[0] == GIT then true
    else if p in r.runtime then node.File?
    else if p[0] in r.prefixes then (|p| == 1 ==> node.Dir?)
    else if p[0] in r.roots && |p| > 1 && p !in r.placeholders then !node.Link?
    else node.Dir? || (node.File? && !NameRule(r, p))
  }

  /** One visited path: the verifier has no finding there exactly when the path is orderly and, if the
      builder would list it, declared. */
  lemma CleanMeans(r: Rules, files: seq<Entry>, built: Package, later: Package, hash: Bytes -> string, p: Path)
    requires InLockstep(r) && Lists(r, files, built, hash) && r.placeholders <= Declared(files)
    requires p in later.Seen() && p != []
    requires p in Declared(files) ==> later.nodes[p].File?
    ensures Clean(r, later, p, Declared(files)) <==>
            Orderly(r, later, p) && (Inventoried(r, later, p) ==> p in Declared(files))
  {
    if p in Declared(files) {
      var e :| e in files && e.path == p;
      assert Inventoried(r, built, e.path);
    }
    assert p[0] == GIT ==> HasPart(p, r.parts);
  }

  lemma DeclaredInventoried(r: Rules, e: Entry, built: Package, later: Package, hash: Bytes -> string)
    requires InLockstep(r) && Inventoried(r, built, e.path) && Matches(e, later, hash)
    ensures Inventoried(r, later, e.path)
  {
    assert e.path[0] == GIT ==> HasPart(e.path, r.parts);
  }

  /** The manifest was written by the builder over a tree with both placeholders. Then on every later
      tree, readable or not, the verifier passes exactly when the builder would succeed there, would
      write the same files, hashes, sizes and executable bits, and the rest of the tree is orderly. */
  lemma PassMeansSameInventory(r: Rules, files: seq<Entry>, built: Package, later: Package, hash: Bytes -> string)
    requires InLockstep(r) && built.Valid() && later.Valid()
    requires Lists(r, files, built, hash) && r.placeholders <= Declared(files) && files != []
    ensures Passes(r, files, later, hash) <==>
      && !Refuses(r, later) && Lists(r, files, later, hash)
      && (forall p :: p in later.Seen() && p != [] ==> Orderly(r, later, p))
  {
    if Passes(r, files, later, hash) {
      PassGivesInventory(r, files, built, later, hash);
    } else if && !Refuses(r, later) && Lists(r, files, later, hash)
              && (forall p :: p in later.Seen() && p != [] ==> Orderly(r, later, p)) {
      InventoryGivesPass(r, files, built, later, hash);
    }
  }

  lemma PassGivesInventory(r: Rules, files: seq<Entry>, built: Package, later: Package, hash: Bytes -> string)
    requires InLockstep(r) && later.Valid()
    requires Lists(r, files, built, hash) && r.placeholders <= Declared(files)
    requires Passes(r, files, later, hash)
    ensures !Refuses(r, later) && Lists(r, files, later, hash)
    ensures forall p :: p in later.Seen() && p != [] ==> Orderly(r, later, p)
  {
    assert files[0] in files && Matches(files[0], later, hash);
    forall p | p in later.Errors() ensures Tolerated(r, p) { ErrorsAgree(r, files, built, later, hash, p); }
    forall p | p in later.Seen() && p != []
      ensures Orderly(r, later, p) && (Inventoried(r, later, p) ==> p in Declared(files))
    {
      CleanMeans(r, files, built, later, hash, p);
    }
    forall p | Inventoried(r, later, p) ensures later.nodes[p].readable && EntryOf(later, p, hash) in files {
      assert p in later.Seen();
      var e :| e in files && e.path == p;
      assert Matches(e, later, hash);
    }
    forall e | e in files ensures Inventoried(r, later, e.path) && e == EntryOf(later, e.path, hash) {
      DeclaredInventoried(r, e, built, later, hash);
    }
  }

  lemma InventoryGivesPass(r: Rules, files: seq<Entry>, built: Package, later: Package, hash: Bytes -> string)
    requires InLockstep(r) && later.Valid() && files != []
    requires Lists(r, files, built, hash) && r.placeholders <= Declared(files)
    requires !Refuses(r, later) && Lists(r, files, later, hash)
    requires forall p :: p in later.Seen() && p != [] ==> Orderly(r, later, p)
    ensures Passes(r, files, later, hash)
  {
    assert files[0] in files;
    forall e | e in files ensures SafePath(e.path) && Matches(e, later, hash) {
      assert Inventoried(r, later, e.path);
    }
    forall p | p in later.Errors() ensures CleanError(r, later, p, Declared(files)) {
      ErrorsAgree(r, files, built, later, hash, p);
    }
    forall p | p in later.Seen() && p != [] ensures Clean(r, later, p, Declared(files)) {
      if Inventoried(r, later, p) { assert EntryOf(later, p, hash) in files; }
      CleanMeans(r, files, built, later, hash, p);
    }
  }

  /** When the inventories agree, a path the verifier still reports is a runtime, review or operator
      path of the wrong type, or one the builder skipped by a name rule or for not being a regular
      file. */
  lemma ReportedWasSkipped(r: Rules, files: seq<Entry>, later: Package, hash: Bytes -> string, p: Path)
    requires InLockstep(r) && Lists(r, files, later, hash) && p in later.Seen() && p != []
    ensures !Clean(r, later, p, Declared(files)) ==> NameRule(r, p) || !later.nodes[p].File?
  {
    assert Inventoried(r, later, p) ==> EntryOf(later, p, hash) in files;
  }

  // ---------------------------------------------------------------- the placeholders are needed

  lemma GitkeepNotRuled(r: Rules, q: Path)
    requires InLockstep(r) && q in r.placeholders
    ensures !NameRule(r, q)
  {
    assert q == [q[0], ".gitkeep"];
    var name := ".gitkeep";
    assert name[4..] == "keep" && name[4..][0] == 'k';
    assert ".pyc"[0] == '.' && ".pyo"[0] == '.';
    assert ".DS_Store"[1] == 'D' && name[1] == 'g';
  }

  /** The tree with a new placeholder file and nothing unreadable below its root. */
  function WithPlaceholder(pkg: Package, q: Path): Package
    requires |q| == 2
  {
    Package(
      (map p | p in pkg.nodes && !(q <= p) :: pkg.nodes[p])[[q[0]] := Dir][q := File([], false, true)],
      set p | p in pkg.unlisted && !([q[0]] <= p),
      set p | p in pkg.unstated && !([q[0]] <= p))
  }

  function NextNode(pkg: Package, q: Path, p: Path): Node
    requires |q| == 2 && (p == q || p == [q[0]] || p in pkg.nodes)
  {
    if p == q then File([], false, true) else if p == [q[0]] then Dir else pkg.nodes[p]
  }

  lemma NextNodes(pkg: Package, q: Path, p: Path)
    requires |q| == 2
    ensures var next := WithPlaceholder(pkg, q);
      && (p in next.nodes <==> p == q || p == [q[0]] || (p in pkg.nodes && !(q <= p)))
      && (p in next.nodes ==> next.nodes[p] == NextNode(pkg, q, p))
  {
  }

  lemma NextClosed(pkg: Package, q: Path)
    requires pkg.Closed() && |q| == 2
    requires [q[0]] in pkg.nodes ==> pkg.nodes[[q[0]]].Dir?
    ensures WithPlaceholder(pkg, q).Closed()
  {
    var next := WithPlaceholder(pkg, q);
    forall p | p in next.nodes && |p| > 1 ensures next.IsDir(p[..|p|-1]) {
      NextNodes(pkg, q, p);
      NextNodes(pkg, q, p[..|p|-1]);
      if p == q {
        assert q[..1] == [q[0]];
      } else {
        assert q <= p[..|p|-1] ==> q <= p;
      }
    }
  }

  lemma NextErrors(pkg: Package, q: Path)
    requires pkg.ErrorsPlaced() && |q| == 2
    ensures WithPlaceholder(pkg, q).ErrorsPlaced()
  {
    var next := WithPlaceholder(pkg, q);
    forall p | !([q[0]] <= p)
      ensures (p in next.nodes <==> p in pkg.nodes) && (next.IsDir(p) <==> pkg.IsDir(p))
    {
      NextNodes(pkg, q, p);
    }
    forall p | p in next.unstated && |p| > 1 ensures next.IsDir(p[..|p|-1]) {
      assert p[..|p|-1][0] == p[0];
    }
  }

  lemma NextSiblings(pkg: Package, q: Path)
    requires pkg.Valid() && pkg.nodes != map[] && |q| == 2
    ensures WithPlaceholder(pkg, q).SiblingsHidden()
  {
    var next := WithPlaceholder(pkg, q);
    forall p, n | p in next.unstated && n in next.nodes && |n| == |p| > 0 ensures p[..|p|-1] != n[..|p|-1] {
      NextNodes(pkg, q, n);
      DeepErrors(pkg, p);
      if n == q { assert p[..1] == [p[0]] && n[..1] == [q[0]]; }
    }
  }

  lemma WithPlaceholderValid(pkg: Package, q: Path)
    requires pkg.Valid() && pkg.nodes != map[] && |q| == 2 && SafePath(q)
    requires [q[0]] in pkg.nodes ==> pkg.nodes[[q[0]]].Dir?
    ensures WithPlaceholder(pkg, q).Valid()
  {
    NextClosed(pkg, q);
    NextErrors(pkg, q);
    NextSiblings(pkg, q);
    forall p | p in WithPlaceholder(pkg, q).nodes ensures SafePath(p) { NextNodes(pkg, q, p); }
  }

  /** A manifest built without one of the placeholders, and passing where it was built, also passes on
      a tree whose inventory differs: so both placeholders must be there, not just one. */
  lemma PlaceholderNeeded(r: Rules, files: seq<Entry>, built: Package, hash: Bytes -> string, q: Path)
    returns (later: Package)
    requires InLockstep(r) && built.Valid() && Lists(r, files, built, hash) && Passes(r, files, built, hash)
    requires q in r.placeholders && q !in Declared(files) && SafePath(q)
    ensures later.Valid() && Passes(r, files, later, hash) && !Lists(r, files, later, hash)
  {
    later := WithPlaceholder(built, q);
    assert files[0] in files && Matches(files[0], built, hash);
    if [q[0]] in built.nodes { RootIsDirectory(r, files, built, hash, [q[0]]); }
    WithPlaceholderValid(built, q);
    NextWalk(built, q);
    NextNodes(built, q, q);
    GitkeepNotRuled(r, q);
    assert Inventoried(r, later, q);
    NextPasses(r, files, built, hash, q);
  }

  lemma NextWalk(built: Package, q: Path)
    requires |q| == 2 && q[0] != GIT
    ensures forall p :: WithPlaceholder(built, q).Walked(p) <==> built.Walked(p)
  {
    NextNodes(built, q, [GIT]);
  }

  lemma NextPasses(r: Rules, files: seq<Entry>, built: Package, hash: Bytes -> string, q: Path)
    requires InLockstep(r) && Lists(r, files, built, hash) && Passes(r, files, built, hash)
    requires q in r.placeholders && q !in Declared(files)
    ensures Passes(r, files, WithPlaceholder(built, q), hash)
  {
    var later := WithPlaceholder(built, q);
    NextWalk(built, q);
    forall e | e in files ensures Matches(e, later, hash) {
      KeptDeclared(r, built, q, e.path);
      NextNodes(built, q, e.path);
    }
    forall p | p in later.Errors() ensures CleanError(r, later, p, Declared(files)) {
      assert p in built.Errors() && CleanError(r, built, p, Declared(files));
    }
    forall p | p in later.Seen() && p != [] ensures Clean(r, later, p, Declared(files)) {
      NextNodes(built, q, p);
      if p != [q[0]] && p != q { assert p in built.Seen() && Clean(r, built, p, Declared(files)); }
    }
  }

  lemma RootIsDirectory(r: Rules, files: seq<Entry>, built: Package, hash: Bytes -> string, root: Path)
    requires InLockstep(r) && Lists(r, files, built, hash) && Passes(r, files, built, hash)
    requires |root| == 1 && root[0] in r.roots && root in built.nodes
    ensures built.nodes[root].Dir?
  {
    assert root in built.Seen();
    assert Clean(r, built, root, Declared(files));
    assert root != MANIFEST && root[0] != GIT && root !in r.runtime && root[0] !in r.review;
  }

  lemma KeptDeclared(r: Rules, built: Package, q: Path, p: Path)
    requires InLockstep(r) && q in r.placeholders && Inventoried(r, built, p) && p != q
    ensures !(q <= p) && p != [q[0]]
  {
    if p[0] == q[0] { assert p in r.placeholders && |p| == 2; }
  }

  // ---------------------------------------------------------------- the shipped rule sets

  const RUNTIME_FILES: set<Path> := {
    [".env"],
    ["config", "customization-profile.json"],
    ["config", "connectors.json"],
    ["config", "runtime", "openclaw.json"],
    ["config", "runtime", "secrets", "postgres_owner_password"],
    ["config", "runtime", "secrets", "openclaw_db_password"],
    ["config", "runtime", "secrets", "vcops_approval_pepper"],
    ["config", "runtime", "secrets", "vc_trusted_context_key"],
    ["deployment-lock.json"]}

  const SHIPPED := Rules(
    {MANIFEST} + RUNTIME_FILES,
    {".git", "__pycache__", ".pytest_cache", ".ruff_cache"},
    {"_internal"},
    {"inbox", "quarantine"},
    {["inbox", ".gitkeep"], ["quarantine", ".gitkeep"]},
    RUNTIME_FILES,
    {"_internal"})

  lemma ShippedFiles()
    ensures MANIFEST !in RUNTIME_FILES
    ensures forall p :: p in SHIPPED.files ==>
      p != [] && p[0] !in SHIPPED.roots && p[0] !in SHIPPED.prefixes && p[0] != GIT
  {
    assert "manifest.json"[0] == 'm' && ".env"[1] == 'e' && "config"[0] == 'c' && "deployment-lock.json"[0] == 'd';
    assert "inbox"[0] == 'i' && "quarantine"[0] == 'q' && "_internal"[0] == '_' && ".git"[1] == 'g';
  }

  lemma ShippedNames()
    ensures SHIPPED.roots !! SHIPPED.prefixes && ".gitkeep" !in SHIPPED.parts && GIT !in SHIPPED.prefixes
    ensures forall n :: n in SHIPPED.roots ==> n !in SHIPPED.parts && n != GIT && [n] != MANIFEST
  {
    assert "inbox"[0] == 'i' && "quarantine"[0] == 'q' && "_internal"[0] == '_' && "manifest.json"[0] == 'm';
    assert |".git"| == 4 && |".gitkeep"| == 8 && ".gitkeep"[0] == '.' && "__pycache__"[0] == '_';
    assert ".pytest_cache"[1] == 'p' && ".ruff_cache"[1] == 'r' && ".gitkeep"[1] == 'g';
  }

  lemma ShippedInLockstep()
    ensures InLockstep(SHIPPED)
  {
    ShippedFiles();
    ShippedNames();
  }
}
