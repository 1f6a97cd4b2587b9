// record_images.py's baked_sources_digest: the byte stream fed to SHA-256 for the artifacts that go
// into the image. UTF-8 encodes different texts differently, so the stream is kept as text.
module BakedSources {
  import opened PyText
  import opened Options
  import opened Canonical
  import Paths

  datatype Node = Missing | Directory | Regular(executable: bool, readable: bool, sha256: PyStr) | Special

  /** One artifact of the image. */
  datatype Artifact = Artifact(path: PyStr, executable: bool, sha256: PyStr)

  /** File names hold no NUL, and a hash is 64 digits. */
  predicate Named(a: Artifact) { 0 !in a.path && |a.sha256| == 64 }

  function EntryText(a: Artifact): PyStr {
    a.path + [0, if a.executable then 120 else MINUS, 0] + a.sha256
  }

  function Texts(artifacts: seq<Artifact>): (r: seq<PyStr>)
    ensures |r| == |artifacts| && forall i :: 0 <= i < |r| ==> r[i] == EntryText(artifacts[i])
  {
    seq(|artifacts|, i requires 0 <= i < |artifacts| => EntryText(artifacts[i]))
  }

  function InsertText(t: PyStr, ts: seq<PyStr>): seq<PyStr> {
    if ts == [] || !Less(ts[0], t) then [t] + ts else [ts[0]] + InsertText(t, ts[1..])
  }

  /** sorted(). */
  function SortTexts(ts: seq<PyStr>): seq<PyStr> {
    if ts == [] then [] else InsertText(ts[0], SortTexts(ts[1..]))
  }

  /** Each entry followed by a line feed. */
  function Stream(ts: seq<PyStr>): PyStr {
    if ts == [] then [] else ts[0] + [NL] + Stream(ts[1..])
  }

  /** UTF-8 encodes the text: it has no surrogate. */
  predicate Encodable(t: PyStr) { forall i :: 0 <= i < |t| ==> !(0xD800 <= t[i] <= 0xDFFF) }

  predicate EncodableAll(ts: seq<PyStr>) { forall i :: 0 <= i < |ts| ==> Encodable(ts[i]) }

  function Preimage(artifacts: seq<Artifact>): PyStr { Stream(SortTexts(Texts(artifacts))) }

  /** One artifact's part of the stream: path, x or -, and hash, with NUL between and a line feed after. */
  lemma OneArtifact(a: Artifact)
    ensures Preimage([a]) == a.path + [0] + [if a.executable then 120 else 45] + [0] + a.sha256 + [10]
  {
    assert Texts([a]) == [EntryText(a)];
    var one := [EntryText(a)];
    assert one[1..] == [] && SortTexts(one) == InsertText(one[0], SortTexts([]));
    assert SortTexts(one) == one;
    assert Stream(one) == one[0] + [NL] + Stream([]);
  }

  // ---------------------------------------------------------------- sorting

  predicate Rising(ts: seq<PyStr>) {
    ts == [] || ((forall i :: 1 <= i < |ts| ==> Less(ts[0], ts[i])) && Rising(ts[1..]))
  }

  lemma InText(t: PyStr, ts: seq<PyStr>)
    ensures forall x :: x in [t] + ts <==> x == t || x in ts
  {
    assert ([t] + ts)[0] == t;
    forall x | x in ts ensures x in [t] + ts {
      var i :| 0 <= i < |ts| && ts[i] == x;
      assert ([t] + ts)[i+1] == x;
    }
  }

  lemma {:induction false} InsertRises(t: PyStr, ts: seq<PyStr>)
    requires Rising(ts) && t !in ts
    ensures Rising(InsertText(t, ts)) && forall x :: x in InsertText(t, ts) <==> x == t || x in ts
    decreases |ts|
  {
    InText(t, ts);
    if ts != [] {
      LessTotal(t, ts[0]);
      if Less(ts[0], t) {
        var more := InsertText(t, ts[1..]);
        assert ts == [ts[0]] + ts[1..];
        InText(ts[0], ts[1..]);
        InsertRises(t, ts[1..]);
        InText(ts[0], more);
        forall i | 0 <= i < |more| ensures Less(ts[0], more[i]) {
          assert more[i] in more;
          if more[i] != t { InTail(ts, more[i]); }
        }
        assert ([ts[0]] + more)[1..] == more;
      } else {
        assert ([t] + ts)[1..] == ts;
        forall i | 0 <= i < |ts| ensures Less(t, ts[i]) { if i > 0 { LessChain(t, ts[0], ts[i]); } }
      }
    }
  }

  lemma InTail(ts: seq<PyStr>, x: PyStr)
    requires Rising(ts) && ts != [] && x in ts[1..]
    ensures Less(ts[0], x)
  {
    var i :| 0 <= i < |ts[1..]| && ts[1..][i] == x;
    assert ts[i+1] == x;
  }

  lemma {:induction false} SortRises(ts: seq<PyStr>)
    requires NoRepeat(ts)
    ensures Rising(SortTexts(ts)) && forall x :: x in SortTexts(ts) <==> x in ts
    decreases |ts|
  {
    if ts != [] {
      SortRises(ts[1..]);
      assert ts == [ts[0]] + ts[1..];
      InText(ts[0], ts[1..]);
      InsertRises(ts[0], SortTexts(ts[1..]));
    }
  }

  lemma {:induction false} InsertHolds(t: PyStr, ts: seq<PyStr>)
    ensures forall x :: x in InsertText(t, ts) <==> x == t || x in ts
    decreases |ts|
  {
    InText(t, ts);
    if ts != [] && Less(ts[0], t) {
      InsertHolds(t, ts[1..]);
      InText(ts[0], InsertText(t, ts[1..]));
      assert ts == [ts[0]] + ts[1..];
      InText(ts[0], ts[1..]);
    }
  }

  lemma {:induction false} SortHolds(ts: seq<PyStr>)
    ensures forall x :: x in SortTexts(ts) <==> x in ts
    decreases |ts|
  {
    if ts != [] {
      SortHolds(ts[1..]);
      InsertHolds(ts[0], SortTexts(ts[1..]));
      assert ts == [ts[0]] + ts[1..];
      InText(ts[0], ts[1..]);
    }
  }

  lemma SortEncodable(ts: seq<PyStr>)
    ensures EncodableAll(SortTexts(ts)) <==> EncodableAll(ts)
  {
    SortHolds(ts);
    if EncodableAll(ts) {
      forall i | 0 <= i < |SortTexts(ts)| ensures Encodable(SortTexts(ts)[i]) { assert SortTexts(ts)[i] in ts; }
    }
    if EncodableAll(SortTexts(ts)) {
      forall i | 0 <= i < |ts| ensures Encodable(ts[i]) { assert ts[i] in SortTexts(ts); }
    }
  }

  lemma {:induction false} StreamSnoc(ts: seq<PyStr>, t: PyStr)
    ensures Stream(ts + [t]) == Stream(ts) + (t + [NL])
    decreases |ts|
  {
    if ts == [] {
      assert [] + [t] == [t] && [t][1..] == [];
    } else {
      StreamSnoc(ts[1..], t);
      assert (ts + [t])[1..] == ts[1..] + [t];
      var head := ts[0] + [NL];
      assert head + (Stream(ts[1..]) + (t + [NL])) == head + Stream(ts[1..]) + (t + [NL]);
    }
  }

  /** The loop that feeds the entries to the hash; encode() raises at the first it cannot encode. */
  method Feed(ts: seq<PyStr>) returns (fed: Option<PyStr>)
    ensures fed == if EncodableAll(ts) then Some(Stream(ts)) else None
  {
    var stream := [];
    for i := 0 to |ts|
      invariant EncodableAll(ts[..i]) && stream == Stream(ts[..i])
    {
      if !Encodable(ts[i]) { return None; }
      assert ts[..i+1] == ts[..i] + [ts[i]];
      StreamSnoc(ts[..i], ts[i]);
      stream := stream + (ts[i] + [NL]);
    }
    assert ts[..|ts|] == ts;
    fed := Some(stream);
  }

  lemma NonEmpty(ts: seq<PyStr>)
    ensures ts != [] <==> exists x :: x in ts
  {
    if ts != [] { assert ts[0] in ts; }
  }

  /** Two rising lists of the same texts are one list. */
  lemma {:induction false} RisingUnique(a: seq<PyStr>, b: seq<PyStr>)
    requires Rising(a) && Rising(b) && forall x :: x in a <==> x in b
    ensures a == b
    decreases |a|
  {
    NonEmpty(a);
    NonEmpty(b);
    if a != [] && b != [] {
      assert a[0] in b && b[0] in a;
      HeadFirst(a, b[0]);
      HeadFirst(b, a[0]);
      LessTotal(a[0], b[0]);
      assert a == [a[0]] + a[1..] && b == [b[0]] + b[1..];
      InText(a[0], a[1..]);
      InText(b[0], b[1..]);
      forall x ensures x in a[1..] <==> x in b[1..] {
        LessTotal(a[0], a[0]);
        if x in a[1..] { InTail(a, x); }
        if x in b[1..] { InTail(b, x); }
        LessTotal(a[0], x);
      }
      RisingUnique(a[1..], b[1..]);
    }
  }

  lemma HeadFirst(ts: seq<PyStr>, x: PyStr)
    requires Rising(ts) && x in ts
    ensures x == ts[0] || Less(ts[0], x)
  {
  }

  // ---------------------------------------------------------------- decoding

  lemma NoNul(s: PyStr, path: PyStr, k: nat)
    requires |path| <= |s| && s[..|path|] == path && 0 !in path
    ensures k < |path| ==> s[k] != 0
  {
    if k < |path| { assert s[k] == path[k] && path[k] in path; }
  }

  /** Where the parts of an entry stand. */
  lemma EntryParts(a: Artifact, rest: PyStr, s: PyStr)
    requires Named(a) && s == EntryText(a) + [NL] + rest
    ensures var n := |a.path|;
      && |s| == n + 68 + |rest| && s[..n] == a.path && s[n] == 0
      && (s[n+1] == 120 <==> a.executable) && s[n+3..n+67] == a.sha256 && s[n+68..] == rest
  {
    var n := |a.path|;
    assert s[n+1] == EntryText(a)[n+1];
    assert s[n+3..n+67] == EntryText(a)[n+3..];
  }

  /** The first entry of a stream can be told from the rest, even when names hold line feeds. */
  lemma FirstEntry(a: Artifact, b: Artifact, rest: PyStr, rest': PyStr)
    requires Named(a) && Named(b)
    requires EntryText(a) + [NL] + rest == EntryText(b) + [NL] + rest'
    ensures a == b && rest == rest'
  {
    var s := EntryText(a) + [NL] + rest;
    EntryParts(a, rest, s);
    EntryParts(b, rest', s);
    NoNul(s, b.path, |a.path|);
    NoNul(s, a.path, |b.path|);
  }

  ghost predicate AllNamed(ts: seq<PyStr>) { forall i :: 0 <= i < |ts| ==> IsEntry(ts[i]) }

  ghost predicate IsEntry(t: PyStr) { exists a :: Named(a) && t == EntryText(a) }

  lemma {:induction false} StreamDecodes(a: seq<PyStr>, b: seq<PyStr>)
    requires AllNamed(a) && AllNamed(b) && Stream(a) == Stream(b)
    ensures a == b
    decreases |a|
  {
    if a != [] && b != [] {
      var x :| Named(x) && a[0] == EntryText(x);
      var y :| Named(y) && b[0] == EntryText(y);
      FirstEntry(x, y, Stream(a[1..]), Stream(b[1..]));
      forall i | 0 <= i < |a[1..]| ensures IsEntry(a[1..][i]) { assert a[1..][i] == a[i+1]; }
      forall i | 0 <= i < |b[1..]| ensures IsEntry(b[1..][i]) { assert b[1..][i] == b[i+1]; }
      StreamDecodes(a[1..], b[1..]);
      assert a == [a[0]] + a[1..] && b == [b[0]] + b[1..];
    }
  }

  // ---------------------------------------------------------------- the digest identifies the tree

  /** A listing in any order of artifacts with distinct paths. */
  predicate Listing(l: seq<Artifact>) {
    && (forall i :: 0 <= i < |l| ==> Named(l[i]))
    && (forall i, j :: 0 <= i < j < |l| ==> l[i].path != l[j].path)
  }

  lemma TextInjective(a: Artifact, b: Artifact)
    requires Named(a) && Named(b) && EntryText(a) == EntryText(b)
    ensures a == b
  {
    FirstEntry(a, b, [], []);
  }

  lemma ListingTexts(l: seq<Artifact>)
    requires Listing(l)
    ensures NoRepeat(Texts(l)) && forall a :: Named(a) ==> (EntryText(a) in Texts(l) <==> a in l)
  {
    var ts := Texts(l);
    forall i, j | 0 <= i < j < |ts| ensures ts[i] != ts[j] {
      assert Named(l[i]) && Named(l[j]);
      if EntryText(l[i]) == EntryText(l[j]) { TextInjective(l[i], l[j]); }
    }
    forall a | Named(a) ensures EntryText(a) in ts <==> a in l {
      if EntryText(a) in ts {
        var i :| 0 <= i < |ts| && ts[i] == EntryText(a);
        assert Named(l[i]);
        TextInjective(l[i], a);
      }
      if a in l {
        var i :| 0 <= i < |l| && l[i] == a;
        assert ts[i] == EntryText(a);
      }
    }
  }

  lemma SortedNamed(l: seq<Artifact>)
    requires Listing(l)
    ensures AllNamed(SortTexts(Texts(l))) && Rising(SortTexts(Texts(l)))
    ensures forall a :: Named(a) ==> (EntryText(a) in SortTexts(Texts(l)) <==> a in l)
  {
    ListingTexts(l);
    SortRises(Texts(l));
    var ts := SortTexts(Texts(l));
    forall i | 0 <= i < |ts| ensures IsEntry(ts[i]) {
      assert ts[i] in Texts(l);
      var k :| 0 <= k < |l| && Texts(l)[k] == ts[i];
      assert Named(l[k]);
    }
  }

  /** Two listings, in whatever order they were enumerated, give the same stream iff they hold the
      same artifacts: path, executable bit and hash. */
  lemma PreimageDecides(l: seq<Artifact>, l': seq<Artifact>)
    requires Listing(l) && Listing(l')
    ensures Preimage(l) == Preimage(l') <==> forall a :: a in l <==> a in l'
  {
    SortedNamed(l);
    SortedNamed(l');
    var s, s' := SortTexts(Texts(l)), SortTexts(Texts(l'));
    if Preimage(l) == Preimage(l') {
      StreamDecodes(s, s');
      forall a ensures a in l <==> a in l' {
        if a in l || a in l' { assert Named(a); }
      }
    }
    if forall a :: a in l <==> a in l' {
      forall t ensures t in s <==> t in s' {
        if t in s { NamedEntry(s, t, l, l'); }
        if t in s' { NamedEntry(s', t, l', l); }
      }
      RisingUnique(s, s');
    }
  }

  lemma NamedEntry(s: seq<PyStr>, t: PyStr, l: seq<Artifact>, l': seq<Artifact>)
    requires AllNamed(s) && t in s && (forall a :: Named(a) ==> (EntryText(a) in s <==> a in l))
    requires Listing(l') && forall a :: a in l <==> a in l'
    ensures t in SortTexts(Texts(l'))
  {
    SortedNamed(l');
    var i :| 0 <= i < |s| && s[i] == t;
    var a :| Named(a) && s[i] == EntryText(a);
    assert a in l && a in l';
  }

  // ---------------------------------------------------------------- collecting the artifacts

  const BAKED_FILES: seq<PyStr> :=
    [Lit("Dockerfile.openclaw"), Lit("config/exec-approvals.json"), Lit("requirements.lock")]

  /** One baked tree: whether it is a directory, and what rglob lists below it. */
  datatype Walk = Walk(isDirectory: bool, paths: seq<PyStr>)

  /** _is_host_generated. */
  predicate HostGenerated(path: PyStr) {
    var parts := Paths.Split(path, SLASH);
    || EndsWith(path, Lit(".pyc")) || EndsWith(path, Lit(".log"))
    || Lit("__pycache__") in parts
    || (|parts| > 3 && parts[0] == Lit("workspaces") && (parts[2] == Lit(".openclaw") || parts[2] == Lit("memory")))
  }

  /** A path of the given segments is left out iff its last one ends in .pyc or .log, one of them is
      __pycache__, or it lies below .openclaw or memory of an agent's workspace. */
  lemma HostGeneratedMeans(parts: seq<PyStr>)
    requires parts != [] && forall k :: 0 <= k < |parts| ==> 47 !in parts[k]
    ensures HostGenerated(Paths.Join(parts, 47)) <==>
      || EndsWith(parts[|parts|-1], Lit(".pyc")) || EndsWith(parts[|parts|-1], Lit(".log"))
      || Lit("__pycache__") in parts
      || (|parts| >= 4 && parts[0] == Lit("workspaces") && parts[2] in {Lit(".openclaw"), Lit("memory")})
  {
    var path := Paths.Join(parts, 47);
    Paths.SplitJoin(parts, 47);
    LastEnds(parts, Lit(".pyc"));
    LastEnds(parts, Lit(".log"));
    SplitGenerated(path, parts);
  }

  lemma SplitGenerated(path: PyStr, parts: seq<PyStr>)
    requires Paths.Split(path, 47) == parts
    ensures HostGenerated(path) <==>
      || EndsWith(path, Lit(".pyc")) || EndsWith(path, Lit(".log"))
      || Lit("__pycache__") in parts
      || (|parts| >= 4 && parts[0] == Lit("workspaces") && parts[2] in {Lit(".openclaw"), Lit("memory")})
  {
  }

  /** A joined path ends as its last segment does. */
  lemma {:induction false} LastEnds(parts: seq<PyStr>, suffix: PyStr)
    requires parts != [] && 47 !in suffix
    ensures EndsWith(Paths.Join(parts, 47), suffix) <==> EndsWith(parts[|parts|-1], suffix)
    decreases |parts|
  {
    if |parts| > 1 {
      LastEnds(parts[1..], suffix);
      EndAfter(parts[0], Paths.Join(parts[1..], 47), suffix);
    }
  }

  lemma EndAfter(first: PyStr, rest: PyStr, suffix: PyStr)
    requires 47 !in suffix
    ensures EndsWith(first + [47] + rest, suffix) <==> EndsWith(rest, suffix)
  {
    var all := first + [47] + rest;
    if |suffix| <= |rest| {
      assert all[|all|-|suffix|..] == rest[|rest|-|suffix|..];
    } else if |suffix| <= |all| {
      var k := |suffix| - |rest| - 1;
      assert all[|all|-|suffix|..][k] == 47 && suffix[k] != 47;
    }
  }

  /** Whether a path found by a walk becomes an entry, or an error if it is not a regular file. */
  predicate Wanted(nodes: map<PyStr, Node>, path: PyStr) {
    !HostGenerated(path) && !(path in nodes && nodes[path].Directory?)
  }

  /** A regular file that can be read. */
  predicate IsFile(nodes: map<PyStr, Node>, path: PyStr) {
    path in nodes && nodes[path].Regular? && nodes[path].readable
  }

  function WantedOne(nodes: map<PyStr, Node>, path: PyStr): seq<PyStr> { if Wanted(nodes, path) then [path] else [] }

  /** The paths in the order they are added. */
  function WantedOf(nodes: map<PyStr, Node>, paths: seq<PyStr>): seq<PyStr> {
    if paths == [] then []
    else WantedOne(nodes, paths[0]) + WantedOf(nodes, paths[1..])
  }

  function AllWanted(nodes: map<PyStr, Node>, walks: seq<Walk>): seq<PyStr> {
    if walks == [] then [] else WantedOf(nodes, walks[0].paths) + AllWanted(nodes, walks[1..])
  }

  predicate Available(walks: seq<Walk>) { forall i :: 0 <= i < |walks| ==> walks[i].isDirectory }

  /** The paths of the image's artifacts. */
  function ArtifactPaths(nodes: map<PyStr, Node>, walks: seq<Walk>): seq<PyStr> {
    BAKED_FILES + AllWanted(nodes, walks)
  }

  function ArtifactAt(nodes: map<PyStr, Node>, path: PyStr): Artifact
    requires IsFile(nodes, path)
  {
    Artifact(path, nodes[path].executable, nodes[path].sha256)
  }

  function ArtifactsOf(nodes: map<PyStr, Node>, paths: seq<PyStr>): (r: seq<Artifact>)
    requires forall i :: 0 <= i < |paths| ==> IsFile(nodes, paths[i])
    ensures |r| == |paths|
    ensures forall i :: 0 <= i < |r| ==> IsFile(nodes, paths[i]) && r[i] == ArtifactAt(nodes, paths[i])
  {
    seq(|paths|, i requires 0 <= i < |paths| && IsFile(nodes, paths[i]) => ArtifactAt(nodes, paths[i]))
  }

  lemma WalkWithin(nodes: map<PyStr, Node>, walks: seq<Walk>, i: nat)
    requires i < |walks|
    ensures forall p :: p in WantedOf(nodes, walks[i].paths) ==> p in AllWanted(nodes, walks)
  {
    forall p | p in WantedOf(nodes, walks[i].paths) ensures p in AllWanted(nodes, walks) { WalkIn(nodes, walks, i, p); }
  }

  /** Every artifact is there, and a regular file that can be read. */
  predicate Complete(nodes: map<PyStr, Node>, walks: seq<Walk>) {
    forall i :: 0 <= i < |ArtifactPaths(nodes, walks)| ==> IsFile(nodes, ArtifactPaths(nodes, walks)[i])
  }

  class Collector {
    var entries: seq<PyStr>
    ghost var added: seq<PyStr>
    const nodes: map<PyStr, Node>

    ghost predicate Valid()
      reads this
    {
      && (forall i :: 0 <= i < |added| ==> IsFile(nodes, added[i]))
      && entries == Texts(ArtifactsOf(nodes, added))
    }

    constructor (nodes: map<PyStr, Node>)
      ensures Valid() && added == [] && this.nodes == nodes
    {
      this.nodes := nodes;
      entries, added := [], [];
    }

    method Add(path: PyStr) returns (ok: bool)
      requires Valid()
      modifies this
      ensures Valid() && ok == IsFile(nodes, path)
      ensures added == if ok then old(added) + [path] else old(added)
    {
      if path !in nodes || !nodes[path].Regular? { return false; }
      if !nodes[path].readable { return false; }
      var artifact := Artifact(path, nodes[path].executable, nodes[path].sha256);
      entries := entries + [EntryText(artifact)];
      added := added + [path];
      ok := true;
    }

    /** One rglob loop. */
    method AddTree(paths: seq<PyStr>) returns (ok: bool)
      requires Valid()
      modifies this
      ensures Valid() && (ok <==> forall p :: p in WantedOf(nodes, paths) ==> IsFile(nodes, p))
      ensures ok ==> added == old(added) + WantedOf(nodes, paths)
    {
      for i := 0 to |paths|
        invariant Valid() && added == old(added) + WantedOf(nodes, paths[..i])
        invariant forall p :: p in WantedOf(nodes, paths[..i]) ==> IsFile(nodes, p)
      {
        WantedSnoc(nodes, paths, i);
        if Wanted(nodes, paths[i]) {
          ok := Add(paths[i]);
          if !ok {
            WantedIn(nodes, paths, i);
            return false;
          }
        }
      }
      assert paths[..|paths|] == paths;
      ok := true;
    }
  }

  lemma {:induction false} WantedConcat(nodes: map<PyStr, Node>, a: seq<PyStr>, b: seq<PyStr>)
    ensures WantedOf(nodes, a + b) == WantedOf(nodes, a) + WantedOf(nodes, b)
    decreases |a|
  {
    if a == [] {
      assert a + b == b;
    } else {
      assert (a + b)[1..] == a[1..] + b;
      WantedConcat(nodes, a[1..], b);
    }
  }

  lemma WantedSnoc(nodes: map<PyStr, Node>, paths: seq<PyStr>, i: nat)
    requires i < |paths|
    ensures WantedOf(nodes, paths[..i+1]) == WantedOf(nodes, paths[..i]) + WantedOne(nodes, paths[i])
  {
    assert paths[..i+1] == paths[..i] + [paths[i]];
    WantedConcat(nodes, paths[..i], [paths[i]]);
    assert WantedOf(nodes, [paths[i]][1..]) == [];
  }

  lemma {:induction false} WantedIn(nodes: map<PyStr, Node>, paths: seq<PyStr>, i: nat)
    requires i < |paths| && Wanted(nodes, paths[i])
    ensures paths[i] in WantedOf(nodes, paths)
    decreases |paths|
  {
    if i > 0 { WantedIn(nodes, paths[1..], i - 1); }
  }

  lemma {:induction false} AllWantedSnoc(nodes: map<PyStr, Node>, walks: seq<Walk>, i: nat)
    requires i < |walks|
    ensures AllWanted(nodes, walks[..i+1]) == AllWanted(nodes, walks[..i]) + WantedOf(nodes, walks[i].paths)
    decreases i
  {
    if i == 0 {
      assert walks[..1][1..] == [] && walks[..0] == [];
    } else {
      assert walks[..i+1][1..] == walks[1..][..i] && walks[..i][1..] == walks[1..][..i-1];
      AllWantedSnoc(nodes, walks[1..], i - 1);
    }
  }

  lemma {:induction false} WalkIn(nodes: map<PyStr, Node>, walks: seq<Walk>, i: nat, p: PyStr)
    requires i < |walks| && p in WantedOf(nodes, walks[i].paths)
    ensures p in AllWanted(nodes, walks)
    decreases |walks|
  {
    if i > 0 { WalkIn(nodes, walks[1..], i - 1, p); }
  }

  method AddFiles(c: Collector) returns (ok: bool)
    requires c.Valid() && c.added == []
    modifies c
    ensures c.Valid() && (ok <==> forall i :: 0 <= i < |BAKED_FILES| ==> IsFile(c.nodes, BAKED_FILES[i]))
    ensures ok ==> c.added == BAKED_FILES
  {
    for i := 0 to |BAKED_FILES|
      invariant c.Valid() && c.added == BAKED_FILES[..i]
      invariant forall k :: 0 <= k < i ==> IsFile(c.nodes, BAKED_FILES[k])
    {
      ok := c.Add(BAKED_FILES[i]);
      if !ok { return; }
    }
    ok := true;
  }

  method AddTrees(c: Collector, walks: seq<Walk>) returns (ok: bool)
    requires c.Valid()
    modifies c
    ensures c.Valid() && (ok <==> Available(walks) && forall p :: p in AllWanted(c.nodes, walks) ==> IsFile(c.nodes, p))
    ensures ok ==> c.added == old(c.added) + AllWanted(c.nodes, walks)
  {
    for i := 0 to |walks|
      invariant c.Valid() && c.added == old(c.added) + AllWanted(c.nodes, walks[..i])
      invariant forall k :: 0 <= k < i ==> walks[k].isDirectory
      invariant forall p :: p in AllWanted(c.nodes, walks[..i]) ==> IsFile(c.nodes, p)
    {
      if !walks[i].isDirectory { return false; }
      AllWantedSnoc(c.nodes, walks, i);
      WalkWithin(c.nodes, walks, i);
      ok := c.AddTree(walks[i].paths);
      if !ok { return; }
    }
    assert walks[..|walks|] == walks;
    ok := true;
  }

  lemma CompleteMeans(nodes: map<PyStr, Node>, walks: seq<Walk>)
    ensures Complete(nodes, walks) <==>
            && (forall i :: 0 <= i < |BAKED_FILES| ==> IsFile(nodes, BAKED_FILES[i]))
            && (forall p :: p in AllWanted(nodes, walks) ==> IsFile(nodes, p))
  {
    var all, trees := ArtifactPaths(nodes, walks), AllWanted(nodes, walks);
    if Complete(nodes, walks) {
      forall i | 0 <= i < |BAKED_FILES| ensures IsFile(nodes, BAKED_FILES[i]) { assert all[i] == BAKED_FILES[i]; }
      forall p | p in trees ensures IsFile(nodes, p) {
        var i :| 0 <= i < |trees| && trees[i] == p;
        assert all[|BAKED_FILES| + i] == p;
      }
    }
  }

  /** Every entry can be encoded. */
  predicate EncodableListing(nodes: map<PyStr, Node>, walks: seq<Walk>)
    requires Complete(nodes, walks)
  {
    EncodableAll(Texts(ArtifactsOf(nodes, ArtifactPaths(nodes, walks))))
  }

  /** The whole function up to the hash: None is a LockError, or the exception of a failed read or of a
      name that UTF-8 cannot encode. */
  method BakedSourcesStream(nodes: map<PyStr, Node>, walks: seq<Walk>) returns (r: Option<PyStr>)
    ensures r.Some? <==> Available(walks) && Complete(nodes, walks) && EncodableListing(nodes, walks)
    ensures r.Some? ==> Complete(nodes, walks) && r.value == Preimage(ArtifactsOf(nodes, ArtifactPaths(nodes, walks)))
  {
    CompleteMeans(nodes, walks);
    var c := new Collector(nodes);
    var ok := AddFiles(c);
    if !ok { return None; }
    ok := AddTrees(c, walks);
    if !ok { return None; }
    SortEncodable(c.entries);
    r := Feed(SortTexts(c.entries));
  }

  // ---------------------------------------------------------------- the digest identifies the image tree

  /** What goes into the image: for each path its executable bit and its hash. */
  function Image(nodes: map<PyStr, Node>, walks: seq<Walk>): map<PyStr, (bool, PyStr)>
    requires Complete(nodes, walks)
  {
    var paths := ArtifactPaths(nodes, walks);
    map i | 0 <= i < |paths| && IsFile(nodes, paths[i]) ::
      paths[i] := (nodes[paths[i]].executable, nodes[paths[i]].sha256)
  }

  /** Every path is enumerated once, and names and hashes are well formed. */
  predicate Enumerated(nodes: map<PyStr, Node>, walks: seq<Walk>) {
    Complete(nodes, walks) && Listing(ArtifactsOf(nodes, ArtifactPaths(nodes, walks)))
  }

  lemma ImageMeans(nodes: map<PyStr, Node>, walks: seq<Walk>, a: Artifact)
    requires Complete(nodes, walks)
    ensures a in ArtifactsOf(nodes, ArtifactPaths(nodes, walks)) <==>
            a.path in Image(nodes, walks) && Image(nodes, walks)[a.path] == (a.executable, a.sha256)
  {
    var paths := ArtifactPaths(nodes, walks);
    var all := ArtifactsOf(nodes, paths);
    if a in all {
      var i :| 0 <= i < |all| && all[i] == a;
      assert IsFile(nodes, paths[i]);
    }
    if a.path in Image(nodes, walks) && Image(nodes, walks)[a.path] == (a.executable, a.sha256) {
      var i :| 0 <= i < |paths| && IsFile(nodes, paths[i]) && paths[i] == a.path;
      assert all[i] == a;
    }
  }

  /** Whatever the order of enumeration, two trees give the same stream iff they have the same paths
      with the same executable bits and hashes. */
  lemma StreamDecides(nodes: map<PyStr, Node>, walks: seq<Walk>, nodes': map<PyStr, Node>, walks': seq<Walk>)
    requires Enumerated(nodes, walks) && Enumerated(nodes', walks')
    ensures var l := ArtifactsOf(nodes, ArtifactPaths(nodes, walks));
      var l' := ArtifactsOf(nodes', ArtifactPaths(nodes', walks'));
      Preimage(l) == Preimage(l') <==> Image(nodes, walks) == Image(nodes', walks')
  {
    var l, l' := ArtifactsOf(nodes, ArtifactPaths(nodes, walks)), ArtifactsOf(nodes', ArtifactPaths(nodes', walks'));
    PreimageDecides(l, l');
    forall a ensures a in l <==> InImage(Image(nodes, walks), a) { ImageMeans(nodes, walks, a); }
    forall a ensures a in l' <==> InImage(Image(nodes', walks'), a) { ImageMeans(nodes', walks', a); }
    ImagesAgree(Image(nodes, walks), Image(nodes', walks'));
  }

  lemma ImagesAgree(m: map<PyStr, (bool, PyStr)>, m': map<PyStr, (bool, PyStr)>)
    ensures (forall a :: InImage(m, a) <==> InImage(m', a)) <==> m == m'
  {
    if forall a :: InImage(m, a) <==> InImage(m', a) {
      forall p | p in m ensures p in m' && m'[p] == m[p] { assert InImage(m, Artifact(p, m[p].0, m[p].1)); }
      forall p | p in m' ensures p in m && m'[p] == m[p] { assert InImage(m', Artifact(p, m'[p].0, m'[p].1)); }
    }
  }

  predicate InImage(m: map<PyStr, (bool, PyStr)>, a: Artifact) {
    a.path in m && m[a.path] == (a.executable, a.sha256)
  }
}
