// validate_recovery_archive.py: the online member check and what it accepts.
module Archive {
  import opened PyText
  import opened ArchiveNames

  datatype Kind = Directory | Regular | Special

  /** A tar header and the bytes its data stream yields. */
  datatype Member = Member(raw: PyStr, kind: Kind, size: int, sparse: bool, content: seq<bv8>) {
    function Name(): PyStr { Normal(raw) }
    predicate IsRoot() { Normal(raw) == [] }
    predicate IsFile() { kind == Regular && !IsRoot() }
  }

  datatype Limits = Limits(archiveSize: int, maxEntries: int, maxMember: int, maxTotal: int, maxRatio: int) {
    /** What the command line requires of its four limits. */
    predicate Positive() { maxEntries > 0 && maxMember > 0 && maxTotal > 0 && maxRatio > 0 }
  }

  datatype Validation = Accepted(members: seq<Member>, total: int) | Rejected

  /** The entries that are extracted: all but the root ones. */
  function Entries(ms: seq<Member>): (r: seq<Member>)
    ensures forall m :: m in r <==> m in ms && !m.IsRoot()
  {
    if ms == [] then []
    else Entries(ms[..|ms|-1]) + if ms[|ms|-1].IsRoot() then [] else [ms[|ms|-1]]
  }

  function Total(ms: seq<Member>): int {
    if ms == [] then 0 else Total(ms[..|ms|-1]) + if ms[|ms|-1].IsFile() then ms[|ms|-1].size else 0
  }

  // ---------------------------------------------------------------- the order-free condition

  predicate MemberOk(m: Member, lim: Limits) {
    && GoodName(m.raw)
    && (m.IsRoot() ==> m.kind == Directory)
    && (!m.IsRoot() ==> match m.kind
        case Directory => m.size == 0
        case Regular => !m.sparse && 0 <= m.size <= lim.maxMember
        case Special => false)
  }

  predicate Clash(a: Member, b: Member) { !a.IsRoot() && !b.IsRoot() && a.Name() == b.Name() }

  predicate Beneath(a: Member, b: Member) { !b.IsRoot() && a.IsFile() && a.Name() in Parents(b.Name()) }

  /** Every member is sound, names are distinct, no file is a proper ancestor of another entry. */
  ghost predicate Consistent(ms: seq<Member>, lim: Limits) {
    && (forall m :: m in ms ==> MemberOk(m, lim))
    && (forall i, j :: 0 <= i < j < |ms| ==> !Clash(ms[i], ms[j]))
    && (forall a, b :: a in ms && b in ms ==> !Beneath(a, b))
  }

  ghost predicate WithinBudgets(ms: seq<Member>, lim: Limits) {
    && |ms| <= lim.maxEntries && Total(ms) <= lim.maxTotal
    && lim.archiveSize > 0 && Total(ms) <= lim.archiveSize * lim.maxRatio
  }

  // ---------------------------------------------------------------- the online check

  datatype Scan = Scan(
    validated: seq<Member>, seen: set<PyStr>, files: set<PyStr>, required: set<PyStr>, total: int, raw: int)

  datatype Outcome = Going(scan: Scan) | Failed

  function ParentSet(name: PyStr): set<PyStr> { set p | p in Parents(name) }

  /** The three lookups: a repeated name, a path through a file, a file over an existing path. */
  predicate Collides(st: Scan, m: Member) {
    || m.Name() in st.seen
    || ParentSet(m.Name()) * st.files != {}
    || (m.kind == Regular && m.Name() in st.required)
  }

  predicate Sized(st: Scan, m: Member, lim: Limits) {
    match m.kind
    case Directory => m.size == 0
    case Regular => !m.sparse && 0 <= m.size <= lim.maxMember && st.total + m.size <= lim.maxTotal
    case Special => false
  }

  function Record(st: Scan, m: Member): Scan {
    var name := m.Name();
    var file := m.kind == Regular;
    Scan(st.validated + [m], st.seen + {name}, if file then st.files + {name} else st.files,
      st.required + ParentSet(name), if file then st.total + m.size else st.total, st.raw + 1)
  }

  /** One round of the loop in validate_members. */
  function Examine(st: Scan, m: Member, lim: Limits): Outcome {
    if st.raw + 1 > lim.maxEntries || !GoodName(m.raw) then Failed
    else if m.IsRoot() then (if m.kind == Directory then Going(st.(raw := st.raw + 1)) else Failed)
    else if Collides(st, m) || !Sized(st, m, lim) then Failed
    else Going(Record(st, m))
  }

  function Run(ms: seq<Member>, lim: Limits): Outcome {
    if ms == [] then Going(Scan([], {}, {}, {}, 0, 0))
    else
      match Run(ms[..|ms|-1], lim)
      case Failed => Failed
      case Going(st) => Examine(st, ms[|ms|-1], lim)
  }

  method ValidateMembers(archive: seq<Member>, lim: Limits) returns (r: Validation)
    requires lim.Positive()
    ensures r.Accepted? <==> Consistent(archive, lim) && WithinBudgets(archive, lim)
    ensures r.Accepted? ==> r.members == Entries(archive) && r.total == Total(archive)
  {
    OnlineMeansOrderFree(archive, lim);
    var st := Scan([], {}, {}, {}, 0, 0);
    for k := 0 to |archive|
      invariant Run(archive[..k], lim) == Going(st)
    {
      var next := Examine(st, archive[k], lim);
      assert archive[..k+1][..k] == archive[..k];
      if next.Failed? {
        FailureStays(archive, lim, k + 1);
        return Rejected;
      }
      st := next.scan;
    }
    assert archive[..|archive|] == archive;
    if lim.archiveSize <= 0 || st.total > lim.archiveSize * lim.maxRatio { return Rejected; }
    return Accepted(st.validated, st.total);
  }

  lemma {:induction false} FailureStays(ms: seq<Member>, lim: Limits, k: nat)
    requires k <= |ms| && Run(ms[..k], lim).Failed?
    ensures Run(ms, lim).Failed?
    decreases |ms| - k
  {
    if k < |ms| {
      assert ms[..k+1][..k] == ms[..k];
      FailureStays(ms, lim, k + 1);
    } else {
      assert ms[..k] == ms;
    }
  }

  // What the three sets hold after a prefix.

  function Names(ms: seq<Member>): set<PyStr> {
    if ms == [] then {}
    else Names(ms[..|ms|-1]) + if ms[|ms|-1].IsRoot() then {} else {ms[|ms|-1].Name()}
  }

  function FileNames(ms: seq<Member>): set<PyStr> {
    if ms == [] then {}
    else FileNames(ms[..|ms|-1]) + if ms[|ms|-1].IsFile() then {ms[|ms|-1].Name()} else {}
  }

  function ParentNames(ms: seq<Member>): set<PyStr> {
    if ms == [] then {}
    else ParentNames(ms[..|ms|-1]) + if ms[|ms|-1].IsRoot() then {} else ParentSet(ms[|ms|-1].Name())
  }

  predicate Records(st: Scan, ms: seq<Member>) {
    && st.validated == Entries(ms) && st.total == Total(ms) && st.raw == |ms|
    && st.seen == Names(ms) && st.files == FileNames(ms) && st.required == ParentNames(ms)
  }

  lemma {:induction false} InNames(ms: seq<Member>, n: PyStr)
    ensures n in Names(ms) <==> exists m :: m in ms && !m.IsRoot() && m.Name() == n
    decreases |ms|
  {
    if ms != [] { InNames(ms[..|ms|-1], n); }
  }

  lemma {:induction false} InFileNames(ms: seq<Member>, n: PyStr)
    ensures n in FileNames(ms) <==> exists m :: m in ms && m.IsFile() && m.Name() == n
    decreases |ms|
  {
    if ms != [] { InFileNames(ms[..|ms|-1], n); }
  }

  lemma {:induction false} InParentNames(ms: seq<Member>, n: PyStr)
    ensures n in ParentNames(ms) <==> exists m :: m in ms && !m.IsRoot() && n in Parents(m.Name())
    decreases |ms|
  {
    if ms != [] { InParentNames(ms[..|ms|-1], n); }
  }

  /** What m must satisfy to extend a consistent list. */
  ghost predicate Joins(a: seq<Member>, m: Member, lim: Limits) {
    && MemberOk(m, lim)
    && (forall x :: x in a ==> !Clash(x, m))
    && (forall x :: x in a ==> !Beneath(x, m) && !Beneath(m, x))
  }

  lemma NotOwnParent(m: Member)
    ensures !Beneath(m, m)
  {
    ParentMeansPrefix(m.Name(), m.Name());
  }

  lemma ConsistentSnoc(a: seq<Member>, m: Member, lim: Limits)
    requires Consistent(a, lim) && Joins(a, m, lim)
    ensures Consistent(a + [m], lim)
  {
    var ms := a + [m];
    NotOwnParent(m);
    forall i, j | 0 <= i < j < |ms| ensures !Clash(ms[i], ms[j]) {
      if j == |a| { assert ms[i] in a; }
    }
  }

  lemma SnocConsistent(a: seq<Member>, m: Member, lim: Limits)
    requires Consistent(a + [m], lim)
    ensures Consistent(a, lim) && Joins(a, m, lim)
  {
    var ms := a + [m];
    assert ms[|a|] == m;
    forall x | x in a ensures x in ms && !Clash(x, m) {
      var i :| 0 <= i < |a| && a[i] == x;
      assert ms[i] == x;
      assert !Clash(ms[i], ms[|a|]);
    }
    forall i, j | 0 <= i < j < |a| ensures !Clash(a[i], a[j]) { assert !Clash(ms[i], ms[j]); }
  }

  lemma SeenMeans(a: seq<Member>, m: Member)
    requires !m.IsRoot()
    ensures m.Name() !in Names(a) <==> forall x :: x in a ==> !Clash(x, m)
  {
    InNames(a, m.Name());
  }

  lemma RequiredMeans(a: seq<Member>, m: Member)
    requires m.IsFile()
    ensures m.Name() !in ParentNames(a) <==> forall x :: x in a ==> !Beneath(m, x)
  {
    InParentNames(a, m.Name());
  }

  lemma FilesMean(a: seq<Member>, m: Member)
    requires !m.IsRoot()
    ensures ParentSet(m.Name()) * FileNames(a) == {} <==> forall x :: x in a ==> !Beneath(x, m)
  {
    forall p ensures p in FileNames(a) <==> exists x :: x in a && x.IsFile() && x.Name() == p { InFileNames(a, p); }
    if forall x :: x in a ==> !Beneath(x, m) {
      assert forall p :: p in ParentSet(m.Name()) ==> p !in FileNames(a);
    } else {
      var x :| x in a && Beneath(x, m);
      assert x.Name() in ParentSet(m.Name()) * FileNames(a);
    }
  }

  /** The three lookups of one round find nothing exactly when the entry joins the list so far. */
  lemma LookupsMeanJoins(a: seq<Member>, st: Scan, m: Member, lim: Limits)
    requires Records(st, a) && MemberOk(m, lim) && !m.IsRoot()
    ensures Joins(a, m, lim) <==> !Collides(st, m)
  {
    SeenMeans(a, m);
    FilesMean(a, m);
    if m.IsFile() { RequiredMeans(a, m); }
  }

  lemma RecordRecords(a: seq<Member>, st: Scan, m: Member)
    requires Records(st, a)
    ensures !m.IsRoot() ==> Records(Record(st, m), a + [m])
    ensures m.IsRoot() ==> Records(st.(raw := st.raw + 1), a + [m])
  {
    assert (a + [m])[..|a|] == a;
  }

  lemma ExamineMeans(a: seq<Member>, st: Scan, m: Member, lim: Limits)
    requires Records(st, a)
    ensures Examine(st, m, lim).Going? <==>
      && Joins(a, m, lim) && |a| + 1 <= lim.maxEntries
      && (m.IsFile() ==> Total(a) + m.size <= lim.maxTotal)
    ensures Examine(st, m, lim).Going? ==> Records(Examine(st, m, lim).scan, a + [m])
  {
    if Examine(st, m, lim).Going? { RecordRecords(a, st, m); }
    if m.IsRoot() {
      RootJoins(a, m, lim);
    } else {
      SizedMeans(st, m, lim);
      if MemberOk(m, lim) { LookupsMeanJoins(a, st, m, lim); }
    }
  }

  lemma RootJoins(a: seq<Member>, m: Member, lim: Limits)
    requires m.IsRoot()
    ensures Joins(a, m, lim) <==> GoodName(m.raw) && m.kind == Directory
  {
  }

  lemma SizedMeans(st: Scan, m: Member, lim: Limits)
    requires !m.IsRoot()
    ensures GoodName(m.raw) && Sized(st, m, lim) <==>
            MemberOk(m, lim) && (m.IsFile() ==> st.total + m.size <= lim.maxTotal)
  {
  }

  /** The online check with its three sets accepts a list exactly when the order-free condition and
      the two running budgets hold of it. */
  lemma {:induction false} OnlineMeansOrderFree(ms: seq<Member>, lim: Limits)
    requires lim.Positive()
    ensures Run(ms, lim).Going? <==> Consistent(ms, lim) && |ms| <= lim.maxEntries && Total(ms) <= lim.maxTotal
    ensures Run(ms, lim).Going? ==> Records(Run(ms, lim).scan, ms)
    decreases |ms|
  {
    if ms != [] {
      var a, m := ms[..|ms|-1], ms[|ms|-1];
      assert ms == a + [m];
      OnlineMeansOrderFree(a, lim);
      if Consistent(ms, lim) { SnocConsistent(a, m, lim); }
      if Run(a, lim).Going? {
        ExamineMeans(a, Run(a, lim).scan, m, lim);
        if Joins(a, m, lim) { ConsistentSnoc(a, m, lim); }
      }
    }
  }

  // ---------------------------------------------------------------- independence of order

  lemma {:induction false} TotalConcat(a: seq<Member>, b: seq<Member>)
    ensures Total(a + b) == Total(a) + Total(b)
    decreases |b|
  {
    if b == [] {
      assert a + b == a;
    } else {
      assert (a + b)[..|a + b|-1] == a + b[..|b|-1];
      TotalConcat(a, b[..|b|-1]);
    }
  }

  function Without(b: seq<Member>, i: nat): seq<Member>
    requires i < |b|
  {
    b[..i] + b[i+1..]
  }

  lemma TotalMiddle(c: seq<Member>, x: Member, d: seq<Member>)
    ensures Total(c + [x] + d) == Total(c + d) + Total([x])
  {
    TotalConcat(c + [x], d);
    TotalConcat(c, [x]);
    TotalConcat(c, d);
  }

  lemma TotalWithout(b: seq<Member>, i: nat)
    requires i < |b|
    ensures Total(b) == Total(Without(b, i)) + Total([b[i]])
  {
    AroundOne(b, i);
    TotalAround(b, b[..i], b[i], b[i+1..]);
  }

  lemma AroundOne<T>(b: seq<T>, i: nat)
    requires i < |b|
    ensures b == b[..i] + [b[i]] + b[i+1..]
  {
  }

  lemma TotalAround(b: seq<Member>, c: seq<Member>, x: Member, d: seq<Member>)
    requires b == c + [x] + d
    ensures Total(b) == Total(c + d) + Total([x])
  {
    TotalMiddle(c, x, d);
  }

  lemma BagWithout(b: seq<Member>, i: nat)
    requires i < |b|
    ensures multiset(Without(b, i)) == multiset(b) - multiset{b[i]}
  {
    assert b == b[..i] + ([b[i]] + b[i+1..]);
  }

  lemma {:induction false} TotalPermuted(a: seq<Member>, b: seq<Member>)
    requires multiset(a) == multiset(b)
    ensures Total(a) == Total(b)
    decreases |a|
  {
    if a != [] {
      assert a[0] in multiset(b);
      var i :| 0 <= i < |b| && b[i] == a[0];
      TotalWithout(a, 0);
      TotalWithout(b, i);
      BagWithout(a, 0);
      BagWithout(b, i);
      TotalPermuted(Without(a, 0), Without(b, i));
    } else {
      assert |multiset(b)| == 0;
    }
  }

  lemma TwoPlaces(s: seq<Member>, i: nat, j: nat)
    requires i < j < |s| && s[i] == s[j]
    ensures multiset(s)[s[i]] >= 2
  {
    assert s == s[..i] + [s[i]] + s[i+1..j] + [s[j]] + s[j+1..];
  }

  lemma {:induction false} TwoIndices(s: seq<Member>, x: Member, y: Member) returns (i: nat, j: nat)
    requires x in s && y in s && (x == y ==> multiset(s)[x] >= 2)
    ensures i < |s| && j < |s| && i != j && s[i] == x && s[j] == y
  {
    i :| 0 <= i < |s| && s[i] == x;
    if x == y {
      var rest := s[..i] + s[i+1..];
      assert s == s[..i] + [x] + s[i+1..];
      assert multiset(rest)[x] >= 1;
      assert x in rest;
      var k :| 0 <= k < |rest| && rest[k] == x;
      j := if k < i then k else k + 1;
    } else {
      j :| 0 <= j < |s| && s[j] == y;
    }
  }

  lemma ConsistentPermuted(a: seq<Member>, b: seq<Member>, lim: Limits)
    requires multiset(a) == multiset(b) && Consistent(a, lim)
    ensures Consistent(b, lim)
  {
    forall m | m in b ensures m in a { assert m in multiset(b); assert m in multiset(a); }
    forall i, j | 0 <= i < j < |b| ensures !Clash(b[i], b[j]) {
      if Clash(b[i], b[j]) {
        if b[i] == b[j] { TwoPlaces(b, i, j); }
        var p, q := TwoIndices(a, b[i], b[j]);
        assert Clash(a[p], a[q]) && Clash(a[q], a[p]);
      }
    }
  }

  /** Whether a list is accepted depends only on which members it holds, not on their order. */
  lemma AcceptanceOrderFree(a: seq<Member>, b: seq<Member>, lim: Limits)
    requires multiset(a) == multiset(b)
    ensures Consistent(a, lim) && WithinBudgets(a, lim) <==> Consistent(b, lim) && WithinBudgets(b, lim)
  {
    TotalPermuted(a, b);
    assert |multiset(a)| == |a| && |multiset(b)| == |b|;
    if Consistent(a, lim) { ConsistentPermuted(a, b, lim); }
    if Consistent(b, lim) { ConsistentPermuted(b, a, lim); }
  }
}
