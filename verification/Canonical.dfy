// sort_keys: dictionaries are printed with their keys in code point order, at every depth.
module Canonical {
  import opened PyText
  import opened Json
  import opened JsonText

  // ---------------------------------------------------------------- the order of keys

  predicate Less(a: PyStr, b: PyStr) {
    if b == [] then false
    else if a == [] then true
    else a[0] < b[0] || (a[0] == b[0] && Less(a[1..], b[1..]))
  }

  lemma {:induction false} LessTotal(a: PyStr, b: PyStr)
    ensures Less(a, b) || Less(b, a) || a == b
    ensures Less(a, b) ==> !Less(b, a) && a != b
    decreases |a|
  {
    if a != [] && b != [] {
      LessTotal(a[1..], b[1..]);
      if a[0] == b[0] && a[1..] == b[1..] { assert a == [a[0]] + a[1..] == b; }
    }
  }

  lemma {:induction false} LessChain(a: PyStr, b: PyStr, c: PyStr)
    requires Less(a, b) && Less(b, c)
    ensures Less(a, c)
    decreases |a|
  {
    if a != [] && a[0] == b[0] == c[0] { LessChain(a[1..], b[1..], c[1..]); }
  }

  /** a and b agree up to i, where a ends or has the smaller code. */
  predicate SmallerAt(a: PyStr, b: PyStr, i: int) {
    0 <= i <= |a| && i < |b| && a[..i] == b[..i] && (i == |a| || a[i] < b[i])
  }

  /** The order of Python's str: a proper prefix first, else by the first code in which they differ. */
  lemma {:induction false} LessMeans(a: PyStr, b: PyStr)
    ensures Less(a, b) <==> exists i :: SmallerAt(a, b, i)
    decreases |a|
  {
    if a != [] && b != [] && a[0] == b[0] {
      LessMeans(a[1..], b[1..]);
      assert a == [a[0]] + a[1..] && b == [b[0]] + b[1..];
      forall i | SmallerAt(a[1..], b[1..], i) ensures SmallerAt(a, b, i + 1) {
        assert a[..i+1] == [a[0]] + a[1..][..i] && b[..i+1] == [b[0]] + b[1..][..i];
      }
      forall i | SmallerAt(a, b, i) ensures SmallerAt(a[1..], b[1..], i - 1) {
        assert a[1..][..i-1] == a[..i][1..] && b[1..][..i-1] == b[..i][1..];
      }
    } else if b != [] && (a == [] || a[0] < b[0]) {
      assert SmallerAt(a, b, 0);
    } else {
      forall i ensures !SmallerAt(a, b, i) {
        if a != [] && b != [] && 0 < i <= |a| && i < |b| { assert a[..i][0] == a[0] && b[..i][0] == b[0]; }
      }
    }
  }

  // ---------------------------------------------------------------- sorting members

  function Insert(m: Member, ms: seq<Member>): seq<Member> {
    if ms == [] || Less(m.key, ms[0].key) then [m] + ms else [ms[0]] + Insert(m, ms[1..])
  }

  function Sort(ms: seq<Member>): seq<Member> {
    if ms == [] then [] else Insert(ms[0], Sort(ms[1..]))
  }

  predicate Above(key: PyStr, ms: seq<Member>) { forall i :: 0 <= i < |ms| ==> Less(key, ms[i].key) }

  predicate Ascending(ms: seq<Member>) { ms == [] || (Above(ms[0].key, ms[1..]) && Ascending(ms[1..])) }

  predicate HasKey(ms: seq<Member>, key: PyStr) { exists i :: 0 <= i < |ms| && ms[i].key == key }

  predicate Distinct(ms: seq<Member>) { ms == [] || (!HasKey(ms[1..], ms[0].key) && Distinct(ms[1..])) }

  function Members(ms: seq<Member>): set<Member> { set i | 0 <= i < |ms| :: ms[i] }

  lemma MembersCons(m: Member, ms: seq<Member>)
    ensures Members([m] + ms) == {m} + Members(ms)
  {
    forall x | x in Members(ms) ensures x in Members([m] + ms) {
      var i :| 0 <= i < |ms| && ms[i] == x;
      assert ([m] + ms)[i + 1] == x;
    }
    assert ([m] + ms)[0] == m;
  }

  lemma {:induction false} InsertMeans(m: Member, ms: seq<Member>)
    requires Ascending(ms) && !HasKey(ms, m.key)
    ensures Ascending(Insert(m, ms)) && Members(Insert(m, ms)) == {m} + Members(ms)
    decreases |ms|
  {
    MembersCons(m, ms);
    if ms != [] {
      var head, rest := ms[0], ms[1..];
      assert ms == [head] + rest;
      MembersCons(head, rest);
      LessTotal(m.key, head.key);
      if Less(m.key, head.key) {
        assert ([m] + ms)[1..] == ms;
        forall i | 0 <= i < |ms| ensures Less(m.key, ms[i].key) {
          if i > 0 { assert ms[i] == rest[i-1]; LessChain(m.key, head.key, ms[i].key); }
        }
      } else {
        InsertMeans(m, rest);
        var more := Insert(m, rest);
        MembersCons(head, more);
        assert Insert(m, ms)[1..] == more;
        forall i | 0 <= i < |more| ensures Less(head.key, more[i].key) {
          assert more[i] in {m} + Members(rest);
        }
      }
    }
  }

  lemma SameKeys(a: seq<Member>, b: seq<Member>, key: PyStr)
    requires Members(a) <= Members(b)
    ensures HasKey(a, key) ==> HasKey(b, key)
  {
    if HasKey(a, key) {
      var i :| 0 <= i < |a| && a[i].key == key;
      assert a[i] in Members(b);
    }
  }

  lemma {:induction false} SortMeans(ms: seq<Member>)
    requires Distinct(ms)
    ensures Ascending(Sort(ms)) && Members(Sort(ms)) == Members(ms)
    decreases |ms|
  {
    if ms != [] {
      SortMeans(ms[1..]);
      assert ms == [ms[0]] + ms[1..];
      MembersCons(ms[0], ms[1..]);
      var rest := Sort(ms[1..]);
      SameKeys(rest, ms[1..], ms[0].key);
      InsertMeans(ms[0], rest);
    }
  }

  lemma NoMembers(ms: seq<Member>)
    ensures Members(ms) == {} <==> ms == []
  {
    if ms != [] { assert ms[0] in Members(ms); }
  }

  /** Two ascending lists of the same members are one list. */
  lemma {:induction false} AscendingUnique(a: seq<Member>, b: seq<Member>)
    requires Ascending(a) && Ascending(b) && Members(a) == Members(b)
    ensures a == b
    decreases |a|
  {
    NoMembers(a);
    NoMembers(b);
    if a != [] {
      assert a[0] in Members(b);
      assert b[0] in Members(a);
      HeadLeast(a, b[0]);
      HeadLeast(b, a[0]);
      LessTotal(a[0].key, b[0].key);
      assert a == [a[0]] + a[1..] && b == [b[0]] + b[1..];
      TailMembers(a);
      TailMembers(b);
      assert a[0] == b[0];
      AscendingUnique(a[1..], b[1..]);
    }
  }

  lemma HeadLeast(ms: seq<Member>, m: Member)
    requires Ascending(ms) && m in Members(ms)
    ensures ms != [] && (m == ms[0] || Less(ms[0].key, m.key))
  {
    var i :| 0 <= i < |ms| && ms[i] == m;
    if i > 0 { assert ms[1..][i-1] == m; }
  }

  lemma TailMembers(ms: seq<Member>)
    requires Ascending(ms) && ms != []
    ensures Members(ms[1..]) == Members(ms) - {ms[0]}
  {
    assert ms == [ms[0]] + ms[1..];
    MembersCons(ms[0], ms[1..]);
    if ms[0] in Members(ms[1..]) {
      var i :| 0 <= i < |ms[1..]| && ms[1..][i] == ms[0];
      LessTotal(ms[0].key, ms[1..][i].key);
    }
  }

  /** Sorting forgets the order of insertion and nothing else. */
  lemma SortForgetsOrder(a: seq<Member>, b: seq<Member>)
    requires Distinct(a) && Distinct(b)
    ensures Sort(a) == Sort(b) <==> Members(a) == Members(b)
  {
    SortMeans(a);
    SortMeans(b);
    if Members(a) == Members(b) { AscendingUnique(Sort(a), Sort(b)); }
  }

  // ---------------------------------------------------------------- every depth

  function Canon(v: Json): Json {
    match v
    case Arr(items) => Arr(CanonItems(items))
    case Obj(ms) => Obj(Sort(CanonMembers(ms)))
    case _ => v
  }

  function CanonItems(items: seq<Json>): (r: seq<Json>)
    ensures |r| == |items|
  {
    if items == [] then [] else [Canon(items[0])] + CanonItems(items[1..])
  }

  function CanonMembers(ms: seq<Member>): (r: seq<Member>)
    ensures |r| == |ms| && forall i :: 0 <= i < |r| ==> r[i].key == ms[i].key
  {
    if ms == [] then [] else var v := ms[0].value; [Member(ms[0].key, Canon(v))] + CanonMembers(ms[1..])
  }

  /** json.dumps with sort_keys. */
  function Dumps(v: Json): PyStr { Print(Canon(v)) }

  /** No object has a key twice. */
  predicate Unique(v: Json) {
    match v
    case Arr(items) => UniqueItems(items)
    case Obj(ms) => Distinct(ms) && UniqueMembers(ms)
    case _ => true
  }

  predicate UniqueItems(items: seq<Json>) { items == [] || (Unique(items[0]) && UniqueItems(items[1..])) }

  predicate UniqueMembers(ms: seq<Member>) {
    ms == [] || (var v := ms[0].value; Unique(v) && UniqueMembers(ms[1..]))
  }

  /** The same JSON value: arrays item by item, objects member by member in any order. */
  predicate Same(a: Json, b: Json)
    decreases a, 1
  {
    match a
    case Arr(items) => b.Arr? && SameItems(items, b.items)
    case Obj(ms) => b.Obj? && Covers(ms, b.members) && (forall j :: 0 <= j < |b.members| ==> SameIn(ms, b.members[j]))
    case _ => a == b
  }

  predicate SameItems(a: seq<Json>, b: seq<Json>)
    decreases a, 0
  {
    if a == [] || b == [] then a == [] && b == [] else Same(a[0], b[0]) && SameItems(a[1..], b[1..])
  }

  /** Every member of a has its like in b. */
  predicate Covers(a: seq<Member>, b: seq<Member>)
    decreases a, 0
  {
    a == [] || (
      && (var v := a[0].value; exists j :: 0 <= j < |b| && b[j].key == a[0].key && Same(v, b[j].value))
      && Covers(a[1..], b))
  }

  /** m has its like in a. */
  predicate SameIn(a: seq<Member>, m: Member)
    decreases a, 0
  {
    a != [] && (var v := a[0].value; (a[0].key == m.key && Same(v, m.value)) || SameIn(a[1..], m))
  }

  // ---------------------------------------------------------------- the canonical form decides sameness

  lemma {:induction false} CanonDistinct(ms: seq<Member>)
    ensures Distinct(CanonMembers(ms)) <==> Distinct(ms)
    decreases |ms|
  {
    if ms != [] {
      CanonDistinct(ms[1..]);
      var c := CanonMembers(ms);
      assert c[1..] == CanonMembers(ms[1..]);
      if HasKey(ms[1..], ms[0].key) {
        var i :| 0 <= i < |ms[1..]| && ms[1..][i].key == ms[0].key;
        assert c[1..][i].key == ms[0].key;
      }
    }
  }

  lemma {:induction false} CanonAt(ms: seq<Member>, i: nat)
    requires i < |ms|
    ensures CanonMembers(ms)[i] == Member(ms[i].key, Canon(ms[i].value))
    decreases |ms|
  {
    if i > 0 { CanonAt(ms[1..], i - 1); }
  }

  lemma {:induction false} UniqueAt(ms: seq<Member>, i: nat)
    requires i < |ms| && UniqueMembers(ms)
    ensures Unique(ms[i].value)
    decreases |ms|
  {
    if i > 0 { UniqueAt(ms[1..], i - 1); }
  }

  /** Two documents have the same canonical form iff they are the same JSON value. */
  lemma {:induction false} CanonDecides(a: Json, b: Json)
    requires Unique(a) && Unique(b)
    ensures Canon(a) == Canon(b) <==> Same(a, b)
    decreases a, 1
  {
    match a
    case Arr(items) => if b.Arr? { ItemsDecide(items, b.items); }
    case Obj(ms) => if b.Obj? { ObjectsDecide(ms, b.members); }
    case _ =>
  }

  lemma {:induction false} ItemsDecide(a: seq<Json>, b: seq<Json>)
    requires UniqueItems(a) && UniqueItems(b)
    ensures CanonItems(a) == CanonItems(b) <==> SameItems(a, b)
    decreases a, 0
  {
    if a != [] && b != [] {
      CanonDecides(a[0], b[0]);
      ItemsDecide(a[1..], b[1..]);
      assert CanonItems(a)[1..] == CanonItems(a[1..]) && CanonItems(b)[1..] == CanonItems(b[1..]);
    }
  }

  lemma {:induction false} ObjectsDecide(a: seq<Member>, b: seq<Member>)
    requires Distinct(a) && UniqueMembers(a) && Distinct(b) && UniqueMembers(b)
    ensures Sort(CanonMembers(a)) == Sort(CanonMembers(b)) <==> Same(Obj(a), Obj(b))
    decreases a, 2
  {
    CanonDistinct(a);
    CanonDistinct(b);
    SortForgetsOrder(CanonMembers(a), CanonMembers(b));
    CoversDecides(a, b);
    forall j | 0 <= j < |b| ensures SameIn(a, b[j]) <==> CanonMembers(b)[j] in Members(CanonMembers(a)) {
      UniqueAt(b, j);
      CanonAt(b, j);
      SameInDecides(a, b[j]);
    }
    SubsetByIndex(CanonMembers(b), Members(CanonMembers(a)));
  }

  lemma SubsetByIndex(ms: seq<Member>, s: set<Member>)
    ensures Members(ms) <= s <==> forall j :: 0 <= j < |ms| ==> ms[j] in s
  {
    if Members(ms) <= s {
      forall j | 0 <= j < |ms| ensures ms[j] in s { assert ms[j] in Members(ms); }
    }
  }

  lemma {:induction false} CoversDecides(a: seq<Member>, b: seq<Member>)
    requires UniqueMembers(a) && UniqueMembers(b)
    ensures Covers(a, b) <==> Members(CanonMembers(a)) <= Members(CanonMembers(b))
    decreases a, 1
  {
    if a != [] {
      var v := a[0].value;
      CoversDecides(a[1..], b);
      MembersCons(Member(a[0].key, Canon(v)), CanonMembers(a[1..]));
      forall j | 0 <= j < |b|
        ensures CanonMembers(b)[j] == Member(a[0].key, Canon(v)) <==> b[j].key == a[0].key && Same(v, b[j].value)
      {
        UniqueAt(b, j);
        CanonAt(b, j);
        CanonDecides(v, b[j].value);
      }
    }
  }

  lemma {:induction false} SameInDecides(a: seq<Member>, m: Member)
    requires UniqueMembers(a) && Unique(m.value)
    ensures SameIn(a, m) <==> Member(m.key, Canon(m.value)) in Members(CanonMembers(a))
    decreases a, 1
  {
    if a != [] {
      var v := a[0].value;
      CanonDecides(v, m.value);
      SameInDecides(a[1..], m);
      MembersCons(Member(a[0].key, Canon(v)), CanonMembers(a[1..]));
    }
  }

  // ---------------------------------------------------------------- the canonical text

  lemma {:induction false} PrintableAt(ms: seq<Member>)
    ensures PrintableMembers(ms) <==> forall i :: 0 <= i < |ms| ==> Paired(ms[i].key) && Printable(ms[i].value)
    decreases |ms|
  {
    if ms != [] {
      PrintableAt(ms[1..]);
      assert PrintableMembers(ms) ==> forall i :: 0 < i < |ms| ==> ms[i] == ms[1..][i-1];
      assert forall i :: 0 <= i < |ms[1..]| ==> ms[1..][i] == ms[i+1];
    }
  }

  lemma PrintableSet(a: seq<Member>, b: seq<Member>)
    requires PrintableMembers(a) && Members(b) <= Members(a)
    ensures PrintableMembers(b)
  {
    PrintableAt(a);
    PrintableAt(b);
    forall i | 0 <= i < |b| ensures Paired(b[i].key) && Printable(b[i].value) {
      assert b[i] in Members(a);
    }
  }

  lemma {:induction false} CanonPrintable(v: Json)
    requires Printable(v) && Unique(v)
    ensures Printable(Canon(v))
    decreases v, 1
  {
    match v
    case Arr(items) => CanonItemsPrintable(items);
    case Obj(ms) =>
      CanonMembersPrintable(ms);
      CanonDistinct(ms);
      SortMeans(CanonMembers(ms));
      PrintableSet(CanonMembers(ms), Sort(CanonMembers(ms)));
    case _ =>
  }

  lemma {:induction false} CanonItemsPrintable(items: seq<Json>)
    requires PrintableItems(items) && UniqueItems(items)
    ensures PrintableItems(CanonItems(items))
    decreases items, 0
  {
    if items != [] {
      CanonPrintable(items[0]);
      CanonItemsPrintable(items[1..]);
      assert CanonItems(items)[1..] == CanonItems(items[1..]);
    }
  }

  lemma {:induction false} CanonMembersPrintable(ms: seq<Member>)
    requires PrintableMembers(ms) && UniqueMembers(ms)
    ensures PrintableMembers(CanonMembers(ms))
    decreases ms, 0
  {
    if ms != [] {
      var v := ms[0].value;
      CanonPrintable(v);
      CanonMembersPrintable(ms[1..]);
      assert CanonMembers(ms)[1..] == CanonMembers(ms[1..]);
    }
  }

  /** The canonical text reads back as the canonical form of what was printed. */
  lemma DumpsReadsBack(v: Json)
    requires Printable(v) && Unique(v)
    ensures Loads(Dumps(v)) == Done(Canon(v), |Dumps(v)|)
  {
    CanonPrintable(v);
    RoundTrip(Canon(v));
  }

  /** Two values have the same canonical text iff they are the same JSON value. */
  lemma DumpsDecides(a: Json, b: Json)
    requires Printable(a) && Unique(a) && Printable(b) && Unique(b)
    ensures Dumps(a) == Dumps(b) <==> Same(a, b)
  {
    DumpsReadsBack(a);
    DumpsReadsBack(b);
    CanonDecides(a, b);
  }

  // ---------------------------------------------------------------- canonical forms are fixed

  lemma {:induction false} SortFixed(ms: seq<Member>)
    requires Ascending(ms)
    ensures Sort(ms) == ms
    decreases |ms|
  {
    if ms != [] {
      SortFixed(ms[1..]);
      assert ms == [ms[0]] + ms[1..];
    }
  }

  predicate Fixed(v: Json) { Canon(v) == v }

  lemma {:induction false} CanonFixed(v: Json)
    requires Unique(v)
    ensures Fixed(Canon(v))
    decreases v, 1
  {
    match v
    case Arr(items) => CanonItemsFixed(items);
    case Obj(ms) =>
      var c := CanonMembers(ms);
      CanonDistinct(ms);
      SortMeans(c);
      CanonMembersFixed(ms);
      forall i | 0 <= i < |Sort(c)| ensures Fixed(Sort(c)[i].value) {
        assert Sort(c)[i] in Members(c);
      }
      FixedMembers(Sort(c));
      SortFixed(Sort(c));
    case _ =>
  }

  lemma {:induction false} CanonItemsFixed(items: seq<Json>)
    requires UniqueItems(items)
    ensures CanonItems(CanonItems(items)) == CanonItems(items)
    decreases items, 0
  {
    if items != [] {
      CanonFixed(items[0]);
      CanonItemsFixed(items[1..]);
      assert CanonItems(items)[1..] == CanonItems(items[1..]);
    }
  }

  lemma {:induction false} CanonMembersFixed(ms: seq<Member>)
    requires UniqueMembers(ms)
    ensures forall i :: 0 <= i < |ms| ==> Fixed(CanonMembers(ms)[i].value)
    decreases ms, 0
  {
    if ms != [] {
      var v := ms[0].value;
      CanonFixed(v);
      CanonMembersFixed(ms[1..]);
      assert CanonMembers(ms)[1..] == CanonMembers(ms[1..]);
    }
  }

  lemma {:induction false} FixedMembers(ms: seq<Member>)
    requires forall i :: 0 <= i < |ms| ==> Fixed(ms[i].value)
    ensures CanonMembers(ms) == ms
    decreases |ms|
  {
    if ms != [] {
      assert Fixed(ms[0].value);
      assert forall i :: 0 <= i < |ms[1..]| ==> ms[1..][i] == ms[i+1];
      FixedMembers(ms[1..]);
    }
  }

  // ---------------------------------------------------------------- dictionaries

  lemma {:induction false} DictMeans(ms: seq<Member>, key: PyStr)
    requires Distinct(ms)
    ensures key in LastWins(ms) <==> HasKey(ms, key)
    ensures forall v :: Member(key, v) in Members(ms) <==> key in LastWins(ms) && LastWins(ms)[key] == v
    decreases |ms|
  {
    if ms != [] {
      var n := |ms| - 1;
      var rest, last := ms[..n], ms[n];
      DistinctInit(ms);
      DictMeans(rest, key);
      assert ms == rest + [last];
      forall v ensures Member(key, v) in Members(ms) <==> Member(key, v) in Members(rest) || Member(key, v) == last {
        if Member(key, v) in Members(ms) {
          var i :| 0 <= i < |ms| && ms[i] == Member(key, v);
          if i < n { assert rest[i] == ms[i]; }
        }
        if Member(key, v) in Members(rest) {
          var i :| 0 <= i < |rest| && rest[i] == Member(key, v);
          assert ms[i] == rest[i];
        }
        if Member(key, v) == last { assert ms[n] == last; }
      }
      forall i | 0 <= i < n ensures ms[i] == rest[i] {}
      SnocKey(rest, last, key);
      forall v | Member(key, v) in Members(rest) ensures HasKey(rest, key) {
        var i :| 0 <= i < |rest| && rest[i] == Member(key, v);
      }
    }
  }

  lemma SnocKey(rest: seq<Member>, last: Member, key: PyStr)
    ensures HasKey(rest + [last], key) <==> HasKey(rest, key) || key == last.key
  {
    if HasKey(rest, key) {
      var i :| 0 <= i < |rest| && rest[i].key == key;
      assert (rest + [last])[i].key == key;
    }
    assert (rest + [last])[|rest|] == last;
  }

  lemma {:induction false} DistinctInit(ms: seq<Member>)
    requires ms != [] && Distinct(ms)
    ensures Distinct(ms[..|ms|-1]) && !HasKey(ms[..|ms|-1], ms[|ms|-1].key)
    decreases |ms|
  {
    var n := |ms| - 1;
    if n > 0 {
      DistinctInit(ms[1..]);
      assert ms[1..][..n-1] == ms[..n][1..];
      assert ms[1..][n-1] == ms[n];
      SubKeys(ms[..n][1..], ms[1..]);
      assert !HasKey(ms[1..], ms[0].key);
      assert ms[..n] == [ms[0]] + ms[..n][1..];
      ConsKey(ms[0], ms[..n][1..], ms[n].key);
    }
  }

  lemma ConsKey(m: Member, ms: seq<Member>, key: PyStr)
    ensures HasKey([m] + ms, key) <==> m.key == key || HasKey(ms, key)
  {
    assert ([m] + ms)[0] == m;
    if HasKey(ms, key) {
      var i :| 0 <= i < |ms| && ms[i].key == key;
      assert ([m] + ms)[i+1].key == key;
    }
  }

  lemma SubKeys(a: seq<Member>, b: seq<Member>)
    requires |a| <= |b| && a == b[..|a|]
    ensures forall key :: HasKey(a, key) ==> HasKey(b, key)
  {
  }

  /** For objects without a repeated key, equal dictionaries are equal sets of members. */
  lemma DictsAgree(a: seq<Member>, b: seq<Member>)
    requires Distinct(a) && Distinct(b)
    ensures LastWins(a) == LastWins(b) <==> Members(a) == Members(b)
  {
    forall key ensures DictAt(a, key) && DictAt(b, key) {
      DictMeans(a, key);
      DictMeans(b, key);
    }
    if LastWins(a) == LastWins(b) {
      forall m ensures m in Members(a) <==> m in Members(b) {
        assert DictAt(a, m.key) && DictAt(b, m.key) && m == Member(m.key, m.value);
      }
    }
    if Members(a) == Members(b) {
      forall key ensures key in LastWins(a) <==> key in LastWins(b) {
        assert DictAt(a, key) && DictAt(b, key);
        SameKeys(a, b, key);
        SameKeys(b, a, key);
      }
      forall key | key in LastWins(a) ensures LastWins(a)[key] == LastWins(b)[key] {
        assert DictAt(a, key) && DictAt(b, key);
      }
    }
  }

  ghost predicate DictAt(ms: seq<Member>, key: PyStr) {
    && (key in LastWins(ms) <==> HasKey(ms, key))
    && (forall v :: Member(key, v) in Members(ms) <==> key in LastWins(ms) && LastWins(ms)[key] == v)
  }
}
