// A payload handed in again: the canonical argument text is a fixed point of validation.
module CanonicalRetry {
  import opened PyText
  import opened Json
  import opened JsonText
  import opened Canonical
  import opened JsonArguments
  import opened Options
  import opened SplitPairs
  import opened WorkflowArgs
  import opened WorkflowPayload

  predicate IsCapital(c: Code) { 65 <= c <= 90 }

  /** What is known of str.lower and DOMAIN_RE: lower() leaves no ASCII capital and leaves other ASCII
      text alone; an accepted domain has no white space and does not end with a dot. */
  ghost predicate DomainRules(r: Rules) { (forall v :: LowerAt(r, v)) && (forall v :: DomainAt(r, v)) }

  predicate NoCapital(v: PyStr) { forall i :: 0 <= i < |v| ==> !IsCapital(v[i]) }

  predicate LowerAt(r: Rules, v: PyStr) { NoCapital(r.lower(v)) && (Ascii(v) && NoCapital(v) ==> r.lower(v) == v) }

  predicate DomainAt(r: Rules, v: PyStr) {
    r.domain(v) ==> v != [] && v[|v|-1] != DOT && forall i :: 0 <= i < |v| ==> !IsPySpace(v[i])
  }

  // ---------------------------------------------------------------- text normalisers

  lemma {:induction false} LstripStops(v: PyStr)
    ensures Lstrip(v) != [] ==> !IsPySpace(Lstrip(v)[0])
  {
    if v != [] && IsPySpace(v[0]) { LstripStops(v[1..]); }
  }

  lemma {:induction false} RstripStops(v: PyStr)
    ensures Rstrip(v) != [] ==> !IsPySpace(Rstrip(v)[|Rstrip(v)|-1]) && v != [] && Rstrip(v)[0] == v[0]
    decreases |v|
  {
    if v != [] && IsPySpace(v[|v|-1]) { RstripStops(v[..|v|-1]); }
  }

  lemma StripTwice(v: PyStr)
    ensures Strip(Strip(v)) == Strip(v)
  {
    LstripStops(v);
    RstripStops(Lstrip(v));
  }

  lemma {:induction false} DotsPrefix(v: PyStr)
    ensures RstripDots(v) <= v
    decreases |v|
  {
    if v != [] && v[|v|-1] == DOT { DotsPrefix(v[..|v|-1]); }
  }

  lemma DomainFixed(r: Rules, x: PyStr)
    requires AsciiRules(r) && DomainRules(r) && r.domain(RstripDots(r.lower(x)))
    ensures var d := RstripDots(r.lower(x)); RstripDots(r.lower(Strip(d))) == d
  {
    var d := RstripDots(r.lower(x));
    DotsPrefix(r.lower(x));
    assert LowerAt(r, x) && LowerAt(r, d) && DomainAt(r, d) && DomainAscii(r, d);
    forall i | 0 <= i < |d| ensures !IsCapital(d[i]) { assert d[i] == r.lower(x)[i]; }
    assert !IsPySpace(d[0]) && !IsPySpace(d[|d|-1]);
    assert Strip(d) == d;
  }

  // ---------------------------------------------------------------- canonical documents

  lemma {:induction false} CanonUnique(v: Json)
    requires Unique(v)
    ensures Unique(Canon(v))
    decreases v, 1
  {
    match v
    case Arr(items) => CanonItemsUnique(items);
    case Obj(ms) =>
      var c := CanonMembers(ms);
      CanonDistinct(ms);
      SortMeans(c);
      AscendingDistinct(Sort(c));
      CanonMembersUnique(ms);
      forall i | 0 <= i < |Sort(c)| ensures Unique(Sort(c)[i].value) { assert Sort(c)[i] in Members(c); }
      EachUnique(Sort(c));
    case _ =>
  }

  lemma {:induction false} CanonItemsUnique(items: seq<Json>)
    requires UniqueItems(items)
    ensures UniqueItems(CanonItems(items))
    decreases items, 0
  {
    if items != [] {
      CanonUnique(items[0]);
      CanonItemsUnique(items[1..]);
      assert CanonItems(items)[1..] == CanonItems(items[1..]);
    }
  }

  lemma {:induction false} CanonMembersUnique(ms: seq<Member>)
    requires UniqueMembers(ms)
    ensures forall m :: m in Members(CanonMembers(ms)) ==> Unique(m.value)
    decreases ms, 0
  {
    if ms != [] {
      var v := ms[0].value;
      CanonUnique(v);
      CanonMembersUnique(ms[1..]);
      MembersCons(Member(ms[0].key, Canon(v)), CanonMembers(ms[1..]));
    }
  }

  lemma {:induction false} EachUnique(ms: seq<Member>)
    requires forall i :: 0 <= i < |ms| ==> Unique(ms[i].value)
    ensures UniqueMembers(ms)
    decreases |ms|
  {
    if ms != [] {
      assert forall i :: 0 <= i < |ms[1..]| ==> ms[1..][i] == ms[i+1];
      EachUnique(ms[1..]);
    }
  }

  /** repr() of what repr() printed is that text again. */
  ghost predicate ReprStable(r: Rules) { forall x :: ReprAgain(r, x) }

  predicate ReprAgain(r: Rules, x: PyStr) { r.repr(r.repr(x)) == r.repr(x) }

  lemma {:induction false} ReprsAgain(r: Rules, v: Json)
    requires ReprStable(r)
    ensures Reprs(r, Reprs(r, v)) == Reprs(r, v)
    decreases v, 1
  {
    match v
    case Float(lexeme) => assert ReprAgain(r, lexeme);
    case Arr(items) => ReprItemsAgain(r, items);
    case Obj(ms) => ReprMembersAgain(r, ms);
    case _ =>
  }

  lemma {:induction false} ReprItemsAgain(r: Rules, items: seq<Json>)
    requires ReprStable(r)
    ensures ReprItems(r, ReprItems(r, items)) == ReprItems(r, items)
    decreases items, 0
  {
    if items != [] {
      ReprsAgain(r, items[0]);
      ReprItemsAgain(r, items[1..]);
      assert ReprItems(r, items)[1..] == ReprItems(r, items[1..]);
    }
  }

  lemma {:induction false} ReprMembersAgain(r: Rules, ms: seq<Member>)
    requires ReprStable(r)
    ensures ReprMembers(r, ReprMembers(r, ms)) == ReprMembers(r, ms)
    decreases ms, 0
  {
    if ms != [] {
      var v := ms[0].value;
      ReprsAgain(r, v);
      ReprMembersAgain(r, ms[1..]);
      assert ReprMembers(r, ms)[1..] == ReprMembers(r, ms[1..]);
    }
  }

  /** What the normalised text of a JSON argument parses to: the canonical document, split surrogate
      pairs joined. */
  function Stored(r: Rules, v: PyStr): Json
    requires Loads(v).Done?
  {
    Fuse(Canon(Read(r, v)))
  }

  /** Joining the pairs makes no two keys equal and leaves every object sorted. */
  predicate Settles(r: Rules, v: PyStr)
    requires Loads(v).Done?
  {
    Unique(Stored(r, v)) && Fixed(Stored(r, v))
  }

  lemma StoredReprs(r: Rules, v: PyStr)
    requires ReprStable(r) && Loads(v).Done?
    ensures Reprs(r, Canon(Stored(r, v))) == Canon(Stored(r, v))
  {
    var doc := Read(r, v);
    ReprsAgain(r, Loads(v).value);
    CanonReprs(r, doc);
    FuseReprs(r, Canon(doc));
    CanonReprs(r, Stored(r, v));
  }

  lemma StoredText(r: Rules, v: PyStr)
    requires ReprRules(r) && Loads(v).Done? && Unique(Loads(v).value)
    ensures var text := Print(Reprs(r, Canon(Loads(v).value)));
      && Loads(text) == Done(Stored(r, v), |text|) && text == Print(Stored(r, v))
      && Printable(Stored(r, v))
      && (HasConstant(Stored(r, v)) <==> HasConstant(Loads(v).value) || Overflows(r, Loads(v).value))
  {
    ReadFacts(r, v);
    CanonStorable(Read(r, v));
    PrintDecides(Canon(Read(r, v)), Canon(Read(r, v)));
    FusePrint(Canon(Read(r, v)));
    FusePrintable(Canon(Read(r, v)));
    FuseConstant(Canon(Read(r, v)));
    CanonConstant(Read(r, v));
    ReprsConstant(r, Loads(v).value);
  }

  /** Printing the document again gives the same text exactly when it is canonical. */
  lemma ReprintFixed(r: Rules, v: PyStr)
    requires ReprRules(r) && ReprStable(r) && Loads(v).Done? && Unique(Loads(v).value) && Unique(Stored(r, v))
    ensures Print(Reprs(r, Canon(Stored(r, v)))) == Print(Stored(r, v)) <==> Fixed(Stored(r, v))
  {
    StoredText(r, v);
    StoredReprs(r, v);
    CanonPrintable(Stored(r, v));
    RoundTrip(Stored(r, v));
    RoundTrip(Canon(Stored(r, v)));
  }

  lemma ObjectTextFixed(r: Rules, v: PyStr)
    requires ReprRules(r) && ReprStable(r) && ObjectText(r, v).Some?
    ensures ObjectText(r, ObjectText(r, v).value) == ObjectText(r, v) <==>
            Settles(r, v) && !Overflows(r, Loads(v).value)
  {
    StoredText(r, v);
    if Unique(Stored(r, v)) { ReprintFixed(r, v); }
  }

  lemma CitationsTextFixed(r: Rules, v: PyStr)
    requires ReprRules(r) && ReprStable(r) && CitationsText(r, v).Some?
    ensures CitationsText(r, CitationsText(r, v).value) == CitationsText(r, v) <==> Settles(r, v)
  {
    StoredText(r, v);
    StoredObjects(r, v);
    if Unique(Stored(r, v)) { ReprintFixed(r, v); }
  }

  /** Arguments without split pairs settle. */
  lemma NoSplitsSettle(r: Rules, v: PyStr)
    requires ReprRules(r) && Loads(v).Done? && Unique(Loads(v).value) && NoSplits(Loads(v).value)
    ensures Settles(r, v)
  {
    ReadFacts(r, v);
    ReadPrintable(r, v);
    CanonPrintable(Read(r, v));
    PrintableFused(Canon(Read(r, v)));
    CanonUnique(Read(r, v));
    CanonFixed(Read(r, v));
  }

  lemma StoredObjects(r: Rules, v: PyStr)
    requires Loads(v).Done? && Loads(v).value.Arr? && AllObjects(Loads(v).value.items)
    ensures Stored(r, v).Arr? && AllObjects(Stored(r, v).items)
  {
    var items := Read(r, v).items;
    ReprItemsAt(r, Loads(v).value.items);
    forall i | 0 <= i < |items| ensures CanonItems(items)[i].Obj? { CanonItemAt(items, i); }
    FuseItemsAt(CanonItems(items));
  }

  lemma {:induction false} FuseItemsAt(items: seq<Json>)
    ensures |FuseItems(items)| == |items|
    ensures forall i :: 0 <= i < |items| && items[i].Obj? ==> FuseItems(items)[i].Obj?
    decreases |items|
  {
    if items != [] {
      FuseItemsAt(items[1..]);
      assert forall i :: 0 < i < |items| ==> items[1..][i-1] == items[i];
    }
  }

  lemma {:induction false} ReprItemsAt(r: Rules, items: seq<Json>)
    ensures |ReprItems(r, items)| == |items|
    ensures forall i :: 0 <= i < |items| && items[i].Obj? ==> ReprItems(r, items)[i].Obj?
    decreases |items|
  {
    if items != [] {
      ReprItemsAt(r, items[1..]);
      assert forall i :: 0 < i < |items| ==> items[1..][i-1] == items[i];
    }
  }

  lemma {:induction false} CanonItemAt(items: seq<Json>, i: nat)
    requires i < |items|
    ensures CanonItems(items)[i] == Canon(items[i])
    decreases |items|
  {
    if i > 0 { CanonItemAt(items[1..], i - 1); }
  }

  // ---------------------------------------------------------------- one argument

  predicate IsCitations(w: Workflow, key: PyStr) { w.MemoRecord? && key == CITATIONS_JSON }

  /** A JSON argument settles, and no float of an object argument overflows. */
  predicate Settled(r: Rules, w: Workflow, m: Member) {
    m.value.Str? && (IsCitations(w, m.key) || m.key in Names(ObjectNames(w))) ==>
      && Loads(m.value.text).Done? && Settles(r, m.value.text)
      && (m.key in Names(ObjectNames(w)) ==> !Overflows(r, Loads(m.value.text).value))
  }

  /** What is known of the abstract rules. */
  ghost predicate SoundRules(r: Rules) { AsciiRules(r) && DomainRules(r) && ReprRules(r) && ReprStable(r) }

  /** No check but its own concerns an argument that is rewritten. */
  lemma RewrittenUnchecked(r: Rules, w: Workflow, key: PyStr, v: PyStr)
    requires RewrittenName(key)
    ensures Shape(r, w, key, v)
  {
    if key in BIGINT_KEYS || key == FLOW_REVISION { IdentifierNames(key); }
  }

  predicate Rewritten(w: Workflow, key: PyStr) {
    key == SOURCE_URI || key == CITATIONS_JSON || key == COMPANY_DOMAIN || key in Names(ObjectNames(w))
  }

  lemma RewriteFixed(r: Rules, w: Workflow, m: Member)
    requires SoundRules(r) && m.value.Str? && Rewrite(r, w, m.key, m.value.text).Some?
    ensures var n := Rewrite(r, w, m.key, m.value.text).value;
      Rewrite(r, w, m.key, n) == Some(n) <==> Settled(r, w, m)
  {
    var key, v := m.key, m.value.text;
    if (w.SourceWatch? || w.SourceUnwatch?) && key == SOURCE_URI {
      StripTwice(v);
    } else if w.MemoRecord? && key == CITATIONS_JSON {
      CitationsTextFixed(r, v);
    } else if HasDomain(w) && key == COMPANY_DOMAIN {
      DomainFixed(r, Strip(v));
    } else if key in Names(ObjectNames(w)) {
      ObjectTextFixed(r, v);
    }
  }

  /** A normalised argument is normalised to itself exactly when it is settled. */
  lemma NormalFixed(r: Rules, w: Workflow, m: Member)
    requires SoundRules(r) && Fine(r, w, m)
    ensures var n := Normal(r, w, m.key, m.value.text).value;
      Normal(r, w, m.key, n) == Some(n) <==> Settled(r, w, m)
  {
    RewriteFixed(r, w, m);
    if Rewritten(w, m.key) {
      RewrittenNames(w, m.key);
      RewrittenUnchecked(r, w, m.key, Normal(r, w, m.key, m.value.text).value);
    }
  }

  // ---------------------------------------------------------------- all arguments

  lemma SameKeySets(a: seq<Member>, b: seq<Member>)
    requires Members(a) == Members(b)
    ensures Keys(a) == Keys(b)
  {
    forall k ensures k in Keys(a) <==> k in Keys(b) {
      SameKeys(a, b, k);
      SameKeys(b, a, k);
      assert k in Keys(a) <==> HasKey(a, k);
      assert k in Keys(b) <==> HasKey(b, k);
    }
  }

  lemma NormalisedKeys(r: Rules, w: Workflow, ms: seq<Member>)
    ensures Keys(Normalised(r, w, ms)) == Keys(ms)
  {
    var n := Normalised(r, w, ms);
    forall i | 0 <= i < |ms| ensures n[i].key == ms[i].key {}
    forall k ensures k in Keys(n) <==> k in Keys(ms) {
      KeyCarried(n, ms, k);
      KeyCarried(ms, n, k);
      assert k in Keys(n) <==> HasKey(n, k);
      assert k in Keys(ms) <==> HasKey(ms, k);
    }
  }

  /** JSON arguments are settled, and the normalised values are within the limits on one value. */
  predicate Retriable(r: Rules, w: Workflow, ms: seq<Member>) {
    forall i :: 0 <= i < |ms| ==> Settled(r, w, ms[i]) && Basic(NormalMember(r, w, ms[i]).value)
  }

  /** Each normalised argument is sound and its own normal form. */
  lemma EachFixed(r: Rules, w: Workflow, ms: seq<Member>, m: Member)
    requires SoundRules(r) && Accepts(r, w, ms)
    requires Retriable(r, w, ms) && m in Members(Normalised(r, w, ms))
    ensures Fine(r, w, m) && NormalMember(r, w, m) == m
  {
    var n := Normalised(r, w, ms);
    var i :| 0 <= i < |n| && n[i] == m;
    assert Fine(r, w, ms[i]) && Settled(r, w, ms[i]) && Basic(n[i].value);
    NormalFixed(r, w, ms[i]);
  }

  lemma SortedAccepted(r: Rules, w: Workflow, ms: seq<Member>)
    requires SoundRules(r) && Accepts(r, w, ms) && Retriable(r, w, ms)
    requires Faithful(Normalised(r, w, ms))
    ensures Accepts(r, w, Sort(Normalised(r, w, ms)))
  {
    var sorted := Sort(Normalised(r, w, ms));
    SortFaithful(Normalised(r, w, ms));
    SameKeySets(sorted, Normalised(r, w, ms));
    NormalisedKeys(r, w, ms);
    forall i | 0 <= i < |sorted| ensures Fine(r, w, sorted[i]) {
      assert sorted[i] in Members(sorted);
      EachFixed(r, w, ms, sorted[i]);
    }
  }

  lemma SortedNormal(r: Rules, w: Workflow, ms: seq<Member>)
    requires SoundRules(r) && Accepts(r, w, ms) && Retriable(r, w, ms)
    requires Faithful(Normalised(r, w, ms))
    ensures Normalised(r, w, Sort(Normalised(r, w, ms))) == Sort(Normalised(r, w, ms))
  {
    var sorted := Sort(Normalised(r, w, ms));
    SortFaithful(Normalised(r, w, ms));
    forall i | 0 <= i < |sorted| ensures Normalised(r, w, sorted)[i] == sorted[i] {
      assert sorted[i] in Members(sorted);
      EachFixed(r, w, ms, sorted[i]);
    }
  }

  lemma SortedDumps(n: seq<Member>)
    requires Faithful(n)
    ensures Dumps(Obj(Sort(n))) == Dumps(Obj(n))
  {
    SortFaithful(n);
    SortMeans(n);
    forall i | 0 <= i < |n| ensures Fixed(n[i].value) {}
    forall i | 0 <= i < |Sort(n)| ensures Fixed(Sort(n)[i].value) {}
    FixedMembers(n);
    FixedMembers(Sort(n));
    SortFixed(Sort(n));
  }

  lemma {:induction false} DistinctAt(ms: seq<Member>, i: nat, j: nat)
    requires Distinct(ms) && i < |ms| && j < |ms| && i != j
    ensures ms[i].key != ms[j].key
    decreases |ms|
  {
    if i > 0 && j > 0 { DistinctAt(ms[1..], i - 1, j - 1); }
    else if i > 0 { assert ms[1..][i-1].key != ms[0].key; }
    else if j > 0 { assert ms[1..][j-1].key != ms[0].key; }
  }

  /** Normalising every member gives the same dictionary only if it changes none of them. */
  lemma MemberFixed(r: Rules, w: Workflow, n: seq<Member>, sorted: seq<Member>, i: nat)
    requires Distinct(n) && i < |n| && Members(sorted) == Members(n)
    requires Members(Normalised(r, w, sorted)) == Members(n)
    ensures NormalMember(r, w, n[i]) == n[i] && n[i] in Members(sorted)
  {
    assert n[i] in Members(n);
    var j :| 0 <= j < |sorted| && sorted[j] == n[i];
    assert Normalised(r, w, sorted)[j] in Members(n);
    var k :| 0 <= k < |n| && n[k] == NormalMember(r, w, n[i]);
    if k != i { DistinctAt(n, i, k); }
  }

  lemma FineAt(r: Rules, w: Workflow, sorted: seq<Member>, m: Member)
    requires Accepts(r, w, sorted) && m in Members(sorted)
    ensures Fine(r, w, m)
  {
  }

  lemma FixedSettled(r: Rules, w: Workflow, m: Member)
    requires SoundRules(r) && Fine(r, w, m)
    requires Fine(r, w, NormalMember(r, w, m)) && NormalMember(r, w, NormalMember(r, w, m)) == NormalMember(r, w, m)
    ensures Settled(r, w, m)
  {
    NormalFixed(r, w, m);
  }

  lemma FixedRetriable(r: Rules, w: Workflow, raw: PyStr)
    requires SoundRules(r) && Accepted(r, w, raw)
    requires var payload := Payload(r, w, Args(raw).value);
      Accepted(r, w, payload) && Payload(r, w, Args(payload).value) == payload
    ensures Retriable(r, w, Args(raw).value)
  {
    var ms := Args(raw).value;
    var n := Normalised(r, w, ms);
    var payload := Payload(r, w, ms);
    NormalisedFaithful(r, w, raw);
    PayloadReadsBack(r, w, raw);
    SortFaithful(n);
    NormalisedFaithful(r, w, payload);
    FaithfulDecides(Normalised(r, w, Sort(n)), n);
    DictsAgree(Normalised(r, w, Sort(n)), n);
    forall i | 0 <= i < |ms| ensures Settled(r, w, ms[i]) && Basic(NormalMember(r, w, ms[i]).value) {
      MemberFixed(r, w, n, Sort(n), i);
      FineAt(r, w, Sort(n), n[i]);
      assert Fine(r, w, ms[i]);
      FixedSettled(r, w, ms[i]);
    }
  }

  lemma RetriableFixed(r: Rules, w: Workflow, raw: PyStr)
    requires SoundRules(r) && Accepted(r, w, raw)
    requires Retriable(r, w, Args(raw).value) && Fits(Payload(r, w, Args(raw).value))
    ensures var payload := Payload(r, w, Args(raw).value);
      Accepted(r, w, payload) && Payload(r, w, Args(payload).value) == payload
  {
    var ms := Args(raw).value;
    NormalisedFaithful(r, w, raw);
    PayloadReadsBack(r, w, raw);
    SortedAccepted(r, w, ms);
    SortedNormal(r, w, ms);
    SortedDumps(Normalised(r, w, ms));
  }

  /** Handed in again, a payload is accepted and is its own payload, so that the retry has the same
      digest, exactly when its JSON arguments are settled and no escape or re-printing has pushed a
      value or the whole over its size limit. */
  lemma PayloadFixed(r: Rules, w: Workflow, raw: PyStr)
    requires SoundRules(r) && Accepted(r, w, raw)
    ensures var payload := Payload(r, w, Args(raw).value);
      Accepted(r, w, payload) && Payload(r, w, Args(payload).value) == payload <==>
      Fits(payload) && Retriable(r, w, Args(raw).value)
  {
    var ms := Args(raw).value;
    var payload := Payload(r, w, ms);
    if Fits(payload) && Retriable(r, w, ms) {
      RetriableFixed(r, w, raw);
    }
    if Accepted(r, w, payload) && Payload(r, w, Args(payload).value) == payload {
      FixedRetriable(r, w, raw);
    }
  }
}
