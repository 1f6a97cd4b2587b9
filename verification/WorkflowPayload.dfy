// The canonical argument text: what it identifies, and the digest the runner injects into it.
module WorkflowPayload {
  import opened PyText
  import opened Json
  import opened JsonText
  import opened Canonical
  import opened Options
  import opened WorkflowArgs

  /** What the abstract rules are known to do: DOMAIN_RE and repr() of a float stay within ASCII. */
  ghost predicate AsciiRules(r: Rules) { (forall v :: DomainAscii(r, v)) && (forall x :: ReprAscii(r, x)) }

  predicate DomainAscii(r: Rules, v: PyStr) { r.domain(v) ==> Ascii(v) }

  predicate ReprAscii(r: Rules, x: PyStr) { Ascii(r.repr(x)) }

  // ---------------------------------------------------------------- the method

  /** What the rewriting statements make of one argument. */
  method RewriteArgument(r: Rules, w: Workflow, key: PyStr, text: PyStr) returns (n: Option<PyStr>)
    ensures n == Rewrite(r, w, key, text)
  {
    if (w.SourceWatch? || w.SourceUnwatch?) && key == SOURCE_URI {
      var uri := Strip(text);
      return if r.uri(uri) then Some(uri) else None;
    }
    if w.MemoRecord? && key == CITATIONS_JSON {
      n := CitationsText(r, text);
      return;
    }
    if HasDomain(w) && key == COMPANY_DOMAIN {
      var domain := RstripDots(r.lower(Strip(text)));
      return if r.domain(domain) then Some(domain) else None;
    }
    if key in Names(ObjectNames(w)) {
      n := ObjectText(r, text);
      return;
    }
    n := Some(text);
  }

  /** The loops that look at every value and change none. */
  method CheckArguments(r: Rules, w: Workflow, args: seq<Member>) returns (ok: bool)
    ensures ok <==> forall i :: 0 <= i < |args| ==> Checked(r, w, args[i])
  {
    for i := 0 to |args|
      invariant forall k :: 0 <= k < i ==> Basic(args[k].value)
    {
      if !Basic(args[i].value) {
        assert !Checked(r, w, args[i]);
        return false;
      }
    }
    for i := 0 to |args|
      invariant forall k :: 0 <= k < i ==> Checked(r, w, args[k])
    {
      if !Shape(r, w, args[i].key, args[i].value.text) {
        assert !Checked(r, w, args[i]);
        return false;
      }
    }
    ok := true;
  }

  /** The first i entries are rewritten, the rest as given. */
  predicate Partly(r: Rules, w: Workflow, args: seq<Member>, parsed: seq<Member>, i: nat) {
    && |parsed| == |args|
    && (forall k :: 0 <= k < |args| && k < i ==> Fine(r, w, args[k]) && parsed[k] == NormalMember(r, w, args[k]))
    && (forall k :: i <= k < |args| ==> parsed[k] == args[k])
  }

  lemma OneRewritten(r: Rules, w: Workflow, args: seq<Member>, parsed: seq<Member>, i: nat, text: PyStr)
    requires i < |args| && Partly(r, w, args, parsed, i) && Checked(r, w, args[i])
    requires Rewrite(r, w, args[i].key, args[i].value.text) == Some(text)
    ensures Partly(r, w, args, parsed[i := Member(parsed[i].key, Str(text))], i + 1)
  {
  }

  /** The statements that assign to entries of the parsed dictionary. */
  method RewriteArguments(r: Rules, w: Workflow, args: seq<Member>) returns (rewritten: Option<seq<Member>>)
    requires forall i :: 0 <= i < |args| ==> Checked(r, w, args[i])
    ensures rewritten.Some? <==> forall i :: 0 <= i < |args| ==> Fine(r, w, args[i])
    ensures rewritten.Some? ==> rewritten.value == Normalised(r, w, args)
  {
    var parsed := args;
    for i := 0 to |args|
      invariant Partly(r, w, args, parsed, i)
    {
      assert Checked(r, w, args[i]) && parsed[i] == args[i];
      var text := RewriteArgument(r, w, parsed[i].key, parsed[i].value.text);
      if text.None? {
        assert !Fine(r, w, args[i]);
        return None;
      }
      OneRewritten(r, w, args, parsed, i, text.value);
      parsed := parsed[i := Member(parsed[i].key, Str(text.value))];
    }
    assert parsed == Normalised(r, w, args);
    rewritten := Some(parsed);
  }

  lemma FineIsChecked(r: Rules, w: Workflow, args: seq<Member>)
    ensures (forall i :: 0 <= i < |args| ==> Fine(r, w, args[i])) ==>
              forall i :: 0 <= i < |args| ==> Checked(r, w, args[i])
  {
    forall i | 0 <= i < |args| && Fine(r, w, args[i]) ensures Checked(r, w, args[i]) {}
  }

  method LoadArguments(raw: PyStr) returns (args: Option<seq<Member>>)
    ensures args == Args(raw)
  {
    if !Fits(raw) { return None; }
    var loaded := Loads(raw);
    if !loaded.Done? || !loaded.value.Obj? { return None; }
    args := Some(loaded.value.members);
  }

  method ValidateWorkflowArgs(r: Rules, w: Workflow, raw: PyStr) returns (payload: Option<PyStr>)
    ensures payload.Some? <==> Accepted(r, w, raw)
    ensures payload.Some? ==> payload.value == Payload(r, w, Args(raw).value)
  {
    var args := LoadArguments(raw);
    if args.None? || !Distinct(args.value) || !InContract(w, Keys(args.value)) { return None; }
    var parsed := NormaliseArguments(r, w, args.value);
    if parsed.None? { return None; }
    payload := Some(Dumps(Obj(parsed.value)));
  }

  /** All loops over the arguments. */
  method NormaliseArguments(r: Rules, w: Workflow, args: seq<Member>) returns (parsed: Option<seq<Member>>)
    ensures parsed.Some? <==> forall i :: 0 <= i < |args| ==> Fine(r, w, args[i])
    ensures parsed.Some? ==> parsed.value == Normalised(r, w, args)
  {
    FineIsChecked(r, w, args);
    var ok := CheckArguments(r, w, args);
    if !ok { return None; }
    parsed := RewriteArguments(r, w, args);
  }

  // ---------------------------------------------------------------- normalised arguments print faithfully

  lemma PairedPart(t: PyStr, i: nat, j: nat)
    requires Paired(t) && i <= j <= |t|
    ensures Paired(t[i..j])
  {
    forall k | 0 < k < j - i ensures !(IsHigh(t[i..j][k-1]) && IsLow(t[i..j][k])) {
      assert t[i..j][k-1] == t[i+k-1] && t[i..j][k] == t[i+k];
    }
  }

  lemma {:induction false} LstripPaired(t: PyStr)
    requires Paired(t)
    ensures Paired(Lstrip(t))
  {
    if t != [] && IsPySpace(t[0]) {
      assert t[1..] == t[1..|t|];
      PairedPart(t, 1, |t|);
      LstripPaired(t[1..]);
    }
  }

  lemma {:induction false} RstripPaired(t: PyStr)
    requires Paired(t)
    ensures Paired(Rstrip(t))
    decreases |t|
  {
    if t != [] && IsPySpace(t[|t|-1]) {
      assert t[..|t|-1] == t[0..|t|-1];
      PairedPart(t, 0, |t| - 1);
      RstripPaired(t[..|t|-1]);
    }
  }

  lemma {:induction false} ReprsAscii(r: Rules, v: Json)
    requires AsciiRules(r)
    ensures AsciiFloats(Reprs(r, v))
    decreases v
  {
    match v
    case Float(lexeme) => assert ReprAscii(r, lexeme);
    case Arr(items) => ReprItemsAscii(r, items);
    case Obj(ms) => ReprMembersAscii(r, ms);
    case _ =>
  }

  lemma {:induction false} ReprItemsAscii(r: Rules, items: seq<Json>)
    requires AsciiRules(r)
    ensures AsciiFloatItems(ReprItems(r, items))
    decreases items
  {
    if items != [] { ReprsAscii(r, items[0]); ReprItemsAscii(r, items[1..]); }
  }

  lemma {:induction false} ReprMembersAscii(r: Rules, ms: seq<Member>)
    requires AsciiRules(r)
    ensures AsciiFloatMembers(ReprMembers(r, ms))
    decreases ms
  {
    if ms != [] {
      var v := ms[0].value;
      ReprsAscii(r, v);
      ReprMembersAscii(r, ms[1..]);
    }
  }

  lemma NormalPaired(r: Rules, w: Workflow, key: PyStr, v: PyStr)
    requires AsciiRules(r) && Paired(v) && Normal(r, w, key, v).Some?
    ensures Paired(Normal(r, w, key, v).value)
  {
    LstripPaired(v);
    RstripPaired(Lstrip(v));
    var n := Normal(r, w, key, v).value;
    if n == v || n == Strip(v) {
    } else if HasDomain(w) && key == COMPANY_DOMAIN {
      assert DomainAscii(r, n);
      AsciiPaired(n);
    } else {
      var doc := Loads(v).value;
      ReprsAscii(r, Canon(doc));
      PrintAscii(Reprs(r, Canon(doc)));
      AsciiPaired(n);
    }
  }

  predicate AllTexts(ms: seq<Member>) { forall i :: 0 <= i < |ms| ==> ms[i].value.Str? }

  /** A dictionary of strings that prints faithfully. */
  predicate Faithful(ms: seq<Member>) { Distinct(ms) && AllTexts(ms) && TextsPaired(ms) }

  lemma KeyCarried(a: seq<Member>, b: seq<Member>, key: PyStr)
    requires |a| == |b| && (forall i :: 0 <= i < |a| ==> a[i].key == b[i].key)
    ensures HasKey(a, key) ==> HasKey(b, key)
  {
    if HasKey(a, key) {
      var i :| 0 <= i < |a| && a[i].key == key;
      assert b[i].key == key;
    }
  }

  lemma {:induction false} DistinctKeys(a: seq<Member>, b: seq<Member>)
    requires |a| == |b| && (forall i :: 0 <= i < |a| ==> a[i].key == b[i].key) && Distinct(a)
    ensures Distinct(b)
    decreases |a|
  {
    if a != [] {
      assert forall i :: 0 <= i < |a[1..]| ==> a[1..][i] == a[i+1] && b[1..][i] == b[i+1];
      KeyCarried(b[1..], a[1..], b[0].key);
      DistinctKeys(a[1..], b[1..]);
    }
  }

  lemma NormalisedFaithful(r: Rules, w: Workflow, raw: PyStr)
    requires AsciiRules(r) && Accepted(r, w, raw)
    ensures Faithful(Normalised(r, w, Args(raw).value))
  {
    LoadsPaired(raw);
    EachFaithful(r, w, Args(raw).value);
  }

  lemma EachFaithful(r: Rules, w: Workflow, ms: seq<Member>)
    requires AsciiRules(r) && Accepts(r, w, ms) && TextsPaired(ms)
    ensures Faithful(Normalised(r, w, ms))
  {
    var n := Normalised(r, w, ms);
    DistinctKeys(ms, n);
    forall i | 0 <= i < |n| ensures n[i].value.Str? && Paired(n[i].key) && Paired(n[i].value.text) {
      assert Fine(r, w, ms[i]);
      MemberPaired(r, w, ms[i]);
    }
  }

  lemma MemberPaired(r: Rules, w: Workflow, m: Member)
    requires AsciiRules(r) && Fine(r, w, m) && Paired(m.key) && Paired(m.value.text)
    ensures var n := NormalMember(r, w, m); n.value.Str? && Paired(n.key) && Paired(n.value.text)
  {
    NormalPaired(r, w, m.key, m.value.text);
  }

  lemma {:induction false} TextsPrintable(ms: seq<Member>)
    requires AllTexts(ms) && TextsPaired(ms)
    ensures PrintableMembers(ms) && UniqueMembers(ms)
    decreases |ms|
  {
    if ms != [] {
      assert forall i :: 0 <= i < |ms[1..]| ==> ms[1..][i] == ms[i+1];
      TextsPrintable(ms[1..]);
    }
  }

  /** A dictionary of strings reads back from its canonical text as itself, sorted. */
  lemma FaithfulReadsBack(ms: seq<Member>)
    requires Faithful(ms)
    ensures Loads(Dumps(Obj(ms))) == Done(Obj(Sort(ms)), |Dumps(Obj(ms))|)
    ensures LastWins(Sort(ms)) == LastWins(ms)
  {
    TextsPrintable(ms);
    forall i | 0 <= i < |ms| ensures Fixed(ms[i].value) {}
    FixedMembers(ms);
    DumpsReadsBack(Obj(ms));
    SortMeans(ms);
    AscendingDistinct(Sort(ms));
    DictsAgree(Sort(ms), ms);
  }

  lemma {:induction false} AscendingDistinct(ms: seq<Member>)
    requires Ascending(ms)
    ensures Distinct(ms)
    decreases |ms|
  {
    if ms != [] {
      AscendingDistinct(ms[1..]);
      forall i | 0 <= i < |ms[1..]| ensures ms[1..][i].key != ms[0].key { LessTotal(ms[0].key, ms[1..][i].key); }
    }
  }

  lemma FaithfulDecides(a: seq<Member>, b: seq<Member>)
    requires Faithful(a) && Faithful(b)
    ensures Dumps(Obj(a)) == Dumps(Obj(b)) <==> LastWins(a) == LastWins(b)
  {
    FaithfulReadsBack(a);
    FaithfulReadsBack(b);
    SortForgetsOrder(a, b);
    DictsAgree(a, b);
    forall i | 0 <= i < |a| ensures Fixed(a[i].value) {}
    forall i | 0 <= i < |b| ensures Fixed(b[i].value) {}
    FixedMembers(a);
    FixedMembers(b);
  }

  // ---------------------------------------------------------------- main results

  /** Two accepted argument texts have the same payload iff their normalised arguments are the same
      dictionary, whatever the order of keys, the spacing and the escapes. */
  lemma SamePayload(r: Rules, w: Workflow, raw: PyStr, raw': PyStr)
    requires AsciiRules(r) && Accepted(r, w, raw) && Accepted(r, w, raw')
    ensures Payload(r, w, Args(raw).value) == Payload(r, w, Args(raw').value) <==>
            LastWins(Normalised(r, w, Args(raw).value)) == LastWins(Normalised(r, w, Args(raw').value))
  {
    NormalisedFaithful(r, w, raw);
    NormalisedFaithful(r, w, raw');
    FaithfulDecides(Normalised(r, w, Args(raw).value), Normalised(r, w, Args(raw').value));
  }

  /** The payload is ASCII, so it always encodes, and parses back to the normalised arguments. */
  lemma PayloadReadsBack(r: Rules, w: Workflow, raw: PyStr)
    requires AsciiRules(r) && Accepted(r, w, raw)
    ensures var n := Normalised(r, w, Args(raw).value);
      && Ascii(Payload(r, w, Args(raw).value))
      && Loads(Payload(r, w, Args(raw).value)).Done?
      && Loads(Payload(r, w, Args(raw).value)).value == Obj(Sort(n))
      && LastWins(Sort(n)) == LastWins(n)
  {
    var n := Normalised(r, w, Args(raw).value);
    NormalisedFaithful(r, w, raw);
    FaithfulReadsBack(n);
    forall i | 0 <= i < |n| ensures Fixed(n[i].value) {}
    FixedMembers(n);
    SortMeans(n);
    forall i | 0 <= i < |Sort(n)| ensures Sort(n)[i].value.Str? { assert Sort(n)[i] in Members(n); }
    TextsAscii(Sort(n));
    PrintAscii(Obj(Sort(n)));
  }

  lemma {:induction false} TextsAscii(ms: seq<Member>)
    requires AllTexts(ms)
    ensures AsciiFloatMembers(ms)
    decreases |ms|
  {
    if ms != [] {
      assert forall i :: 0 <= i < |ms[1..]| ==> ms[1..][i] == ms[i+1];
      TextsAscii(ms[1..]);
    }
  }

  /** What the names of rewritten arguments have in common, and the names of identifiers do not. */
  predicate RewrittenName(key: PyStr) {
    && key != [] && (key[|key|-1] == 'i' as int || key[|key|-1] == 'n' as int)
    && key[0] != 'f' as int
  }

  lemma RewrittenNames(w: Workflow, key: PyStr)
    requires key == SOURCE_URI || key == CITATIONS_JSON || key == COMPANY_DOMAIN || key in Names(ObjectNames(w))
    ensures RewrittenName(key)
  {
    if key in Names(ObjectNames(w)) {
      var i :| 0 <= i < |ObjectNames(w)| && key == Lit(ObjectNames(w)[i]);
      assert ObjectNames(w)[i][0] != 'f' && ObjectNames(w)[i][|ObjectNames(w)[i]|-1] == 'n';
    }
  }

  lemma IdentifierNames(key: PyStr)
    requires key in BIGINT_KEYS || key == FLOW_REVISION
    ensures !RewrittenName(key)
  {
    if key in BIGINT_KEYS {
      var i :| 0 <= i < |BIGINT_NAMES| && key == Lit(BIGINT_NAMES[i]);
      assert BIGINT_NAMES[i][|BIGINT_NAMES[i]|-1] == 'd';
    }
  }

  /** Every bigint identifier of accepted arguments keeps its value and is the decimal of an integer
      in 1..2^63-1; the counter may be zero. */
  lemma IdentifiersCanonical(r: Rules, w: Workflow, raw: PyStr, i: nat)
    requires Accepted(r, w, raw) && i < |Args(raw).value|
    requires Args(raw).value[i].key in BIGINT_KEYS || Args(raw).value[i].key == FLOW_REVISION
    ensures var m := Args(raw).value[i];
      && Normalised(r, w, Args(raw).value)[i] == m && m.value.Str?
      && exists n: nat :: (if m.key in BIGINT_KEYS then 1 else 0) <= n <= BIGINT_MAX && m.value.text == Decimal(n)
  {
    var m := Args(raw).value[i];
    assert Fine(r, w, m);
    IdentifierNames(m.key);
    if m.key == SOURCE_URI || m.key == CITATIONS_JSON || m.key == COMPANY_DOMAIN || m.key in Names(ObjectNames(w)) {
      RewrittenNames(w, m.key);
    }
    BigintMeans(m.value.text, m.key !in BIGINT_KEYS);
  }

  // ---------------------------------------------------------------- the injected digest

  predicate StartsIn(name: string) { |name| > 1 && name[0] == 'i' && name[1] == 'n' }

  lemma RequiredStart(w: Workflow, k: nat)
    requires k < |RequiredNames(w)|
    ensures !StartsIn(RequiredNames(w)[k])
  {
  }

  lemma DigestIsNew(w: Workflow, ms: seq<Member>)
    requires InContract(w, Keys(ms))
    ensures !HasKey(ms, INPUT_DIGEST)
  {
    assert INPUT_DIGEST[0] == 'i' as int && INPUT_DIGEST[1] == 'n' as int;
    forall i | 0 <= i < |ms| ensures ms[i].key != INPUT_DIGEST {
      assert ms[i].key in Keys(ms);
      ContractName(w, ms[i].key);
    }
  }

  lemma ContractName(w: Workflow, key: PyStr)
    requires key in Names(RequiredNames(w)) + Names(OptionalNames(w))
    ensures !(|key| > 1 && key[0] == 'i' as int && key[1] == 'n' as int)
  {
    if key in Names(RequiredNames(w)) {
      var k :| 0 <= k < |RequiredNames(w)| && key == Lit(RequiredNames(w)[k]);
      RequiredStart(w, k);
    } else {
      var k :| 0 <= k < |OptionalNames(w)| && key == Lit(OptionalNames(w)[k]);
      assert !StartsIn(OptionalNames(w)[k]);
    }
  }

  /** The text Lobster gets: the payload parsed again, with its own digest added, printed again. */
  function FinalText(payload: PyStr, sha256: PyStr -> PyStr): PyStr {
    match Loads(payload)
    case Done(doc, _) =>
      if doc.Obj? then Dumps(Obj(doc.members + [Member(INPUT_DIGEST, Str(sha256(payload)))])) else []
    case _ => []
  }

  lemma {:induction false} SnocDistinct(ms: seq<Member>, m: Member)
    requires Distinct(ms) && !HasKey(ms, m.key)
    ensures Distinct(ms + [m])
    decreases |ms|
  {
    if ms != [] {
      assert (ms + [m])[1..] == ms[1..] + [m];
      assert ms == [ms[0]] + ms[1..];
      ConsKey(ms[0], ms[1..], m.key);
      SnocDistinct(ms[1..], m);
      SnocKey(ms[1..], m, ms[0].key);
    }
  }

  /** The final text parses to the normalised arguments plus the digest of their payload, under a name
      the caller cannot use. */
  lemma DigestInjected(r: Rules, w: Workflow, raw: PyStr, sha256: PyStr -> PyStr)
    requires AsciiRules(r) && Accepted(r, w, raw) && (forall x :: Paired(sha256(x)))
    ensures var n, payload := Normalised(r, w, Args(raw).value), Payload(r, w, Args(raw).value);
      var final := Loads(FinalText(payload, sha256));
      && INPUT_DIGEST !in LastWins(n)
      && final.Done? && final.value.Obj?
      && LastWins(final.value.members) == LastWins(n)[INPUT_DIGEST := Str(sha256(payload))]
  {
    var n := Normalised(r, w, Args(raw).value);
    NormalisedFaithful(r, w, raw);
    PayloadReadsBack(r, w, raw);
    DigestIsNew(w, Args(raw).value);
    KeyCarried(n, Args(raw).value, INPUT_DIGEST);
    TextInjected(n, Payload(r, w, Args(raw).value), sha256);
  }

  lemma TextInjected(n: seq<Member>, payload: PyStr, sha256: PyStr -> PyStr)
    requires Faithful(n) && !HasKey(n, INPUT_DIGEST) && Paired(sha256(payload))
    requires Loads(payload).Done? && Loads(payload).value == Obj(Sort(n)) && LastWins(Sort(n)) == LastWins(n)
    ensures var final := Loads(FinalText(payload, sha256));
      && INPUT_DIGEST !in LastWins(n)
      && final.Done? && final.value.Obj?
      && LastWins(final.value.members) == LastWins(n)[INPUT_DIGEST := Str(sha256(payload))]
  {
    var digest := Member(INPUT_DIGEST, Str(sha256(payload)));
    SortFaithful(n);
    SameKeys(Sort(n), n, INPUT_DIGEST);
    WithDigest(Sort(n), digest);
    DictMeans(n, INPUT_DIGEST);
    assert (Sort(n) + [digest])[..|Sort(n)|] == Sort(n);
  }

  lemma SortFaithful(n: seq<Member>)
    requires Faithful(n)
    ensures Faithful(Sort(n)) && Members(Sort(n)) == Members(n)
  {
    SortMeans(n);
    AscendingDistinct(Sort(n));
    forall i | 0 <= i < |Sort(n)| ensures TextsPaired([Sort(n)[i]]) && Sort(n)[i].value.Str? {
      assert Sort(n)[i] in Members(n);
    }
    forall i | 0 <= i < |Sort(n)| ensures Paired(Sort(n)[i].key) && Paired(Sort(n)[i].value.text) {
      assert TextsPaired([Sort(n)[i]]) && [Sort(n)[i]][0] == Sort(n)[i];
    }
  }

  lemma WithDigest(ms: seq<Member>, digest: Member)
    requires Faithful(ms) && !HasKey(ms, digest.key) && TextsPaired([digest]) && digest.value.Str?
    ensures var text := Dumps(Obj(ms + [digest]));
      Loads(text).Done? && Loads(text).value.Obj? && LastWins(Loads(text).value.members) == LastWins(ms + [digest])
  {
    SnocDistinct(ms, digest);
    assert [digest][0] == digest;
    FaithfulReadsBack(ms + [digest]);
  }
}
