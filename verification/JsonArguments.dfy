// The arguments that hold JSON themselves: what _validate_json_object_string and the re-printing of
// citations keep of a document, floating-point numbers and split surrogate pairs included.
module JsonArguments {
  import opened PyText
  import opened Json
  import opened JsonText
  import opened Canonical
  import opened Options
  import opened SplitPairs
  import opened WorkflowArgs

  /** What repr() of a decoded float is known to print: a floating-point lexeme or an infinity. */
  ghost predicate ReprRules(r: Rules) { forall x :: ReprAt(r, x) }

  predicate ReprAt(r: Rules, x: PyStr) { Shown(r.repr(x)).Float? ==> IsFloat(r.repr(x)) }

  // ---------------------------------------------------------------- re-printed numbers

  lemma {:induction false} ReprsStorable(r: Rules, v: Json)
    requires ReprRules(r) && Storable(v)
    ensures Storable(Reprs(r, v))
    decreases v, 1
  {
    match v
    case Float(lexeme) => assert ReprAt(r, lexeme);
    case Arr(items) => ReprItemsStorable(r, items);
    case Obj(ms) => ReprMembersStorable(r, ms);
    case _ =>
  }

  lemma {:induction false} ReprItemsStorable(r: Rules, items: seq<Json>)
    requires ReprRules(r) && StorableItems(items)
    ensures StorableItems(ReprItems(r, items))
    decreases items, 0
  {
    if items != [] {
      ReprsStorable(r, items[0]);
      ReprItemsStorable(r, items[1..]);
      assert ReprItems(r, items)[1..] == ReprItems(r, items[1..]);
    }
  }

  lemma {:induction false} ReprMembersStorable(r: Rules, ms: seq<Member>)
    requires ReprRules(r) && StorableMembers(ms)
    ensures StorableMembers(ReprMembers(r, ms))
    decreases ms, 0
  {
    if ms != [] {
      var v := ms[0].value;
      ReprsStorable(r, v);
      ReprMembersStorable(r, ms[1..]);
      assert ReprMembers(r, ms)[1..] == ReprMembers(r, ms[1..]);
    }
  }

  lemma {:induction false} FuseReprs(r: Rules, v: Json)
    ensures Fuse(Reprs(r, v)) == Reprs(r, Fuse(v))
    decreases v, 1
  {
    match v
    case Arr(items) => FuseReprItems(r, items);
    case Obj(ms) => FuseReprMembers(r, ms);
    case _ =>
  }

  lemma {:induction false} FuseReprItems(r: Rules, items: seq<Json>)
    ensures FuseItems(ReprItems(r, items)) == ReprItems(r, FuseItems(items))
    decreases items, 0
  {
    if items != [] {
      FuseReprs(r, items[0]);
      FuseReprItems(r, items[1..]);
      assert ReprItems(r, items)[1..] == ReprItems(r, items[1..]) && FuseItems(items)[1..] == FuseItems(items[1..]);
    }
  }

  lemma {:induction false} FuseReprMembers(r: Rules, ms: seq<Member>)
    ensures FuseMembers(ReprMembers(r, ms)) == ReprMembers(r, FuseMembers(ms))
    decreases ms, 0
  {
    if ms != [] {
      var v := ms[0].value;
      FuseReprs(r, v);
      FuseReprMembers(r, ms[1..]);
      assert ReprMembers(r, ms)[1..] == ReprMembers(r, ms[1..]);
      assert FuseMembers(ms)[1..] == FuseMembers(ms[1..]);
    }
  }

  // Re-printing numbers and sorting keys do not disturb each other.

  function ReprMember(r: Rules, m: Member): Member { Member(m.key, Reprs(r, m.value)) }

  lemma ReprCons(r: Rules, m: Member, ms: seq<Member>)
    ensures ReprMembers(r, [m] + ms) == [ReprMember(r, m)] + ReprMembers(r, ms)
  {
    assert ([m] + ms)[1..] == ms;
  }

  lemma {:induction false} InsertRepr(r: Rules, m: Member, ms: seq<Member>)
    ensures ReprMembers(r, Insert(m, ms)) == Insert(ReprMember(r, m), ReprMembers(r, ms))
    decreases |ms|
  {
    if ms == [] || Less(m.key, ms[0].key) {
      ReprCons(r, m, ms);
    } else {
      InsertRepr(r, m, ms[1..]);
      ReprCons(r, ms[0], Insert(m, ms[1..]));
      assert ReprMembers(r, ms)[1..] == ReprMembers(r, ms[1..]);
    }
  }

  lemma {:induction false} SortRepr(r: Rules, ms: seq<Member>)
    ensures ReprMembers(r, Sort(ms)) == Sort(ReprMembers(r, ms))
    decreases |ms|
  {
    if ms != [] {
      SortRepr(r, ms[1..]);
      InsertRepr(r, ms[0], Sort(ms[1..]));
      assert ReprMembers(r, ms)[1..] == ReprMembers(r, ms[1..]);
    }
  }

  lemma {:induction false} CanonReprs(r: Rules, v: Json)
    ensures Reprs(r, Canon(v)) == Canon(Reprs(r, v))
    decreases v, 1
  {
    match v
    case Arr(items) => CanonReprItems(r, items);
    case Obj(ms) =>
      CanonReprMembers(r, ms);
      SortRepr(r, CanonMembers(ms));
    case _ =>
  }

  lemma {:induction false} CanonReprItems(r: Rules, items: seq<Json>)
    ensures ReprItems(r, CanonItems(items)) == CanonItems(ReprItems(r, items))
    decreases items, 0
  {
    if items != [] {
      CanonReprs(r, items[0]);
      CanonReprItems(r, items[1..]);
      assert CanonItems(items)[1..] == CanonItems(items[1..]);
      assert ReprItems(r, items)[1..] == ReprItems(r, items[1..]);
    }
  }

  lemma {:induction false} CanonReprMembers(r: Rules, ms: seq<Member>)
    ensures ReprMembers(r, CanonMembers(ms)) == CanonMembers(ReprMembers(r, ms))
    decreases ms, 0
  {
    if ms != [] {
      var v := ms[0].value;
      CanonReprs(r, v);
      CanonReprMembers(r, ms[1..]);
      ReprCons(r, Member(ms[0].key, Canon(v)), CanonMembers(ms[1..]));
      assert ReprMembers(r, ms)[1..] == ReprMembers(r, ms[1..]);
    }
  }

  lemma {:induction false} ReprKeys(r: Rules, ms: seq<Member>)
    ensures |ReprMembers(r, ms)| == |ms| && forall i :: 0 <= i < |ms| ==> ReprMembers(r, ms)[i].key == ms[i].key
    decreases |ms|
  {
    if ms != [] { ReprKeys(r, ms[1..]); }
  }

  lemma {:induction false} ReprsDistinct(r: Rules, ms: seq<Member>)
    requires Distinct(ms)
    ensures Distinct(ReprMembers(r, ms))
    decreases |ms|
  {
    if ms != [] {
      ReprsDistinct(r, ms[1..]);
      ReprKeys(r, ms[1..]);
      assert ReprMembers(r, ms)[1..] == ReprMembers(r, ms[1..]);
    }
  }

  lemma {:induction false} ReprsUnique(r: Rules, v: Json)
    requires Unique(v)
    ensures Unique(Reprs(r, v))
    decreases v, 1
  {
    match v
    case Arr(items) => ReprItemsUnique(r, items);
    case Obj(ms) =>
      ReprsDistinct(r, ms);
      ReprMembersUnique(r, ms);
    case _ =>
  }

  lemma {:induction false} ReprItemsUnique(r: Rules, items: seq<Json>)
    requires UniqueItems(items)
    ensures UniqueItems(ReprItems(r, items))
    decreases items, 0
  {
    if items != [] {
      ReprsUnique(r, items[0]);
      ReprItemsUnique(r, items[1..]);
      assert ReprItems(r, items)[1..] == ReprItems(r, items[1..]);
    }
  }

  lemma {:induction false} ReprMembersUnique(r: Rules, ms: seq<Member>)
    requires UniqueMembers(ms)
    ensures UniqueMembers(ReprMembers(r, ms))
    decreases ms, 0
  {
    if ms != [] {
      var v := ms[0].value;
      ReprsUnique(r, v);
      ReprMembersUnique(r, ms[1..]);
      assert ReprMembers(r, ms)[1..] == ReprMembers(r, ms[1..]);
    }
  }

  // ---------------------------------------------------------------- main results

  /** The document an argument text stands for, its floats as Python reads them. */
  function Read(r: Rules, v: PyStr): Json
    requires Loads(v).Done?
  {
    Reprs(r, Loads(v).value)
  }

  lemma ReadFacts(r: Rules, v: PyStr)
    requires ReprRules(r) && Loads(v).Done?
    ensures Storable(Read(r, v))
    ensures Unique(Loads(v).value) ==> Unique(Read(r, v))
    ensures Print(Reprs(r, Canon(Loads(v).value))) == Dumps(Read(r, v))
  {
    ParsedStorable(v, SkipWs(v, 0));
    ReprsStorable(r, Loads(v).value);
    CanonReprs(r, Loads(v).value);
    if Unique(Loads(v).value) { ReprsUnique(r, Loads(v).value); }
  }

  /** Two JSON-object arguments are normalised to one text iff the canonical forms of their documents
      differ at most in split surrogate pairs; and the text parses to that form, the pairs joined. */
  lemma ObjectTextDecides(r: Rules, v: PyStr, v': PyStr)
    requires ReprRules(r) && ObjectText(r, v).Some? && ObjectText(r, v').Some?
    ensures ObjectText(r, v) == ObjectText(r, v') <==> Fuse(Canon(Read(r, v))) == Fuse(Canon(Read(r, v')))
    ensures Loads(ObjectText(r, v).value) == Done(Fuse(Canon(Read(r, v))), |ObjectText(r, v).value|)
  {
    ReadFacts(r, v);
    ReadFacts(r, v');
    CanonStorable(Read(r, v));
    CanonStorable(Read(r, v'));
    PrintDecides(Canon(Read(r, v)), Canon(Read(r, v')));
  }

  /** No split surrogate pair in a key or a string, at any depth. */
  predicate NoSplits(v: Json) { Fuse(v) == v }

  lemma ReadPrintable(r: Rules, v: PyStr)
    requires ReprRules(r) && Loads(v).Done? && NoSplits(Loads(v).value)
    ensures Printable(Read(r, v))
  {
    ReadFacts(r, v);
    FuseReprs(r, Loads(v).value);
    FusePrintable(Read(r, v));
  }

  /** Without split pairs: iff they are the same JSON value. */
  lemma SameTextSameValue(r: Rules, v: PyStr, v': PyStr)
    requires ReprRules(r) && ObjectText(r, v).Some? && ObjectText(r, v').Some?
    requires NoSplits(Loads(v).value) && NoSplits(Loads(v').value)
    ensures ObjectText(r, v) == ObjectText(r, v') <==> Same(Read(r, v), Read(r, v'))
  {
    ReadFacts(r, v);
    ReadFacts(r, v');
    ReadPrintable(r, v);
    ReadPrintable(r, v');
    DumpsDecides(Read(r, v), Read(r, v'));
  }

  // ---------------------------------------------------------------- words that are no JSON

  lemma {:induction false} ConstantMember(ms: seq<Member>)
    ensures MembersHaveConstant(ms) <==> exists m :: m in Members(ms) && HasConstant(m.value)
    decreases |ms|
  {
    if ms == [] {
      NoMembers(ms);
    } else {
      ConstantMember(ms[1..]);
      assert ms == [ms[0]] + ms[1..];
      MembersCons(ms[0], ms[1..]);
      assert ms[0] in Members(ms);
    }
  }

  lemma {:induction false} CanonConstant(v: Json)
    requires Unique(v)
    ensures HasConstant(Canon(v)) <==> HasConstant(v)
    decreases v, 1
  {
    match v
    case Arr(items) => CanonItemsConstant(items);
    case Obj(ms) =>
      CanonDistinct(ms);
      SortMeans(CanonMembers(ms));
      CanonMembersConstant(ms);
      ConstantMember(CanonMembers(ms));
      ConstantMember(Sort(CanonMembers(ms)));
    case _ =>
  }

  lemma {:induction false} CanonItemsConstant(items: seq<Json>)
    requires UniqueItems(items)
    ensures ItemsHaveConstant(CanonItems(items)) <==> ItemsHaveConstant(items)
    decreases items, 0
  {
    if items != [] {
      CanonConstant(items[0]);
      CanonItemsConstant(items[1..]);
      assert CanonItems(items)[1..] == CanonItems(items[1..]);
    }
  }

  lemma {:induction false} CanonMembersConstant(ms: seq<Member>)
    requires UniqueMembers(ms)
    ensures MembersHaveConstant(CanonMembers(ms)) <==> MembersHaveConstant(ms)
    decreases ms, 0
  {
    if ms != [] {
      var v := ms[0].value;
      CanonConstant(v);
      CanonMembersConstant(ms[1..]);
      assert CanonMembers(ms)[1..] == CanonMembers(ms[1..]);
    }
  }

  /** Some float overflows: repr() prints an infinity for it. */
  predicate Overflows(r: Rules, v: Json) {
    match v
    case Float(lexeme) => Shown(r.repr(lexeme)).Constant?
    case Arr(items) => ItemsOverflow(r, items)
    case Obj(ms) => MembersOverflow(r, ms)
    case _ => false
  }

  predicate ItemsOverflow(r: Rules, items: seq<Json>) {
    items != [] && (Overflows(r, items[0]) || ItemsOverflow(r, items[1..]))
  }

  predicate MembersOverflow(r: Rules, ms: seq<Member>) {
    ms != [] && (var v := ms[0].value; Overflows(r, v) || MembersOverflow(r, ms[1..]))
  }

  lemma {:induction false} ReprsConstant(r: Rules, v: Json)
    ensures HasConstant(Reprs(r, v)) <==> HasConstant(v) || Overflows(r, v)
    decreases v, 1
  {
    match v
    case Arr(items) => ReprItemsConstant(r, items);
    case Obj(ms) => ReprMembersConstant(r, ms);
    case _ =>
  }

  lemma {:induction false} ReprItemsConstant(r: Rules, items: seq<Json>)
    ensures ItemsHaveConstant(ReprItems(r, items)) <==> ItemsHaveConstant(items) || ItemsOverflow(r, items)
    decreases items, 0
  {
    if items != [] {
      ReprsConstant(r, items[0]);
      ReprItemsConstant(r, items[1..]);
      assert ReprItems(r, items)[1..] == ReprItems(r, items[1..]);
    }
  }

  lemma {:induction false} ReprMembersConstant(r: Rules, ms: seq<Member>)
    ensures MembersHaveConstant(ReprMembers(r, ms)) <==> MembersHaveConstant(ms) || MembersOverflow(r, ms)
    decreases ms, 0
  {
    if ms != [] {
      var v := ms[0].value;
      ReprsConstant(r, v);
      ReprMembersConstant(r, ms[1..]);
      assert ReprMembers(r, ms)[1..] == ReprMembers(r, ms[1..]);
    }
  }

  lemma {:induction false} FuseConstant(v: Json)
    ensures HasConstant(Fuse(v)) <==> HasConstant(v)
    decreases v, 1
  {
    match v
    case Arr(items) => FuseItemsConstant(items);
    case Obj(ms) => FuseMembersConstant(ms);
    case _ =>
  }

  lemma {:induction false} FuseItemsConstant(items: seq<Json>)
    ensures ItemsHaveConstant(FuseItems(items)) <==> ItemsHaveConstant(items)
    decreases items, 0
  {
    if items != [] {
      FuseConstant(items[0]);
      FuseItemsConstant(items[1..]);
      assert FuseItems(items)[1..] == FuseItems(items[1..]);
    }
  }

  lemma {:induction false} FuseMembersConstant(ms: seq<Member>)
    ensures MembersHaveConstant(FuseMembers(ms)) <==> MembersHaveConstant(ms)
    decreases ms, 0
  {
    if ms != [] {
      var v := ms[0].value;
      FuseConstant(v);
      FuseMembersConstant(ms[1..]);
      assert FuseMembers(ms)[1..] == FuseMembers(ms[1..]);
    }
  }

  /** The text parses to a document that holds one of the words. */
  predicate Nonstandard(text: PyStr) { Loads(text).Done? && HasConstant(Loads(text).value) }

  lemma StoredConstant(r: Rules, v: PyStr)
    requires ReprRules(r) && Loads(v).Done? && Unique(Loads(v).value)
    ensures var text := Print(Reprs(r, Canon(Loads(v).value)));
      Nonstandard(text) <==> HasConstant(Loads(v).value) || Overflows(r, Loads(v).value)
  {
    ReadFacts(r, v);
    CanonStorable(Read(r, v));
    PrintDecides(Canon(Read(r, v)), Canon(Read(r, v)));
    FuseConstant(Canon(Read(r, v)));
    CanonConstant(Read(r, v));
    ReprsConstant(r, Loads(v).value);
  }

  /** When a normalised text holds NaN, Infinity or -Infinity, which strict JSON does not know: an
      object argument exactly when a float overflowed, citations also when the text held one. */
  lemma ConstantsLeft(r: Rules, v: PyStr)
    requires ReprRules(r)
    ensures ObjectText(r, v).Some? ==>
      (Nonstandard(ObjectText(r, v).value) <==> Overflows(r, Loads(v).value))
    ensures CitationsText(r, v).Some? ==>
      (Nonstandard(CitationsText(r, v).value) <==> HasConstant(Loads(v).value) || Overflows(r, Loads(v).value))
  {
    if ObjectText(r, v).Some? || CitationsText(r, v).Some? { StoredConstant(r, v); }
  }

  /** A constant is refused in an object argument but passes through citations. */
  lemma ConstantPassesCitations(r: Rules, doc: Json)
    requires Printable(doc) && Unique(doc) && HasConstant(doc)
    ensures ObjectText(r, Print(doc)).None?
    ensures doc.Arr? && AllObjects(doc.items) ==> CitationsText(r, Print(doc)) == Some(Dumps(Reprs(r, doc)))
  {
    RoundTrip(doc);
    CanonReprs(r, doc);
  }

  function Under(v: Json): Json { Obj([Member([97], v)]) }

  lemma UnderText(r: Rules, text: PyStr, v: Json)
    requires Loads(text).Done? && Loads(text).value == Under(v)
    requires Canon(v) == v && Unique(v) && !HasConstant(v)
    ensures ObjectText(r, text) == Some(Print(Under(Reprs(r, v))))
  {
    var ms := [Member([97], v)];
    assert ms[1..] == [];
    assert CanonMembers(ms) == ms && Sort(ms) == ms && ReprMembers(r, ms) == [Member([97], Reprs(r, v))];
    assert Canon(Under(v)) == Under(v) && Reprs(r, Under(v)) == Under(Reprs(r, v));
    assert Unique(Under(v)) && !HasConstant(Under(v));
  }

  lemma UnderRead(v: Json)
    requires Printable(v)
    ensures Loads(Print(Under(v))) == Done(Under(v), |Print(Under(v))|)
  {
    var ms := [Member([97], v)];
    assert ms[1..] == [] && Paired(ms[0].key) && PrintableMembers(ms);
    RoundTrip(Under(v));
  }

  /** An overflowing float in an object argument, with the text it is normalised to. */
  lemma OverflowPasses(r: Rules, x: PyStr)
    requires IsFloat(x) && r.repr(x) == INF_WORD
    ensures ObjectText(r, Print(Under(Float(x)))) == Some(Print(Under(Constant(INF_WORD))))
  {
    UnderRead(Float(x));
    UnderText(r, Print(Under(Float(x))), Float(x));
  }

  // ---------------------------------------------------------------- two values, one text

  /** `{"a":"H\uXXXX"}`: the high surrogate H itself, before the escape of a low one. */
  function SplitText(hi: Code, lo: Code): PyStr
    requires IsHigh(hi) && IsLow(lo)
  {
    [OPEN_BRACE, QUOTE, 97, QUOTE, COLON, QUOTE, hi] + Unicode(lo) + [QUOTE, CLOSE_BRACE]
  }

  lemma SplitTextAt(hi: Code, lo: Code)
    requires IsHigh(hi) && IsLow(lo)
    ensures var s := SplitText(hi, lo);
      && |s| == 15 && StartsAt(s, 7, Unicode(lo))
      && s[0] == OPEN_BRACE && s[1] == QUOTE && s[2] == 97 && s[3] == QUOTE && s[4] == COLON && s[5] == QUOTE
      && s[6] == hi && s[13] == QUOTE && s[14] == CLOSE_BRACE
  {
    var s := SplitText(hi, lo);
    assert s[7..13] == Unicode(lo);
  }

  lemma SplitString(s: PyStr, hi: Code, lo: Code)
    requires IsHigh(hi) && IsLow(lo) && s == SplitText(hi, lo)
    ensures |s| == 15 && ScanString(s, 6) == Done([hi, lo], 14)
  {
    SplitTextAt(hi, lo);
    UnicodeRead(s, 7, lo);
    assert ScanString(s, 13) == Done([], 14);
    ScanOne(s, 7, lo, 13, [], 14);
    ScanOne(s, 6, hi, 7, [lo] + [], 14);
    assert [hi] + ([lo] + []) == [hi, lo];
  }

  lemma SplitKey(s: PyStr, hi: Code, lo: Code)
    requires IsHigh(hi) && IsLow(lo) && s == SplitText(hi, lo)
    ensures |s| == 15 && ScanString(s, 2) == Done([97], 4)
  {
    SplitTextAt(hi, lo);
    assert ScanString(s, 3) == Done([], 4);
    ScanOne(s, 2, 97, 3, [], 4);
    assert [97] + [] == [97];
  }

  lemma SplitTextRead(hi: Code, lo: Code)
    requires IsHigh(hi) && IsLow(lo)
    ensures Loads(SplitText(hi, lo)) == Done(Under(Str([hi, lo])), 15)
  {
    var s := SplitText(hi, lo);
    SplitTextAt(hi, lo);
    SplitString(s, hi, lo);
    SplitKey(s, hi, lo);
    assert ParseValue(s, 5) == Done(Str([hi, lo]), 14);
    assert SkipWs(s, 5) == 5;
    PairParsed(s, 1, [97], 4, Str([hi, lo]), 14);
    assert SkipWs(s, 14) == 14 && MoreMembers(s, 14) == Done([], 15);
    MembersJoin(s, 1, Member([97], Str([hi, lo])), 14, [], 15);
    assert [Member([97], Str([hi, lo]))] + [] == [Member([97], Str([hi, lo]))];
    ObjectRead(s, [Member([97], Str([hi, lo]))]);
  }

  lemma ObjectRead(s: PyStr, ms: seq<Member>)
    requires |s| > 1 && s[0] == OPEN_BRACE && s[1] == QUOTE && ParseMembers(s, 1) == Done(ms, |s|)
    ensures Loads(s) == Done(Obj(ms), |s|)
  {
    assert SkipWs(s, 0) == 0 && SkipWs(s, 1) == 1 && SkipWs(s, |s|) == |s|;
    assert ParseObject(s, 1) == ParseMembers(s, 1);
    assert ParseValue(s, 0) == Done(Obj(ms), |s|);
  }

  /** Two JSON values, one normalised text: for every pair of surrogates there are two argument texts,
      each of which the outer JSON text can carry, that say different values and are normalised
      alike. */
  lemma SplitsCollide(r: Rules, hi: Code, lo: Code) returns (v: PyStr, v': PyStr)
    requires IsHigh(hi) && IsLow(lo)
    ensures Loads(Print(Str(v))) == Done(Str(v), |Print(Str(v))|) && Ascii(Print(Str(v)))
    ensures Loads(Print(Str(v'))) == Done(Str(v'), |Print(Str(v'))|) && Ascii(Print(Str(v')))
    ensures ObjectText(r, v).Some? && ObjectText(r, v) == ObjectText(r, v')
    ensures !Same(Loads(v).value, Loads(v').value)
  {
    var split, joined := Str([hi, lo]), Str([Joined(hi, lo)]);
    v, v' := SplitText(hi, lo), Print(Under(joined));
    SplitTextRead(hi, lo);
    UnderRead(joined);
    UnderText(r, v, split);
    UnderText(r, v', joined);
    SplitPrintsAlike(hi, lo);
    NotSame(split, joined);
    SplitTextPaired(hi, lo);
    UnderAscii(joined);
    Carried(v);
    Carried(v');
  }

  /** The outer JSON text can carry the string. */
  lemma Carried(v: PyStr)
    requires Paired(v)
    ensures Loads(Print(Str(v))) == Done(Str(v), |Print(Str(v))|) && Ascii(Print(Str(v)))
  {
    RoundTrip(Str(v));
    PrintAscii(Str(v));
  }

  lemma UnderAscii(v: Json)
    requires v.Str?
    ensures Paired(Print(Under(v)))
  {
    var ms := [Member([97], v)];
    assert ms[1..] == [] && AsciiFloats(ms[0].value);
    assert AsciiFloatMembers(ms[1..]);
    assert AsciiFloatMembers(ms);
    PrintAscii(Under(v));
    AsciiPaired(Print(Under(v)));
  }

  lemma UnderCanon(v: Json)
    requires Canon(v) == v && Unique(v)
    ensures Canon(Under(v)) == Under(v) && Unique(Under(v))
  {
    var ms := [Member([97], v)];
    assert ms[1..] == [] && CanonMembers(ms) == ms && Sort(ms) == Insert(ms[0], []);
  }

  lemma NotSame(v: Json, v': Json)
    requires v != v' && Canon(v) == v && Canon(v') == v' && Unique(v) && Unique(v')
    ensures !Same(Under(v), Under(v'))
  {
    UnderCanon(v);
    UnderCanon(v');
    CanonDecides(Under(v), Under(v'));
    assert Under(v).members[0] == Member([97], v) && Under(v').members[0] == Member([97], v');
  }

  lemma SplitPrintsAlike(hi: Code, lo: Code)
    requires IsHigh(hi) && IsLow(lo)
    ensures Print(Under(Str([hi, lo]))) == Print(Under(Str([Joined(hi, lo)])))
  {
    assert FuseText([hi, lo]) == [Joined(hi, lo)] by { assert [hi, lo][2..] == []; }
    FuseEscapes([hi, lo]);
    PrintedAlike(Str([hi, lo]), Str([Joined(hi, lo)]));
  }

  lemma PrintedAlike(v: Json, v': Json)
    requires Print(v) == Print(v')
    ensures Print(Under(v)) == Print(Under(v'))
  {
    assert [Member([97], v)][1..] == [] && [Member([97], v')][1..] == [];
  }

  lemma SplitTextPaired(hi: Code, lo: Code)
    requires IsHigh(hi) && IsLow(lo)
    ensures Paired(SplitText(hi, lo))
  {
    var s := SplitText(hi, lo);
    SplitTextAt(hi, lo);
    forall i | 0 <= i < |s| && i != 6 ensures s[i] < 128 {
      if 7 <= i < 13 { AtIndex(s, 7, Unicode(lo), i - 7); }
    }
  }
}
