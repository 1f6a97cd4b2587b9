// Split surrogate pairs: the one thing the encoder forgets. A high surrogate directly before a low one
// prints as the escapes of the character they encode, so the decoder reads the two back as one.
module SplitPairs {
  import opened PyText
  import opened Json
  import opened JsonText
  import opened Canonical

  // ---------------------------------------------------------------- joining split pairs

  function Joined(hi: Code, lo: Code): Code
    requires IsHigh(hi) && IsLow(lo)
  {
    0x10000 + (hi - 0xD800) * 0x400 + (lo - 0xDC00)
  }

  predicate SplitsFirst(t: PyStr) { |t| > 1 && IsHigh(t[0]) && IsLow(t[1]) }

  function FuseText(t: PyStr): PyStr
    decreases |t|
  {
    if t == [] then []
    else if SplitsFirst(t) then [Joined(t[0], t[1])] + FuseText(t[2..])
    else [t[0]] + FuseText(t[1..])
  }

  /** Every split pair joined, in keys and strings, at every depth. */
  function Fuse(v: Json): Json {
    match v
    case Str(text) => Str(FuseText(text))
    case Arr(items) => Arr(FuseItems(items))
    case Obj(ms) => Obj(FuseMembers(ms))
    case _ => v
  }

  function FuseItems(items: seq<Json>): seq<Json> {
    if items == [] then [] else [Fuse(items[0])] + FuseItems(items[1..])
  }

  function FuseMembers(ms: seq<Member>): seq<Member> {
    if ms == [] then []
    else var v := ms[0].value; [Member(FuseText(ms[0].key), Fuse(v))] + FuseMembers(ms[1..])
  }

  lemma JoinedParts(hi: int, lo: int)
    requires IsHigh(hi) && IsLow(lo)
    ensures ((hi - 0xD800) * 0x400 + (lo - 0xDC00)) / 0x400 == hi - 0xD800
    ensures ((hi - 0xD800) * 0x400 + (lo - 0xDC00)) % 0x400 == lo - 0xDC00
  {
  }

  lemma SurrogateEscape(c: Code)
    requires IsHigh(c) || IsLow(c)
    ensures EscapeCode(c) == Unicode(c)
  {
  }

  lemma AstralEscape(c: Code, hi: int, lo: int)
    requires c >= 0x10000 && hi == 0xD800 + (c - 0x10000) / 0x400 && lo == 0xDC00 + (c - 0x10000) % 0x400
    ensures EscapeCode(c) == Unicode(hi) + Unicode(lo)
  {
  }

  lemma JoinedEscapes(hi: Code, lo: Code)
    requires IsHigh(hi) && IsLow(lo)
    ensures EscapeCode(Joined(hi, lo)) == EscapeCode(hi) + EscapeCode(lo)
  {
    JoinedParts(hi, lo);
    SurrogateEscape(hi);
    SurrogateEscape(lo);
    AstralEscape(Joined(hi, lo), hi, lo);
  }

  lemma EscapesTwo(t: PyStr)
    requires |t| > 1
    ensures Escapes(t) == EscapeCode(t[0]) + EscapeCode(t[1]) + Escapes(t[2..])
  {
    assert t[1..][1..] == t[2..];
    var a, b, c := EscapeCode(t[0]), EscapeCode(t[1]), Escapes(t[2..]);
    assert a + (b + c) == a + b + c;
  }

  lemma EscapesCons(c: Code, t: PyStr)
    ensures Escapes([c] + t) == EscapeCode(c) + Escapes(t)
  {
    assert ([c] + t)[1..] == t;
  }

  lemma {:induction false} FuseEscapes(t: PyStr)
    ensures Escapes(FuseText(t)) == Escapes(t)
    decreases |t|
  {
    if t == [] {
    } else if SplitsFirst(t) {
      FuseEscapes(t[2..]);
      EscapesTwo(t);
      JoinedEscapes(t[0], t[1]);
      EscapesCons(Joined(t[0], t[1]), FuseText(t[2..]));
    } else {
      FuseEscapes(t[1..]);
      EscapesCons(t[0], FuseText(t[1..]));
    }
  }

  lemma {:induction false} FusePaired(t: PyStr)
    ensures Paired(FuseText(t))
    ensures FuseText(t) != [] ==> t != [] && (IsLow(FuseText(t)[0]) ==> IsLow(t[0]))
    decreases |t|
  {
    if t == [] {
    } else if SplitsFirst(t) {
      FusePaired(t[2..]);
      PairedCons(Joined(t[0], t[1]), FuseText(t[2..]));
    } else {
      FusePaired(t[1..]);
      PairedCons(t[0], FuseText(t[1..]));
    }
  }

  // ---------------------------------------------------------------- printing forgets exactly that

  lemma {:induction false} FusePrint(v: Json)
    ensures Print(Fuse(v)) == Print(v)
    decreases v, 1
  {
    match v
    case Str(text) => FuseEscapes(text);
    case Arr(items) =>
      if items != [] {
        FusePrint(items[0]);
        FuseMoreItems(items[1..]);
        assert FuseItems(items)[1..] == FuseItems(items[1..]);
      }
    case Obj(ms) => FusePrintMembers(ms);
    case _ =>
  }

  lemma {:induction false} FuseMoreItems(items: seq<Json>)
    ensures MoreItems(FuseItems(items)) == MoreItems(items)
    decreases items, 0
  {
    if items != [] {
      FusePrint(items[0]);
      FuseMoreItems(items[1..]);
      assert FuseItems(items)[1..] == FuseItems(items[1..]);
    }
  }

  lemma {:induction false} FusePrintMembers(ms: seq<Member>)
    ensures PrintMembers(FuseMembers(ms)) == PrintMembers(ms)
    ensures MoreMembersText(FuseMembers(ms)) == MoreMembersText(ms)
    decreases ms, 0
  {
    if ms != [] {
      var v := ms[0].value;
      FuseEscapes(ms[0].key);
      FusePrint(v);
      FusePrintMembers(ms[1..]);
      assert FuseMembers(ms)[1..] == FuseMembers(ms[1..]);
    }
  }

  /** Printable, but for split pairs. */
  predicate Storable(v: Json) {
    match v
    case Arr(items) => StorableItems(items)
    case Obj(ms) => StorableMembers(ms)
    case Str(_) => true
    case _ => Printable(v)
  }

  predicate StorableItems(items: seq<Json>) { items == [] || (Storable(items[0]) && StorableItems(items[1..])) }

  predicate StorableMembers(ms: seq<Member>) {
    ms == [] || (var v := ms[0].value; Storable(v) && StorableMembers(ms[1..]))
  }

  lemma {:induction false} FusePrintable(v: Json)
    requires Storable(v)
    ensures Printable(Fuse(v))
    decreases v, 1
  {
    match v
    case Str(text) => FusePaired(text);
    case Arr(items) => FuseItemsPrintable(items);
    case Obj(ms) => FuseMembersPrintable(ms);
    case _ =>
  }

  lemma {:induction false} FuseItemsPrintable(items: seq<Json>)
    requires StorableItems(items)
    ensures PrintableItems(FuseItems(items))
    decreases items, 0
  {
    if items != [] {
      FusePrintable(items[0]);
      FuseItemsPrintable(items[1..]);
      assert FuseItems(items)[1..] == FuseItems(items[1..]);
    }
  }

  lemma {:induction false} FuseMembersPrintable(ms: seq<Member>)
    requires StorableMembers(ms)
    ensures PrintableMembers(FuseMembers(ms))
    decreases ms, 0
  {
    if ms != [] {
      var v := ms[0].value;
      FusePaired(ms[0].key);
      FusePrintable(v);
      FuseMembersPrintable(ms[1..]);
      assert FuseMembers(ms)[1..] == FuseMembers(ms[1..]);
    }
  }

  /** A printed value reads back with its split pairs joined, and so two values print alike iff they
      differ in nothing else. */
  lemma PrintDecides(a: Json, b: Json)
    requires Storable(a) && Storable(b)
    ensures Print(a) == Print(b) <==> Fuse(a) == Fuse(b)
    ensures Loads(Print(a)) == Done(Fuse(a), |Print(a)|)
  {
    FusePrint(a);
    FusePrint(b);
    FusePrintable(a);
    FusePrintable(b);
    RoundTrip(Fuse(a));
    RoundTrip(Fuse(b));
  }

  // ---------------------------------------------------------------- canonical forms

  lemma {:induction false} InsertStorable(m: Member, ms: seq<Member>)
    requires Storable(m.value) && StorableMembers(ms)
    ensures StorableMembers(Insert(m, ms))
    decreases |ms|
  {
    if ms == [] || Less(m.key, ms[0].key) {
      assert ([m] + ms)[1..] == ms;
    } else {
      InsertStorable(m, ms[1..]);
      assert Insert(m, ms)[1..] == Insert(m, ms[1..]);
    }
  }

  lemma {:induction false} SortStorable(ms: seq<Member>)
    requires StorableMembers(ms)
    ensures StorableMembers(Sort(ms))
    decreases |ms|
  {
    if ms != [] {
      SortStorable(ms[1..]);
      InsertStorable(ms[0], Sort(ms[1..]));
    }
  }

  lemma {:induction false} CanonStorable(v: Json)
    requires Storable(v)
    ensures Storable(Canon(v))
    decreases v, 1
  {
    match v
    case Arr(items) => CanonItemsStorable(items);
    case Obj(ms) =>
      CanonMembersStorable(ms);
      SortStorable(CanonMembers(ms));
    case _ =>
  }

  lemma {:induction false} CanonItemsStorable(items: seq<Json>)
    requires StorableItems(items)
    ensures StorableItems(CanonItems(items))
    decreases items, 0
  {
    if items != [] {
      CanonStorable(items[0]);
      CanonItemsStorable(items[1..]);
      assert CanonItems(items)[1..] == CanonItems(items[1..]);
    }
  }

  lemma {:induction false} CanonMembersStorable(ms: seq<Member>)
    requires StorableMembers(ms)
    ensures StorableMembers(CanonMembers(ms))
    decreases ms, 0
  {
    if ms != [] {
      var v := ms[0].value;
      CanonStorable(v);
      CanonMembersStorable(ms[1..]);
      assert CanonMembers(ms)[1..] == CanonMembers(ms[1..]);
    }
  }

  /** Two values have the same canonical text iff their canonical forms differ at most in split
      pairs. */
  lemma DumpsFuse(a: Json, b: Json)
    requires Storable(a) && Storable(b)
    ensures Dumps(a) == Dumps(b) <==> Fuse(Canon(a)) == Fuse(Canon(b))
  {
    CanonStorable(a);
    CanonStorable(b);
    PrintDecides(Canon(a), Canon(b));
  }

  // ---------------------------------------------------------------- what the decoder gives is storable

  lemma {:induction false} DigitsBound(s: PyStr, i: nat, j: nat)
    requires i <= j <= |s| && forall k :: i <= k < j ==> IsDigit(s[k])
    ensures DigitsVal(s, i, j) < Power10(j - i)
    decreases j
  {
    if i < j {
      DigitsBound(s, i, j - 1);
      assert IsDigit(s[j-1]);
    }
  }

  lemma DigitsPrintable(s: PyStr, a: nat, b: nat)
    requires a < b <= |s| && (forall k :: a <= k < b ==> IsDigit(s[k])) && b - a <= MAX_INT_DIGITS
    ensures |Decimal(DigitsVal(s, a, b))| <= MAX_INT_DIGITS
  {
    DigitsBound(s, a, b);
    DecimalLength(DigitsVal(s, a, b), b - a);
  }

  // A number reads the same when the text is cut where it ends.

  lemma {:induction false} SkipDigitsCut(s: PyStr, i: nat, e: nat, k: nat)
    requires i <= k <= e <= |s| && SkipDigits(s, k) <= e
    ensures SkipDigits(s[i..e], k - i) == SkipDigits(s, k) - i
    decreases e - k
  {
    if k < |s| && IsDigit(s[k]) { SkipDigitsCut(s, i, e, k + 1); }
  }

  lemma FractionCut(s: PyStr, i: nat, e: nat, k: nat)
    requires i <= k <= e <= |s| && FractionEnd(s, k) <= e
    ensures FractionEnd(s[i..e], k - i) == FractionEnd(s, k) - i
  {
    if FractionEnd(s, k) > k { SkipDigitsCut(s, i, e, k + 1); }
  }

  lemma ExponentCut(s: PyStr, i: nat, e: nat, k: nat)
    requires i <= k <= e <= |s| && ExponentEnd(s, k) <= e
    ensures ExponentEnd(s[i..e], k - i) == ExponentEnd(s, k) - i
  {
    if ExponentEnd(s, k) > k {
      var d := if s[k+1] == PLUS || s[k+1] == MINUS then k + 2 else k + 1;
      SkipDigitsCut(s, i, e, d);
    }
  }

  lemma FloatScanned(s: PyStr, i: nat)
    requires i <= |s| && ScanNumber(s, i).Done? && ScanNumber(s, i).value.Float?
    ensures var e := ScanNumber(s, i).end;
      var a := if s[i] == MINUS then i + 1 else i;
      && a < e && IsDigit(s[a]) && IntegerEnd(s, a) < e
      && ExponentEnd(s, FractionEnd(s, IntegerEnd(s, a))) == e && ScanNumber(s, i).value == Float(s[i..e])
  {
  }

  lemma IntegerCut(s: PyStr, i: nat, e: nat, a: nat)
    requires i <= a < e <= |s| && IntegerEnd(s, a) <= e
    ensures IntegerEnd(s[i..e], a - i) == IntegerEnd(s, a) - i
  {
    if s[a] != ZERO { SkipDigitsCut(s, i, e, a); }
  }

  lemma PartsCut(s: PyStr, i: nat, e: nat, b: nat)
    requires i <= b < e <= |s| && ExponentEnd(s, FractionEnd(s, b)) == e
    ensures ExponentEnd(s[i..e], FractionEnd(s[i..e], b - i)) == e - i
  {
    FractionCut(s, i, e, b);
    ExponentCut(s, i, e, FractionEnd(s, b));
  }

  lemma FloatCut(s: PyStr, i: nat)
    requires i <= |s| && ScanNumber(s, i).Done? && ScanNumber(s, i).value.Float?
    ensures Printable(ScanNumber(s, i).value)
  {
    FloatScanned(s, i);
    FloatCutAt(s, i, if s[i] == MINUS then i + 1 else i, ScanNumber(s, i).end);
  }

  lemma FloatCutAt(s: PyStr, i: nat, a: nat, e: nat)
    requires i < |s| && a == (if s[i] == MINUS then i + 1 else i) && a < e <= |s| && IsDigit(s[a])
    requires IntegerEnd(s, a) < e && ExponentEnd(s, FractionEnd(s, IntegerEnd(s, a))) == e
    ensures IsFloat(s[i..e])
  {
    IntegerCut(s, i, e, a);
    PartsCut(s, i, e, IntegerEnd(s, a));
    FloatWhole(s[i..e], a - i);
  }

  lemma FloatWhole(x: PyStr, a: nat)
    requires x != [] && a == (if x[0] == MINUS then 1 else 0) && a < |x| && IsDigit(x[a])
    requires IntegerEnd(x, a) < |x| == ExponentEnd(x, FractionEnd(x, IntegerEnd(x, a)))
    ensures IsFloat(x)
  {
    FloatJoined(x, 0, a, |x|);
    assert x[0..|x|] == x;
  }

  lemma NumberStorable(s: PyStr, i: nat)
    requires i <= |s| && ScanNumber(s, i).Done?
    ensures Storable(ScanNumber(s, i).value)
  {
    if ScanNumber(s, i).value.Float? {
      FloatCut(s, i);
    } else {
      var a := if s[i] == MINUS then i + 1 else i;
      var b := IntegerEnd(s, a);
      DigitsPrintable(s, a, b);
    }
  }

  /** Whatever the decoder gives prints and, but for split pairs, reads back. */
  lemma {:induction false} ParsedStorable(s: PyStr, i: nat)
    requires i <= |s| && ParseValue(s, i).Done?
    ensures Storable(ParseValue(s, i).value)
    decreases |s| - i, 0
  {
    if s[i] == QUOTE {
    } else if s[i] == OPEN_BRACE {
      ObjectStorable(s, i + 1);
    } else if s[i] == OPEN_BRACKET {
      ArrayStorable(s, i + 1);
    } else if ParseValue(s, i) == ScanNumber(s, i) {
      NumberStorable(s, i);
    }
  }

  lemma {:induction false} ObjectStorable(s: PyStr, i: nat)
    requires i <= |s| && ParseObject(s, i).Done?
    ensures StorableMembers(ParseObject(s, i).value)
    decreases |s| - i, 3
  {
    var j := SkipWs(s, i);
    if j == |s| || s[j] != CLOSE_BRACE { MembersStorable(s, j); }
  }

  lemma {:induction false} PairStorable(s: PyStr, i: nat)
    requires i <= |s| && ParsePair(s, i).Done?
    ensures Storable(ParsePair(s, i).value.value)
    decreases |s| - i, 1
  {
    ParsedStorable(s, SkipWs(s, SkipWs(s, ScanString(s, i + 1).end) + 1));
  }

  lemma {:induction false} MembersStorable(s: PyStr, i: nat)
    requires i <= |s| && ParseMembers(s, i).Done?
    ensures StorableMembers(ParseMembers(s, i).value)
    decreases |s| - i, 2
  {
    var pair := ParsePair(s, i);
    PairStorable(s, i);
    var n := SkipWs(s, pair.end);
    if s[n] == COMMA { MembersStorable(s, SkipWs(s, n + 1)); }
    assert ParseMembers(s, i).value[1..] == MoreMembers(s, pair.end).value;
  }

  lemma {:induction false} ArrayStorable(s: PyStr, i: nat)
    requires i <= |s| && ParseArray(s, i).Done?
    ensures StorableItems(ParseArray(s, i).value)
    decreases |s| - i, 2
  {
    var j := SkipWs(s, i);
    if j == |s| || s[j] != CLOSE_BRACKET { ElementsStorable(s, j); }
  }

  lemma {:induction false} ElementsStorable(s: PyStr, i: nat)
    requires i <= |s| && ParseElements(s, i).Done?
    ensures StorableItems(ParseElements(s, i).value)
    decreases |s| - i, 1
  {
    var v := ParseValue(s, i);
    ParsedStorable(s, i);
    var n := SkipWs(s, v.end);
    if s[n] == COMMA { ElementsStorable(s, SkipWs(s, n + 1)); }
    assert ParseElements(s, i).value[1..] == MoreElements(s, v.end).value;
  }

  /** A value that reads back as itself has no split pair. */
  lemma PrintableFused(v: Json)
    requires Printable(v)
    ensures Fuse(v) == v
  {
    RoundTrip(v);
    ParsedStorable(Print(v), SkipWs(Print(v), 0));
    PrintDecides(v, v);
  }
}
