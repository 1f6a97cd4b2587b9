// vcrun.py's _last_json_object: the final JSON envelope is recovered from noisy output by trying
// every `{` from the right.
module LastObject {
  import opened PyText
  import opened Json

  // ---------------------------------------------------------------- lexical shape
  // A reading of the text that knows only strings and braces (RFC 8259 sections 4 and 7).

  datatype Lex = Broken | Outside(depth: nat) | Inside(depth: nat) | Escape(depth: nat)

  function Step(st: Lex, c: Code): Lex {
    match st
    case Broken => Broken
    case Outside(d) =>
      if c == QUOTE then Inside(d)
      else if c == BACKSLASH then Broken
      else if c == OPEN_BRACE then Outside(d + 1)
      else if c == CLOSE_BRACE then (if d == 0 then Broken else Outside(d - 1))
      else st
    case Inside(d) =>
      if c == QUOTE then Outside(d) else if c == BACKSLASH then Escape(d) else st
    case Escape(d) => if c == OPEN_BRACE then Broken else Inside(d)
  }

  function Read(s: PyStr, i: nat, j: nat, st: Lex): Lex
    requires i <= j <= |s|
    decreases j - i
  {
    if i == j then st else Read(s, i + 1, j, Step(st, s[i]))
  }

  lemma {:induction false} ReadSplit(s: PyStr, i: nat, k: nat, j: nat, st: Lex)
    requires i <= k <= j <= |s|
    ensures Read(s, i, j, st) == Read(s, k, j, Read(s, i, k, st))
    decreases k - i
  {
    if i < k { ReadSplit(s, i + 1, k, j, Step(st, s[i])); }
  }

  lemma {:induction false} ReadBroken(s: PyStr, i: nat, j: nat)
    requires i <= j <= |s|
    ensures Read(s, i, j, Broken) == Broken
    decreases j - i
  {
    if i < j { ReadBroken(s, i + 1, j); }
  }

  predicate Plain(c: Code) { c != QUOTE && c != BACKSLASH && c != OPEN_BRACE && c != CLOSE_BRACE }

  lemma {:induction false} ReadPlain(s: PyStr, i: nat, j: nat, st: Lex)
    requires i <= j <= |s| && (st.Outside? || st.Inside?)
    requires forall k :: i <= k < j ==> Plain(s[k])
    ensures Read(s, i, j, st) == st
    decreases j - i
  {
    if i < j { assert Plain(s[i]); ReadPlain(s, i + 1, j, st); }
  }

  // ---------------------------------------------------------------- what a parse looks like

  lemma {:induction false} StringShape(s: PyStr, i: nat, d: nat)
    requires i <= |s| && ScanString(s, i).Done?
    ensures Read(s, i, ScanString(s, i).end, Inside(d)) == Outside(d)
    decreases |s| - i
  {
    var e := ScanString(s, i).end;
    if s[i] == QUOTE {
    } else if s[i] == BACKSLASH {
      var esc := ScanEscape(s, i + 1);
      ReadSplit(s, i, esc.end, e, Inside(d));
      EscapeShape(s, i, d);
      StringShape(s, esc.end, d);
    } else {
      StringShape(s, i + 1, d);
    }
  }

  lemma {:induction false} EscapeShape(s: PyStr, i: nat, d: nat)
    requires i < |s| && s[i] == BACKSLASH && ScanEscape(s, i + 1).Escaped?
    ensures Read(s, i, ScanEscape(s, i + 1).end, Inside(d)) == Inside(d)
  {
    var e := ScanEscape(s, i + 1).end;
    assert Read(s, i, e, Inside(d)) == Read(s, i + 2, e, Inside(d));
    if s[i+1] == LOWER_U {
      assert forall k :: i + 2 <= k < i + 6 ==> Plain(s[k]) by {
        assert HexVal(s[i+2]) >= 0 && HexVal(s[i+3]) >= 0 && HexVal(s[i+4]) >= 0 && HexVal(s[i+5]) >= 0;
      }
      ReadPlain(s, i + 2, i + 6, Inside(d));
      if e > i + 6 {
        ReadSplit(s, i + 2, i + 6, e, Inside(d));
        assert Read(s, i + 6, e, Inside(d)) == Read(s, i + 8, e, Inside(d));
        assert forall k :: i + 8 <= k < i + 12 ==> Plain(s[k]) by {
          assert HexVal(s[i+8]) >= 0 && HexVal(s[i+9]) >= 0 && HexVal(s[i+10]) >= 0 && HexVal(s[i+11]) >= 0;
        }
        ReadPlain(s, i + 8, i + 12, Inside(d));
      }
    }
  }

  lemma {:induction false} WsShape(s: PyStr, i: nat, d: nat)
    requires i <= |s|
    ensures Read(s, i, SkipWs(s, i), Outside(d)) == Outside(d)
    decreases |s| - i
  {
    if i < |s| && IsWs(s[i]) { WsShape(s, i + 1, d); }
  }

  lemma WordShape(s: PyStr, i: nat, word: PyStr, d: nat)
    requires StartsAt(s, i, word)
    requires forall k :: 0 <= k < |word| ==> Plain(word[k])
    ensures Read(s, i, i + |word|, Outside(d)) == Outside(d)
  {
    forall k | i <= k < i + |word| ensures Plain(s[k]) {
      assert s[k] == s[i..i+|word|][k-i];
    }
    ReadPlain(s, i, i + |word|, Outside(d));
  }

  lemma NumberShape(s: PyStr, i: nat, d: nat)
    requires i <= |s| && ScanNumber(s, i).Done?
    ensures Read(s, i, ScanNumber(s, i).end, Outside(d)) == Outside(d)
  {
    var e := ScanNumber(s, i).end;
    forall k | i <= k < e ensures Plain(s[k]) {}
    ReadPlain(s, i, e, Outside(d));
  }

  lemma {:induction false} ValueShape(s: PyStr, i: nat, d: nat)
    requires i <= |s| && ParseValue(s, i).Done?
    ensures Read(s, i, ParseValue(s, i).end, Outside(d)) == Outside(d)
    decreases |s| - i, 0
  {
    if s[i] == QUOTE {
      StringShape(s, i + 1, d);
    } else if s[i] == OPEN_BRACE {
      ObjectShape(s, i + 1, d + 1);
      var e := ParseObject(s, i + 1).end;
      ReadSplit(s, i + 1, e - 1, e, Outside(d + 1));
    } else if s[i] == OPEN_BRACKET {
      ArrayShape(s, i + 1, d);
    } else if StartsAt(s, i, NULL_WORD) { WordShape(s, i, NULL_WORD, d);
    } else if StartsAt(s, i, TRUE_WORD) { WordShape(s, i, TRUE_WORD, d);
    } else if StartsAt(s, i, FALSE_WORD) { WordShape(s, i, FALSE_WORD, d);
    } else if StartsAt(s, i, NAN_WORD) { WordShape(s, i, NAN_WORD, d);
    } else if StartsAt(s, i, INF_WORD) { WordShape(s, i, INF_WORD, d);
    } else if StartsAt(s, i, NEG_INF_WORD) { WordShape(s, i, NEG_INF_WORD, d);
    } else { NumberShape(s, i, d); }
  }

  lemma Join(s: PyStr, i: nat, k: nat, j: nat, a: Lex, b: Lex)
    requires i <= k <= j <= |s|
    requires Read(s, i, k, a) == b
    ensures Read(s, i, j, a) == Read(s, k, j, b)
  {
    ReadSplit(s, i, k, j, a);
  }

  /** Between its braces an object returns to the state it started in, at any depth: the depth
      never falls below it. */
  lemma {:induction false} ObjectShape(s: PyStr, i: nat, d: nat)
    requires i <= |s| && ParseObject(s, i).Done?
    ensures Read(s, i, ParseObject(s, i).end - 1, Outside(d)) == Outside(d)
    decreases |s| - i, 3
  {
    var j, end := SkipWs(s, i), ParseObject(s, i).end - 1;
    WsShape(s, i, d);
    Join(s, i, j, end, Outside(d), Outside(d));
    if s[j] != CLOSE_BRACE { MembersShape(s, j, d); }
  }

  lemma {:induction false} PairShape(s: PyStr, i: nat, d: nat)
    requires i <= |s| && ParsePair(s, i).Done?
    ensures Read(s, i, ParsePair(s, i).end, Outside(d)) == Outside(d)
    decreases |s| - i, 1
  {
    var k := ScanString(s, i + 1).end;
    var c := SkipWs(s, k);
    var v := SkipWs(s, c + 1);
    StringShape(s, i + 1, d);
    WsShape(s, k, d);
    WsShape(s, c + 1, d);
    ValueShape(s, v, d);
    MemberChain(s, i, k, c, v, ParsePair(s, i).end, d);
  }

  /** One member, from its opening quote at i past its value at e. */
  lemma MemberChain(s: PyStr, i: nat, k: nat, c: nat, v: nat, e: nat, d: nat)
    requires i < k <= c < v <= e <= |s| && s[i] == QUOTE && s[c] == COLON
    requires Read(s, i + 1, k, Inside(d)) == Outside(d)
    requires Read(s, k, c, Outside(d)) == Outside(d)
    requires Read(s, c + 1, v, Outside(d)) == Outside(d)
    requires Read(s, v, e, Outside(d)) == Outside(d)
    ensures Read(s, i, e, Outside(d)) == Outside(d)
  {
    assert Read(s, i, e, Outside(d)) == Read(s, i + 1, e, Inside(d));
    Join(s, i + 1, k, e, Inside(d), Outside(d));
    Join(s, k, c, e, Outside(d), Outside(d));
    assert Read(s, c, e, Outside(d)) == Read(s, c + 1, e, Outside(d));
    Join(s, c + 1, v, e, Outside(d), Outside(d));
  }

  lemma {:induction false} MembersShape(s: PyStr, i: nat, d: nat)
    requires i <= |s| && ParseMembers(s, i).Done?
    ensures Read(s, i, ParseMembers(s, i).end - 1, Outside(d)) == Outside(d)
    decreases |s| - i, 2
  {
    var e := ParsePair(s, i).end;
    PairShape(s, i, d);
    MoreMembersShape(s, e, d);
    Join(s, i, e, ParseMembers(s, i).end - 1, Outside(d), Outside(d));
  }

  lemma {:induction false} MoreMembersShape(s: PyStr, i: nat, d: nat)
    requires i <= |s| && MoreMembers(s, i).Done?
    ensures Read(s, i, MoreMembers(s, i).end - 1, Outside(d)) == Outside(d)
    decreases |s| - i, 3
  {
    var n, end := SkipWs(s, i), MoreMembers(s, i).end - 1;
    WsShape(s, i, d);
    if s[n] == COMMA {
      var m := SkipWs(s, n + 1);
      WsShape(s, n + 1, d);
      MembersShape(s, m, d);
      CommaChain(s, i, n, m, end, d);
    }
  }

  /** From i past the comma at n and the blanks up to m, to end. */
  lemma CommaChain(s: PyStr, i: nat, n: nat, m: nat, end: nat, d: nat)
    requires i <= n < m <= end <= |s| && s[n] == COMMA
    requires Read(s, i, n, Outside(d)) == Outside(d)
    requires Read(s, n + 1, m, Outside(d)) == Outside(d)
    ensures Read(s, i, end, Outside(d)) == Read(s, m, end, Outside(d))
  {
    Join(s, i, n, end, Outside(d), Outside(d));
    assert Read(s, n, end, Outside(d)) == Read(s, n + 1, end, Outside(d));
    Join(s, n + 1, m, end, Outside(d), Outside(d));
  }

  lemma {:induction false} ArrayShape(s: PyStr, i: nat, d: nat)
    requires i <= |s| && ParseArray(s, i).Done?
    ensures Read(s, i, ParseArray(s, i).end, Outside(d)) == Outside(d)
    decreases |s| - i, 2
  {
    var j, end := SkipWs(s, i), ParseArray(s, i).end;
    WsShape(s, i, d);
    Join(s, i, j, end, Outside(d), Outside(d));
    if s[j] != CLOSE_BRACKET { ElementsShape(s, j, d); }
  }

  lemma {:induction false} ElementsShape(s: PyStr, i: nat, d: nat)
    requires i <= |s| && ParseElements(s, i).Done?
    ensures Read(s, i, ParseElements(s, i).end, Outside(d)) == Outside(d)
    decreases |s| - i, 1
  {
    var e := ParseValue(s, i).end;
    ValueShape(s, i, d);
    MoreElementsShape(s, e, d);
    Join(s, i, e, ParseElements(s, i).end, Outside(d), Outside(d));
  }

  lemma {:induction false} MoreElementsShape(s: PyStr, i: nat, d: nat)
    requires i <= |s| && MoreElements(s, i).Done?
    ensures Read(s, i, MoreElements(s, i).end, Outside(d)) == Outside(d)
    decreases |s| - i, 2
  {
    var n, end := SkipWs(s, i), MoreElements(s, i).end;
    WsShape(s, i, d);
    if s[n] == COMMA {
      var m := SkipWs(s, n + 1);
      WsShape(s, n + 1, d);
      ElementsShape(s, m, d);
      CommaChain(s, i, n, m, end, d);
    } else {
      Join(s, i, n, end, Outside(d), Outside(d));
    }
  }

  // ---------------------------------------------------------------- one offset only

  datatype Attempt = Hit(value: seq<Member>) | Skip | Raise

  /** One round of the loop: raw_decode of the text from offset on, whose rest must be blank. */
  function Try(s: PyStr, offset: nat): Attempt
    requires offset < |s|
  {
    var text := s[offset..];
    if text[0] != OPEN_BRACE then Skip
    else
      match ParseObject(text, 1)
      case Bad => Skip
      case Limit => Raise
      case Done(ms, end) => if Blank(text[end..]) then Hit(ms) else Skip
  }

  /** Where the object found at offset ends, in the whole text. */
  function HitEnd(s: PyStr, offset: nat): nat
    requires offset < |s| && Try(s, offset).Hit?
  {
    offset + ParseObject(s[offset..], 1).end
  }

  predicate Opposed(a: Lex, b: Lex) { (a.Outside? && b.Inside?) || (a.Inside? && b.Outside?) }

  /** Two readings that disagree on being inside a string either keep disagreeing or one breaks:
      a backslash is impossible outside, so neither ever escapes. */
  lemma {:induction false} Opposite(s: PyStr, i: nat, j: nat, a: Lex, b: Lex)
    requires i <= j <= |s| && Opposed(a, b)
    ensures Read(s, i, j, a) == Broken || Read(s, i, j, b) == Broken || Opposed(Read(s, i, j, a), Read(s, i, j, b))
    decreases j - i
  {
    if i < j {
      var a', b' := Step(a, s[i]), Step(b, s[i]);
      if a' == Broken || b' == Broken { ReadBroken(s, i + 1, j); }
      else { Opposite(s, i + 1, j, a', b'); }
    }
  }

  lemma {:induction false} ReadSlice(s: PyStr, o: nat, i: nat, j: nat, st: Lex)
    requires o + i <= o + j <= |s|
    ensures Read(s[o..], i, j, st) == Read(s, o + i, o + j, st)
    decreases j - i
  {
    if i < j { ReadSlice(s, o, i + 1, j, Step(st, s[o + i])); }
  }

  lemma HitShape(s: PyStr, p: nat, d: nat)
    requires p < |s| && Try(s, p).Hit?
    ensures p + 1 < HitEnd(s, p) <= |s| && s[p] == OPEN_BRACE && s[HitEnd(s, p) - 1] == CLOSE_BRACE
    ensures Blank(s[HitEnd(s, p)..])
    ensures Read(s, p + 1, HitEnd(s, p) - 1, Outside(d)) == Outside(d)
  {
    var end := ParseObject(s[p..], 1).end;
    ObjectShape(s[p..], 1, d);
    ReadSlice(s, p, 1, end - 1, Outside(d));
    assert s[p..][end..] == s[p+end..];
  }

  lemma HitEnds(s: PyStr, p: nat, q: nat)
    requires p < |s| && q < |s| && Try(s, p).Hit? && Try(s, q).Hit?
    ensures HitEnd(s, p) == HitEnd(s, q)
  {
    HitShape(s, p, 0);
    HitShape(s, q, 0);
    var e, f := HitEnd(s, p), HitEnd(s, q);
    assert forall k :: 0 <= k < |s| - e ==> s[e..][k] == s[e + k];
    assert forall k :: 0 <= k < |s| - f ==> s[f..][k] == s[f + k];
  }

  /** At most one offset of any text decodes to an object that ends the text, so the order of the
      search cannot change the answer and no log prefix can shadow the envelope. */
  lemma OneOffset(s: PyStr, p: nat, q: nat)
    requires p < |s| && q < |s| && Try(s, p).Hit? && Try(s, q).Hit?
    ensures p == q
  {
    HitEnds(s, p, q);
    if p < q { NotNested(s, p, q); }
    if q < p { NotNested(s, q, p); }
  }

  lemma NotNested(s: PyStr, p: nat, q: nat)
    requires p < q < |s| && Try(s, p).Hit? && Try(s, q).Hit?
    ensures HitEnd(s, p) != HitEnd(s, q)
  {
    if HitEnd(s, p) == HitEnd(s, q) {
      var last := HitEnd(s, p) - 1;
      HitShape(s, p, 0);
      HitShape(s, q, 1);
      var st := Read(s, p + 1, q, Outside(0));
      Join(s, p + 1, q, last, Outside(0), st);
      if st.Outside? { HitShape(s, q, st.depth + 1); }
      NoSecondStart(s, q, last, st);
    }
  }

  /** No reading that arrives at an opening brace can end at depth 0 where a reading started at
      that brace ends one level up. */
  lemma NoSecondStart(s: PyStr, q: nat, last: nat, st: Lex)
    requires q < last <= |s| && s[q] == OPEN_BRACE
    requires Read(s, q + 1, last, Outside(1)) == Outside(1)
    requires st.Outside? ==> Read(s, q + 1, last, Outside(st.depth + 1)) == Outside(st.depth + 1)
    ensures Read(s, q, last, st) != Outside(0)
  {
    if st.Inside? {
      Opposite(s, q, last, Outside(0), st);
    } else if !st.Outside? {
      ReadBroken(s, q + 1, last);
    }
  }

  // ---------------------------------------------------------------- the search

  datatype Scan = Found(value: seq<Member>) | NoObject | Raised

  /** The rightmost offset that is not skipped decides. */
  ghost predicate Answers(s: PyStr, r: Scan) {
    if forall o :: 0 <= o < |s| ==> Try(s, o).Skip? then r == NoObject
    else exists o :: 0 <= o < |s| && Decides(s, o) && r == Verdict(s, o)
  }

  function Verdict(s: PyStr, o: nat): Scan
    requires o < |s|
  {
    if Try(s, o).Hit? then Found(Try(s, o).value) else Raised
  }

  ghost predicate Decides(s: PyStr, o: nat)
    requires o < |s|
  {
    !Try(s, o).Skip? && forall k :: o < k < |s| ==> Try(s, k).Skip?
  }

  method LastJsonObject(rendered: PyStr) returns (r: Scan)
    ensures Answers(rendered, r)
  {
    var offset := |rendered|;
    while offset > 0
      invariant 0 <= offset <= |rendered|
      invariant forall o :: offset <= o < |rendered| ==> Try(rendered, o).Skip?
    {
      offset := offset - 1;
      match Try(rendered, offset) {
        case Hit(value) =>
          assert Decides(rendered, offset);
          return Found(value);
        case Raise =>
          assert Decides(rendered, offset);
          return Raised;
        case Skip =>
      }
    }
    r := NoObject;
  }

  /** The same search as a function of the text before the given offset. */
  function ScanBefore(s: PyStr, offset: nat): Scan
    requires offset <= |s|
  {
    if offset == 0 then NoObject
    else
      match Try(s, offset - 1)
      case Hit(value) => Found(value)
      case Raise => Raised
      case Skip => ScanBefore(s, offset - 1)
  }

  lemma {:induction false} ScanAnswers(s: PyStr, offset: nat, r: Scan)
    requires offset <= |s| && forall o :: offset <= o < |s| ==> Try(s, o).Skip?
    ensures Answers(s, r) <==> r == ScanBefore(s, offset)
  {
    if offset > 0 {
      if Try(s, offset - 1).Skip? {
        ScanAnswers(s, offset - 1, r);
      } else {
        assert Decides(s, offset - 1);
      }
    }
  }

  lemma LogIndependent(log: PyStr, text: PyStr, k: nat)
    requires k < |text|
    ensures Try(log + text, |log| + k) == Try(text, k)
  {
    assert (log + text)[|log| + k..] == text[k..];
  }

  /** The deciding offset of a text that starts with the final object is 0 or raises. */
  lemma DeciderInside(log: PyStr, text: PyStr, o: nat)
    requires text != [] && Try(text, 0).Hit?
    requires o < |log + text| && Decides(log + text, o)
    ensures o >= |log|
    ensures o == |log| || Try(text, o - |log|).Raise?
  {
    LogIndependent(log, text, 0);
    if o > |log| {
      LogIndependent(log, text, o - |log|);
      if Try(text, o - |log|).Hit? { OneOffset(text, 0, o - |log|); }
    }
  }

  /** The recovery theorem, for every log and every object followed by blanks: the scan returns
      exactly that object, unless a later brace, which then lies inside it, makes int() refuse a
      number of over 4300 digits. */
  lemma FinalObjectFound(log: PyStr, text: PyStr, r: Scan)
    requires text != [] && Try(text, 0).Hit?
    requires Answers(log + text, r)
    ensures r == Found(Try(text, 0).value) <==> NoneRaises(text)
    ensures r == Raised || r == Found(Try(text, 0).value)
  {
    var o := Decider(log, text, r);
    if o == |log| { FirstDecides(log, text); } else { assert Try(text, o - |log|).Raise?; }
  }

  /** Where the scan of a log and a final object is decided. */
  lemma Decider(log: PyStr, text: PyStr, r: Scan) returns (o: nat)
    requires text != [] && Try(text, 0).Hit?
    requires Answers(log + text, r)
    ensures |log| <= o < |log + text| && Decides(log + text, o)
    ensures if o == |log| then r == Found(Try(text, 0).value) else Try(text, o - |log|).Raise? && r == Raised
  {
    LogIndependent(log, text, 0);
    assert !Try(log + text, |log|).Skip?;
    o :| 0 <= o < |log + text| && Decides(log + text, o) && r == Verdict(log + text, o);
    DeciderInside(log, text, o);
    LogIndependent(log, text, o - |log|);
  }

  /** No later brace of the text makes int() raise. */
  predicate NoneRaises(text: PyStr) { forall k :: 0 < k < |text| ==> !Try(text, k).Raise? }

  lemma FirstDecides(log: PyStr, text: PyStr)
    requires text != [] && Decides(log + text, |log|)
    ensures NoneRaises(text)
  {
    forall k | 0 < k < |text| ensures !Try(text, k).Raise? { LogIndependent(log, text, k); }
  }

  // ---------------------------------------------------------------- when nothing raises

  /** More digits at a than int() converts. */
  predicate DigitRun(s: PyStr, a: nat) {
    && a + MAX_INT_DIGITS < |s|
    && forall k :: a <= k <= a + MAX_INT_DIGITS ==> IsDigit(s[k])
  }

  ghost predicate LongRun(s: PyStr, i: nat) {
    exists a :: a >= i && DigitRun(s, a)
  }

  lemma LaterRun(s: PyStr, i: nat, j: nat)
    requires i <= j && LongRun(s, j)
    ensures LongRun(s, i)
  {
    var a :| a >= j && DigitRun(s, a);
    assert a >= i;
  }

  lemma {:induction false} ValueLimit(s: PyStr, i: nat)
    requires i <= |s| && ParseValue(s, i).Limit?
    ensures LongRun(s, i)
    decreases |s| - i, 0
  {
    if s[i] == OPEN_BRACE {
      ObjectLimit(s, i + 1);
      LaterRun(s, i, i + 1);
    } else if s[i] == OPEN_BRACKET {
      var j := SkipWs(s, i + 1);
      ElementsLimit(s, j);
      LaterRun(s, i, j);
    } else {
      var a := if s[i] == MINUS then i + 1 else i;
      assert DigitRun(s, a);
    }
  }

  lemma {:induction false} ObjectLimit(s: PyStr, i: nat)
    requires i <= |s| && ParseObject(s, i).Limit?
    ensures LongRun(s, i)
    decreases |s| - i, 3
  {
    MembersLimit(s, SkipWs(s, i));
    LaterRun(s, i, SkipWs(s, i));
  }

  lemma {:induction false} MembersLimit(s: PyStr, i: nat)
    requires i <= |s| && ParseMembers(s, i).Limit?
    ensures LongRun(s, i)
    decreases |s| - i, 2
  {
    if ParsePair(s, i).Limit? {
      var v := SkipWs(s, SkipWs(s, ScanString(s, i + 1).end) + 1);
      ValueLimit(s, v);
      LaterRun(s, i, v);
    } else {
      var m := SkipWs(s, SkipWs(s, ParsePair(s, i).end) + 1);
      MembersLimit(s, m);
      LaterRun(s, i, m);
    }
  }

  lemma {:induction false} ElementsLimit(s: PyStr, i: nat)
    requires i <= |s| && ParseElements(s, i).Limit?
    ensures LongRun(s, i)
    decreases |s| - i, 1
  {
    if ParseValue(s, i).Limit? {
      ValueLimit(s, i);
    } else {
      var m := SkipWs(s, SkipWs(s, ParseValue(s, i).end) + 1);
      ElementsLimit(s, m);
      LaterRun(s, i, m);
    }
  }

  /** Without a run of 4301 digits in it, an object at the end of any log is always returned. */
  lemma ShortNumbersFound(log: PyStr, text: PyStr, r: Scan)
    requires text != [] && Try(text, 0).Hit? && !LongRun(text, 0)
    requires Answers(log + text, r)
    ensures r == Found(Try(text, 0).value)
  {
    forall k | 0 < k < |text| ensures !Try(text, k).Raise? {
      if Try(text, k).Raise? {
        ObjectLimit(text[k..], 1);
        SuffixRun(text, k);
      }
    }
    FinalObjectFound(log, text, r);
  }

  /** The scan raises only over a run of 4301 digits. */
  lemma RaisedLong(s: PyStr)
    requires Answers(s, Raised)
    ensures LongRun(s, 0)
  {
    var o :| 0 <= o < |s| && Try(s, o).Raise?;
    ObjectLimit(s[o..], 1);
    SuffixRun(s, o);
  }

  lemma SuffixRun(s: PyStr, o: nat)
    requires o <= |s| && LongRun(s[o..], 1)
    ensures LongRun(s, 0)
  {
    var a :| a >= 1 && DigitRun(s[o..], a);
    forall j | o + a <= j <= o + a + MAX_INT_DIGITS ensures IsDigit(s[j]) {
      assert s[j] == s[o..][j - o];
    }
    assert DigitRun(s, o + a);
  }

  // ---------------------------------------------------------------- a valid envelope that raises

  predicate NeedsNoEscape(c: Code) { c >= 32 && c != QUOTE && c != BACKSLASH }

  lemma {:induction false} PlainString(s: PyStr, i: nat, j: nat)
    requires i <= j < |s| && s[j] == QUOTE
    requires forall k :: i <= k < j ==> NeedsNoEscape(s[k])
    ensures ScanString(s, i) == Done(s[i..j], j + 1)
    decreases j - i
  {
    if i < j {
      assert NeedsNoEscape(s[i]);
      PlainString(s, i + 1, j);
      assert s[i..j] == [s[i]] + s[i+1..j];
    } else {
      assert s[i..j] == [];
    }
  }

  lemma {:induction false} AllDigits(s: PyStr, i: nat, j: nat)
    requires i <= j < |s| && !IsDigit(s[j])
    requires forall k :: i <= k < j ==> IsDigit(s[k])
    ensures SkipDigits(s, i) == j
    decreases j - i
  {
    if i < j { AllDigits(s, i + 1, j); }
  }

  /** An object with the two strings `{` and `:` followed by the digits, in one array. */
  function StringWithNumber(digits: PyStr): PyStr {
    [OPEN_BRACE, QUOTE, 97, QUOTE, COLON, OPEN_BRACKET, QUOTE, OPEN_BRACE, QUOTE, COMMA, QUOTE, COLON]
    + digits + [QUOTE, CLOSE_BRACKET, CLOSE_BRACE]
  }

  lemma OuterArray(digits: PyStr)
    requires forall k :: 0 <= k < |digits| ==> IsDigit(digits[k])
    ensures var v := ParseValue(StringWithNumber(digits), 5); v.Done? && v.end == 14 + |digits|
  {
    var t := StringWithNumber(digits);
    var n := |digits|;
    assert t[12 + n] == QUOTE && t[13 + n] == CLOSE_BRACKET;
    forall k | 11 <= k < 12 + n ensures NeedsNoEscape(t[k]) {
      if k > 11 { assert t[k] == digits[k - 12]; assert IsDigit(digits[k - 12]); }
    }
    PlainString(t, 11, 12 + n);
    assert MoreElements(t, 13 + n) == Done([], 14 + n);
    assert ParseElements(t, 10).Done? && ParseElements(t, 10).end == 14 + n;
    PlainString(t, 7, 8);
    assert MoreElements(t, 9) == ParseElements(t, 10);
    assert ParseElements(t, 6).Done? && ParseElements(t, 6).end == 14 + n;
  }

  lemma OuterHits(digits: PyStr)
    requires forall k :: 0 <= k < |digits| ==> IsDigit(digits[k])
    ensures Try(StringWithNumber(digits), 0).Hit?
  {
    var t := StringWithNumber(digits);
    var n := |digits|;
    assert t[0..] == t;
    assert t[14 + n] == CLOSE_BRACE;
    OuterArray(digits);
    PlainString(t, 2, 3);
    assert ParsePair(t, 1).Done? && ParsePair(t, 1).end == 14 + n;
    assert MoreMembers(t, 14 + n) == Done([], 15 + n);
    assert ParseMembers(t, 1).Done? && ParseMembers(t, 1).end == 15 + n;
    assert ParseObject(t, 1).Done? && ParseObject(t, 1).end == 15 + n;
  }

  /** The text from the brace inside the first string on: an object whose value is all digits. */
  lemma InnerText(digits: PyStr)
    ensures StringWithNumber(digits)[7..] ==
            [OPEN_BRACE, QUOTE, COMMA, QUOTE, COLON] + digits + [QUOTE, CLOSE_BRACKET, CLOSE_BRACE]
  {
  }

  lemma LongNumber(u: PyStr, i: nat, j: nat)
    requires i + MAX_INT_DIGITS < j < |u| && u[j] == QUOTE && u[i] != ZERO
    requires forall k :: i <= k < j ==> IsDigit(u[k])
    ensures ScanNumber(u, i).Limit?
  {
    assert IsDigit(u[i]);
    AllDigits(u, i, j);
  }

  lemma InnerNumber(u: PyStr, digits: PyStr)
    requires |digits| > MAX_INT_DIGITS && digits[0] != ZERO
    requires forall k :: 0 <= k < |digits| ==> IsDigit(digits[k])
    requires u == [OPEN_BRACE, QUOTE, COMMA, QUOTE, COLON] + digits + [QUOTE, CLOSE_BRACKET, CLOSE_BRACE]
    ensures IsDigit(u[5]) && ParseValue(u, 5).Limit?
  {
    forall k | 5 <= k < 5 + |digits| ensures IsDigit(u[k]) { assert u[k] == digits[k - 5]; }
    assert u[5] == digits[0];
    LongNumber(u, 5, 5 + |digits|);
    NumberStarts(u, 5);
  }

  lemma InnerRaises(digits: PyStr)
    requires |digits| > MAX_INT_DIGITS && digits[0] != ZERO
    requires forall k :: 0 <= k < |digits| ==> IsDigit(digits[k])
    ensures Try(StringWithNumber(digits), 7).Raise?
  {
    var u := StringWithNumber(digits)[7..];
    InnerText(digits);
    InnerNumber(u, digits);
    assert u[0] == OPEN_BRACE && u[1] == QUOTE && u[2] == COMMA && u[3] == QUOTE && u[4] == COLON;
    PlainString(u, 2, 3);
    assert ParsePair(u, 1).Limit?;
    assert ParseMembers(u, 1).Limit?;
    assert ParseObject(u, 1).Limit?;
  }

  /** The final object of this text is valid and holds no number at all, and still the scan raises:
      so "returns the final object" is not true of every input. */
  lemma FinalObjectMissed(digits: PyStr, r: Scan)
    requires |digits| > MAX_INT_DIGITS && digits[0] != ZERO
    requires forall k :: 0 <= k < |digits| ==> IsDigit(digits[k])
    requires Answers(StringWithNumber(digits), r)
    ensures Try(StringWithNumber(digits), 0).Hit? && r == Raised
  {
    OuterHits(digits);
    InnerRaises(digits);
    assert [] + StringWithNumber(digits) == StringWithNumber(digits);
    FinalObjectFound([], StringWithNumber(digits), r);
  }
}
