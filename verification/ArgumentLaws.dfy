// What single checks of the arguments mean, in numbers and characters.
module ArgumentLaws {
  import opened PyText
  import opened Json
  import opened JsonText
  import opened Options
  import opened WorkflowArgs
  import Envelope

  // ---------------------------------------------------------------- sizes

  /** How many of the characters have at least this code. */
  function CountFrom(s: PyStr, code: int): nat {
    if s == [] then 0 else (if s[0] >= code then 1 else 0) + CountFrom(s[1..], code)
  }

  lemma {:induction false} Utf8Means(s: PyStr)
    ensures Utf8Size(s) == |s| + CountFrom(s, 0x80) + CountFrom(s, 0x800) + CountFrom(s, 0x10000)
    decreases |s|
  {
    if s != [] { Utf8Means(s[1..]); }
  }

  /** An argument text is read iff it has no surrogate and its UTF-8 form, one byte a character and one
      more from each of U+0080, U+0800 and U+10000 on, has at most 32768 bytes. */
  lemma FitsMeans(raw: PyStr)
    ensures Fits(raw) <==>
      && (forall i :: 0 <= i < |raw| ==> !(0xD800 <= raw[i] <= 0xDFFF))
      && |raw| + CountFrom(raw, 0x80) + CountFrom(raw, 0x800) + CountFrom(raw, 0x10000) <= 32768
  {
    Utf8Means(raw);
    if Fits(raw) {
      forall i | 0 <= i < |raw| ensures !(0xD800 <= raw[i] <= 0xDFFF) { assert !IsHigh(raw[i]) && !IsLow(raw[i]); }
    }
  }

  // ---------------------------------------------------------------- the scan limit

  /** Up to three digits without a leading zero, at most 500: exactly the decimals of 1 to 500. */
  lemma LimitMeans(v: PyStr)
    ensures Positive(v, 3) && Value(v) <= 500 <==> exists n: nat :: 1 <= n <= 500 && v == Decimal(n)
  {
    if Positive(v, 3) && Value(v) <= 500 { DecimalOf(v); }
    forall n: nat | 1 <= n <= 500 && v == Decimal(n) ensures Positive(v, 3) && Value(v) <= 500 {
      assert v[0..|v|] == v;
      DecimalRead(v, 0, n);
      DecimalLength(n, 3);
      assert Power10(3) == 1000;
    }
  }

  /** The limit of a source scan. */
  lemma ScanLimit(r: Rules, v: PyStr)
    ensures Normal(r, SourceScan, Lit("limit"), v) ==
            if exists n: nat :: 1 <= n <= 500 && v == Decimal(n) then Some(v) else None
  {
    LimitMeans(v);
    LimitIsPlain();
  }

  lemma LimitIsPlain()
    ensures Lit("limit") != IDEMPOTENCY_KEY && Lit("limit") !in BIGINT_KEYS && Lit("limit") != FLOW_REVISION
    ensures Names(ObjectNames(SourceScan)) == {}
  {
    assert Lit("limit")[0] == 'l' as int && Lit("limit")[1] == 'i' as int;
    forall i | 0 <= i < |BIGINT_NAMES| ensures Lit(BIGINT_NAMES[i]) != Lit("limit") {
      assert Lit(BIGINT_NAMES[i])[1] == BIGINT_NAMES[i][1] as int;
    }
  }

  // ---------------------------------------------------------------- what is normalised

  predicate NoBlankEnds(core: PyStr) {
    core != [] ==> !Envelope.WhiteSpace([core[0]]) && !Envelope.WhiteSpace([core[|core|-1]])
  }

  lemma {:induction false} LstripMeans(before: PyStr, rest: PyStr)
    requires Blank(before) && (rest != [] ==> !IsPySpace(rest[0]))
    ensures Lstrip(before + rest) == rest
    decreases |before|
  {
    if before == [] {
      assert before + rest == rest;
    } else {
      assert (before + rest)[1..] == before[1..] + rest;
      LstripMeans(before[1..], rest);
    }
  }

  lemma {:induction false} RstripMeans(rest: PyStr, after: PyStr)
    requires Blank(after) && (rest != [] ==> !IsPySpace(rest[|rest|-1]))
    ensures Rstrip(rest + after) == rest
    decreases |after|
  {
    if after == [] {
      assert rest + after == rest;
    } else {
      var n := |after| - 1;
      assert (rest + after)[..|rest + after|-1] == rest + after[..n];
      RstripMeans(rest, after[..n]);
    }
  }

  /** str.strip takes the white space off both ends and nothing else. */
  lemma StripMeans(before: PyStr, core: PyStr, after: PyStr)
    requires Envelope.WhiteSpace(before) && Envelope.WhiteSpace(after) && core != [] && NoBlankEnds(core)
    ensures Strip(before + (core + after)) == core
  {
    Envelope.BlankMeans(before);
    Envelope.BlankMeans(after);
    Envelope.BlankMeans([core[0]]);
    Envelope.BlankMeans([core[|core|-1]]);
    assert (core + after)[0] == core[0];
    LstripMeans(before, core + after);
    RstripMeans(core, after);
  }

  lemma {:induction false} DotsMean(d: PyStr, dots: PyStr)
    requires (d != [] ==> d[|d|-1] != 46) && forall i :: 0 <= i < |dots| ==> dots[i] == 46
    ensures RstripDots(d + dots) == d
    decreases |dots|
  {
    if dots == [] {
      assert d + dots == d;
    } else {
      var n := |dots| - 1;
      assert (d + dots)[..|d + dots|-1] == d + dots[..n];
      DotsMean(d, dots[..n]);
    }
  }

  /** The four intake workflows take a company domain without the white space around it and the dots
      after it, in lower case, if that is a domain, and refuse it otherwise. */
  lemma DomainNormalised(r: Rules, w: Workflow, before: PyStr, core: PyStr, after: PyStr, d: PyStr, dots: PyStr)
    requires w in {InboundIntake, InboundTextIntake, OutboundScout, DocumentLeadIntake}
    requires Envelope.WhiteSpace(before) && Envelope.WhiteSpace(after) && core != [] && NoBlankEnds(core)
    requires r.lower(core) == d + dots && (d != [] ==> d[|d|-1] != 46)
    requires forall i :: 0 <= i < |dots| ==> dots[i] == 46
    ensures Normal(r, w, Lit("company_domain"), before + (core + after)) == if r.domain(d) then Some(d) else None
  {
    StripMeans(before, core, after);
    DotsMean(d, dots);
    DomainIsPlain();
  }

  lemma DomainIsPlain()
    ensures COMPANY_DOMAIN == Lit("company_domain")
    ensures COMPANY_DOMAIN != IDEMPOTENCY_KEY && COMPANY_DOMAIN !in BIGINT_KEYS && COMPANY_DOMAIN != FLOW_REVISION
    ensures COMPANY_DOMAIN != Lit("document_path") && COMPANY_DOMAIN != Lit("channel_provider")
    ensures COMPANY_DOMAIN != Lit("origin_subtype")
  {
    var k := COMPANY_DOMAIN;
    assert |k| == 14 && k[0] == 'c' as int && k[1] == 'o' as int && k[2] == 'm' as int;
    assert Lit("origin_subtype")[0] == 'o' as int;
    forall i | 0 <= i < |BIGINT_NAMES| ensures Lit(BIGINT_NAMES[i]) != k {
      assert |Lit(BIGINT_NAMES[i])| == |BIGINT_NAMES[i]|;
      assert Lit(BIGINT_NAMES[i])[2] == BIGINT_NAMES[i][2] as int;
    }
  }

  /** A watched source is taken without the white space around it, and its case kept. */
  lemma UriNormalised(r: Rules, w: Workflow, before: PyStr, core: PyStr, after: PyStr)
    requires w in {SourceWatch, SourceUnwatch}
    requires Envelope.WhiteSpace(before) && Envelope.WhiteSpace(after) && core != [] && NoBlankEnds(core)
    ensures Normal(r, w, Lit("source_uri"), before + (core + after)) == if r.uri(core) then Some(core) else None
  {
    StripMeans(before, core, after);
    UriIsPlain();
  }

  lemma UriIsPlain()
    ensures SOURCE_URI == Lit("source_uri")
    ensures SOURCE_URI != IDEMPOTENCY_KEY && SOURCE_URI !in BIGINT_KEYS && SOURCE_URI != FLOW_REVISION
    ensures SOURCE_URI != Lit("source_class") && SOURCE_URI != Lit("cadence")
  {
    var k := SOURCE_URI;
    assert |k| == 10 && k[0] == 's' as int;
    forall i | 0 <= i < |BIGINT_NAMES| ensures Lit(BIGINT_NAMES[i]) != k {
      assert Lit(BIGINT_NAMES[i])[0] == BIGINT_NAMES[i][0] as int;
    }
  }
}
