// validate_recovery_archive.py: how an archive member name becomes a safe relative path.
module ArchiveNames {
  import opened PyText
  import opened Paths

  const MAX_PATH_BYTES := 4096
  const MAX_SEGMENT_BYTES := 255

  /** The length of one character under utf-8 with surrogateescape; 0 when it cannot be encoded. */
  function CodeBytes(c: Code): (n: nat)
    ensures n <= 4
  {
    if c < 0x80 then 1
    else if c < 0x800 then 2
    else if 0xDC80 <= c <= 0xDCFF then 1
    else if 0xD800 <= c <= 0xDFFF then 0
    else if c < 0x10000 then 3
    else 4
  }

  predicate Encodable(s: PyStr) { forall i :: 0 <= i < |s| ==> CodeBytes(s[i]) > 0 }

  function ByteLen(s: PyStr): nat { if s == [] then 0 else CodeBytes(s[0]) + ByteLen(s[1..]) }

  predicate Control(c: Code) { c < 32 || c == 127 }

  predicate Dropped(part: PyStr) { part == [] || part == [DOT] }

  predicate GoodPart(part: PyStr) {
    part != [DOT, DOT] && Encodable(part) && ByteLen(part) <= MAX_SEGMENT_BYTES
  }

  /** The segments of a path that are neither empty nor ".". */
  function Kept(parts: seq<PyStr>): (r: seq<PyStr>)
    ensures forall k :: 0 <= k < |r| ==> r[k] in parts && !Dropped(r[k])
  {
    if parts == [] then []
    else (if Dropped(parts[0]) then [] else [parts[0]]) + Kept(parts[1..])
  }

  function Segments(raw: PyStr): seq<PyStr> { Kept(Split(raw, SLASH)) }

  function Normal(raw: PyStr): PyStr { Join(Segments(raw), SLASH) }

  /** When normalized_name returns: relative, no backslash, no control character, no "..", every
      segment and the whole within its byte limit. */
  predicate GoodName(raw: PyStr) {
    && raw != [] && raw[0] != SLASH && BACKSLASH !in raw
    && (forall i :: 0 <= i < |raw| ==> !Control(raw[i]))
    && (forall k :: 0 <= k < |Segments(raw)| ==> GoodPart(Segments(raw)[k]))
    && ByteLen(Normal(raw)) <= MAX_PATH_BYTES
  }

  datatype NameResult = Name(value: PyStr) | Unsafe

  lemma {:induction false} KeptConcat(a: seq<PyStr>, b: seq<PyStr>)
    ensures Kept(a + b) == Kept(a) + Kept(b)
    decreases |a|
  {
    if a == [] { assert a + b == b; }
    else { assert (a + b)[1..] == a[1..] + b; KeptConcat(a[1..], b); }
  }

  method NormalizedName(raw: PyStr) returns (r: NameResult)
    ensures r == if GoodName(raw) then Name(Normal(raw)) else Unsafe
  {
    if raw == [] || raw[0] == SLASH || BACKSLASH in raw { return Unsafe; }
    if exists i :: 0 <= i < |raw| && Control(raw[i]) { return Unsafe; }
    var pieces := Split(raw, SLASH);
    var parts: seq<PyStr> := [];
    for k := 0 to |pieces|
      invariant parts == Kept(pieces[..k])
      invariant forall j :: 0 <= j < |parts| ==> GoodPart(parts[j])
    {
      var part := pieces[k];
      assert pieces[..k+1] == pieces[..k] + [part];
      KeptConcat(pieces[..k], [part]);
      if Dropped(part) { continue; }
      if part == [DOT, DOT] || !Encodable(part) || ByteLen(part) > MAX_SEGMENT_BYTES {
        KeptConcat(pieces[..k+1], pieces[k+1..]);
        assert pieces == pieces[..k+1] + pieces[k+1..];
        assert Segments(raw)[|parts|] == part;
        return Unsafe;
      }
      parts := parts + [part];
    }
    assert pieces[..|pieces|] == pieces;
    var rendered := Join(parts, SLASH);
    if ByteLen(rendered) > MAX_PATH_BYTES { return Unsafe; }
    return Name(rendered);
  }

  lemma {:induction false} KeptFixed(parts: seq<PyStr>)
    requires forall k :: 0 <= k < |parts| ==> !Dropped(parts[k])
    ensures Kept(parts) == parts
    decreases |parts|
  {
    if parts != [] { KeptFixed(parts[1..]); }
  }

  /** A non-empty normalised name is its own normal form, and its segments are those that were kept:
      none is empty, "." or "..", so the name never leaves the destination. */
  lemma NameIsNormal(raw: PyStr)
    requires GoodName(raw) && Normal(raw) != []
    ensures GoodName(Normal(raw)) && Normal(Normal(raw)) == Normal(raw)
    ensures Split(Normal(raw), SLASH) == Segments(raw)
    ensures forall k :: 0 <= k < |Segments(raw)| ==>
              Segments(raw)[k] != [] && Segments(raw)[k] != [DOT] && Segments(raw)[k] != [DOT, DOT]
  {
    var name, parts := Normal(raw), Segments(raw);
    SplitJoin(parts, SLASH);
    KeptFixed(parts);
    assert parts[0] != [] && name[0] == parts[0][0];
    forall i | 0 <= i < |name| ensures name[i] == SLASH || name[i] in raw {
      NameChars(raw, name[i]);
    }
    assert BACKSLASH != SLASH && !Control(SLASH);
    forall k | 0 <= k < |parts| ensures parts[k] != [DOT, DOT] { assert GoodPart(parts[k]); }
  }

  lemma NameChars(raw: PyStr, c: Code)
    requires c in Normal(raw)
    ensures c == SLASH || c in raw
  {
    CharsOfJoin(Segments(raw), SLASH, c);
    if c != SLASH {
      var k :| 0 <= k < |Segments(raw)| && c in Segments(raw)[k];
      var j :| 0 <= j < |Split(raw, SLASH)| && Split(raw, SLASH)[j] == Segments(raw)[k];
      CharsOfSplit(raw, SLASH, j, c);
    }
  }

  /** The list file splits back into exactly the validated names. */
  lemma ListFileRoundTrip(raws: seq<PyStr>, names: seq<PyStr>)
    requires |names| == |raws|
    requires forall k :: 0 <= k < |raws| ==> GoodName(raws[k]) && names[k] == Normal(raws[k])
    ensures Split(Lines(names, NL), NL) == names + [[]]
  {
    forall k | 0 <= k < |names| ensures NL !in names[k] {
      if NL in names[k] { NameChars(raws[k], NL); }
    }
    SplitLines(names, NL);
  }

  // ---------------------------------------------------------------- ancestors

  /** The proper ancestors of a name, as the validator lists them. */
  function Parents(name: PyStr): (r: seq<PyStr>)
    ensures |r| == |Split(name, SLASH)| - 1
  {
    var segments := Split(name, SLASH);
    seq(|segments| - 1, i requires 0 <= i < |segments| - 1 => Join(segments[..i+1], SLASH))
  }

  lemma ParentIsPrefix(a: PyStr, b: PyStr)
    requires a in Parents(b)
    ensures Split(a, SLASH) < Split(b, SLASH)
  {
    var y := Split(b, SLASH);
    var i :| 0 <= i < |y| - 1 && a == Join(y[..i+1], SLASH);
    SplitJoin(y[..i+1], SLASH);
  }

  lemma PrefixIsParent(a: PyStr, b: PyStr)
    requires Split(a, SLASH) < Split(b, SLASH)
    ensures a in Parents(b)
  {
    var x, y := Split(a, SLASH), Split(b, SLASH);
    JoinSplit(a, SLASH);
    assert x == y[..|x|];
    assert Parents(b)[|x|-1] == a;
  }

  lemma ParentMeansPrefix(a: PyStr, b: PyStr)
    ensures a in Parents(b) <==> Split(a, SLASH) < Split(b, SLASH)
  {
    if a in Parents(b) { ParentIsPrefix(a, b); }
    if Split(a, SLASH) < Split(b, SLASH) { PrefixIsParent(a, b); }
  }

  lemma SplitInjective(a: PyStr, b: PyStr)
    requires Split(a, SLASH) == Split(b, SLASH)
    ensures a == b
  {
    JoinSplit(a, SLASH);
    JoinSplit(b, SLASH);
  }
}
