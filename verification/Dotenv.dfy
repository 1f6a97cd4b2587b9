// check_env.py's parse_dotenv: a strict KEY=VALUE file that line-oriented readers must agree with.
module Dotenv {
  import opened PyText
  import opened Options
  import opened Paths

  const EQUALS: Code := 61
  const HASH: Code := 35

  type Values = map<PyStr, PyStr>

  predicate IsUpper(c: Code) { 65 <= c <= 90 }

  /** [A-Z][A-Z0-9_]*, matched in full. */
  predicate KeyOk(key: PyStr) {
    key != [] && IsUpper(key[0]) && forall i :: 0 <= i < |key| ==> IsUpper(key[i]) || IsDigit(key[i]) || key[i] == 95
  }

  /** No white space, dollar sign, quote, backslash, number sign or control character. */
  predicate ValueOk(value: PyStr) {
    forall i :: 0 <= i < |value| ==> ValueCode(value[i])
  }

  predicate ValueCode(c: Code) {
    !IsPySpace(c) && c != 36 && c != 39 && c != QUOTE && c != BACKSLASH && c != HASH && c >= 32 && c != 127
  }

  predicate Skipped(line: PyStr) { line == [] || line[0] == HASH }

  /** Where the first = is, or the length. */
  function KeyEnd(line: PyStr): (n: nat)
    ensures n <= |line| && EQUALS !in line[..n] && (n < |line| ==> line[n] == EQUALS)
  {
    if line == [] || line[0] == EQUALS then 0
    else
      var n := 1 + KeyEnd(line[1..]);
      assert line[..n] == [line[0]] + line[1..][..n-1];
      n
  }

  datatype Pair = Pair(key: PyStr, value: PyStr)

  /** One line that is neither empty nor a comment; None is a ValueError. */
  function ParseLine(line: PyStr): Option<Pair> {
    var n := KeyEnd(line);
    if line != Strip(line) || StartsWith(line, Lit("export ")) || n == |line| then None
    else if KeyOk(line[..n]) && ValueOk(line[n+1..]) then Some(Pair(line[..n], line[n+1..]))
    else None
  }

  /** The file so far: None once a line or a repeated key is refused. */
  function ParseLines(lines: seq<PyStr>): Option<Values>
    decreases |lines|
  {
    if lines == [] then Some(map[])
    else
      var before, line := ParseLines(lines[..|lines|-1]), lines[|lines|-1];
      if before.None? || Skipped(line) then before
      else
        match ParseLine(line)
        case None => None
        case Some(p) => if p.key in before.value then None else Some(before.value[p.key := p.value])
  }

  function ParseContent(content: PyStr): Option<Values> {
    if CR in content then None else ParseLines(Split(content, NL))
  }

  /** The tests on one line; the test for a repeated key is the caller's. */
  method CheckLine(raw: PyStr) returns (pair: Option<Pair>)
    ensures pair == ParseLine(raw)
  {
    if raw != Strip(raw) || StartsWith(raw, Lit("export ")) { return None; }
    var n := KeyEnd(raw);
    if n == |raw| { return None; }
    if !KeyOk(raw[..n]) || !ValueOk(raw[n+1..]) { return None; }
    pair := Some(Pair(raw[..n], raw[n+1..]));
  }

  method ParseDotenv(content: PyStr) returns (r: Option<Values>)
    ensures r == ParseContent(content)
  {
    if CR in content { return None; }
    var lines := Split(content, NL);
    var values: Values := map[];
    var firstSeen: map<PyStr, nat> := map[];
    for number := 0 to |lines|
      invariant ParseLines(lines[..number]) == Some(values) && firstSeen.Keys == values.Keys
    {
      var raw := lines[number];
      assert lines[..number+1][..number] == lines[..number];
      if Skipped(raw) { continue; }
      var pair := CheckLine(raw);
      if pair.None? || pair.value.key in firstSeen {
        RefusalStays(lines, number + 1);
        return None;
      }
      values := values[pair.value.key := pair.value.value];
      firstSeen := firstSeen[pair.value.key := number + 1];
    }
    assert lines[..|lines|] == lines;
    r := Some(values);
  }

  lemma {:induction false} RefusalStays(lines: seq<PyStr>, n: nat)
    requires n <= |lines| && ParseLines(lines[..n]).None?
    ensures ParseLines(lines).None?
    decreases |lines|
  {
    if n < |lines| {
      assert lines[..|lines|-1][..n] == lines[..n];
      RefusalStays(lines[..|lines|-1], n);
    } else {
      assert lines[..n] == lines;
    }
  }

  // ---------------------------------------------------------------- agreement with grep

  function KeyPrefix(key: PyStr): PyStr { key + [EQUALS] }

  lemma {:induction false} KeyEndIs(line: PyStr, n: nat)
    requires n < |line| && line[n] == EQUALS && EQUALS !in line[..n]
    ensures KeyEnd(line) == n
    decreases n
  {
    if n > 0 {
      assert line[0] == line[..n][0];
      assert line[..n] == [line[0]] + line[1..][..n-1];
      KeyEndIs(line[1..], n - 1);
    }
  }

  /** A line that starts with KEY= is the parsed line of that key. */
  lemma PrefixLine(line: PyStr, key: PyStr)
    requires KeyOk(key)
    ensures StartsWith(line, KeyPrefix(key)) ==> !Skipped(line)
    ensures !Skipped(line) && ParseLine(line).Some? ==>
              (ParseLine(line).value.key == key <==> StartsWith(line, KeyPrefix(key)))
    ensures !Skipped(line) && ParseLine(line).Some? && ParseLine(line).value.key == key ==>
              ParseLine(line).value.value == line[|key|+1..]
  {
    if StartsWith(line, KeyPrefix(key)) {
      assert line[|key|] == line[..|key|+1][|key|] == EQUALS;
      assert line[..|key|] == line[..|key|+1][..|key|] == key;
      assert line[0] == key[0];
      KeyEndIs(line, |key|);
    }
    var n := KeyEnd(line);
    if n < |line| && line[..n] == key {
      assert line[..n+1] == key + [EQUALS];
    }
  }

  predicate Matches(lines: seq<PyStr>, i: int, key: PyStr) {
    0 <= i < |lines| && StartsWith(lines[i], KeyPrefix(key))
  }

  /** For an accepted file a line-oriented lookup agrees with the parser: a key is set iff some line
      starts with KEY=, there is only one such line, and its rest is the value. */
  lemma {:induction false} GrepAgrees(lines: seq<PyStr>, key: PyStr)
    requires ParseLines(lines).Some? && KeyOk(key)
    ensures key in ParseLines(lines).value <==> exists i :: Matches(lines, i, key)
    ensures forall i :: Matches(lines, i, key) ==>
              key in ParseLines(lines).value && lines[i][|key|+1..] == ParseLines(lines).value[key]
    ensures forall i, j :: Matches(lines, i, key) && Matches(lines, j, key) ==> i == j
    decreases |lines|
  {
    if lines != [] {
      var n := |lines| - 1;
      var before, line := lines[..n], lines[n];
      GrepAgrees(before, key);
      PrefixLine(line, key);
      assert forall i :: i != n ==> (Matches(lines, i, key) <==> Matches(before, i, key));
      if key in ParseLines(lines).value && key in ParseLines(before).value {
        var i :| Matches(before, i, key);
        assert Matches(lines, i, key);
      }
      if key in ParseLines(lines).value && key !in ParseLines(before).value { assert Matches(lines, n, key); }
    }
  }

  // ---------------------------------------------------------------- rendering and parsing

  predicate Valid(m: Values) { forall k :: k in m ==> KeyOk(k) && ValueOk(m[k]) }

  lemma {:induction false} ParsedValid(lines: seq<PyStr>)
    requires ParseLines(lines).Some?
    ensures Valid(ParseLines(lines).value)
    decreases |lines|
  {
    if lines != [] { ParsedValid(lines[..|lines|-1]); }
  }

  function RenderLine(p: Pair): PyStr { p.key + [EQUALS] + p.value }

  function RenderLines(pairs: seq<Pair>): (r: seq<PyStr>)
    ensures |r| == |pairs| && forall i :: 0 <= i < |r| ==> r[i] == RenderLine(pairs[i])
  {
    seq(|pairs|, i requires 0 <= i < |pairs| => RenderLine(pairs[i]))
  }

  /** One KEY=VALUE line for each pair. */
  function Render(pairs: seq<Pair>): PyStr { Lines(RenderLines(pairs), NL) }

  predicate PairOk(p: Pair) { KeyOk(p.key) && ValueOk(p.value) }

  predicate PairsOk(pairs: seq<Pair>) {
    && (forall i :: 0 <= i < |pairs| ==> PairOk(pairs[i]))
    && (forall i, j :: 0 <= i < j < |pairs| ==> pairs[i].key != pairs[j].key)
  }

  function ToMap(pairs: seq<Pair>): Values
    decreases |pairs|
  {
    if pairs == [] then map[] else ToMap(pairs[..|pairs|-1])[pairs[|pairs|-1].key := pairs[|pairs|-1].value]
  }

  predicate Clean(line: PyStr) { forall i :: 0 <= i < |line| ==> !IsPySpace(line[i]) }

  lemma CleanStrip(line: PyStr)
    requires Clean(line)
    ensures Strip(line) == line
  {
  }

  lemma PrefixFirst(s: PyStr, prefix: PyStr)
    requires prefix != []
    ensures StartsWith(s, prefix) ==> s != [] && s[0] == prefix[0]
  {
    if StartsWith(s, prefix) { assert s[..|prefix|][0] == s[0]; }
  }

  lemma RenderedLine(p: Pair)
    requires PairOk(p)
    ensures !Skipped(RenderLine(p)) && ParseLine(RenderLine(p)) == Some(p) && Clean(RenderLine(p))
  {
    var line := RenderLine(p);
    var n := |p.key|;
    assert line[..n] == p.key && line[n] == EQUALS && line[n+1..] == p.value;
    forall i | 0 <= i < |line| ensures !IsPySpace(line[i]) {
      if i < n { assert line[i] == p.key[i]; }
      if i > n { assert line[i] == p.value[i-n-1]; assert ValueCode(p.value[i-n-1]); }
    }
    CleanStrip(line);
    KeyEndIs(line, n);
    assert line[0] == p.key[0];
    PrefixFirst(line, Lit("export "));
  }

  lemma {:induction false} ToMapKeys(pairs: seq<Pair>, k: PyStr)
    requires k in ToMap(pairs)
    ensures exists i :: 0 <= i < |pairs| && pairs[i].key == k
    decreases |pairs|
  {
    var n := |pairs| - 1;
    if k in ToMap(pairs[..n]) {
      ToMapKeys(pairs[..n], k);
      var i :| 0 <= i < n && pairs[..n][i].key == k;
      assert pairs[i].key == k;
    } else {
      assert pairs[n].key == k;
    }
  }

  lemma {:induction false} RenderedLines(pairs: seq<Pair>)
    requires PairsOk(pairs)
    ensures ParseLines(RenderLines(pairs)) == Some(ToMap(pairs))
    decreases |pairs|
  {
    if pairs != [] {
      var n := |pairs| - 1;
      RenderedLines(pairs[..n]);
      assert RenderLines(pairs)[..n] == RenderLines(pairs[..n]);
      assert PairOk(pairs[n]);
      RenderedLine(pairs[n]);
      NotYet(pairs, n);
    }
  }

  lemma NotYet(pairs: seq<Pair>, n: nat)
    requires n < |pairs| && PairsOk(pairs)
    ensures pairs[n].key !in ToMap(pairs[..n])
  {
    if pairs[n].key in ToMap(pairs[..n]) { ToMapKeys(pairs[..n], pairs[n].key); }
  }

  lemma {:induction false} InLines(parts: seq<PyStr>, sep: Code, c: Code)
    requires c in Lines(parts, sep)
    ensures c == sep || exists i :: 0 <= i < |parts| && c in parts[i]
    decreases |parts|
  {
    if parts != [] && c !in parts[0] && c != sep {
      InLines(parts[1..], sep, c);
      var i :| 0 <= i < |parts[1..]| && c in parts[1..][i];
      assert parts[i+1] == parts[1..][i];
    }
  }

  lemma RenderedClean(pairs: seq<Pair>, c: Code)
    requires PairsOk(pairs) && IsPySpace(c)
    ensures forall i :: 0 <= i < |pairs| ==> c !in RenderLines(pairs)[i]
    ensures c != NL ==> c !in Render(pairs)
  {
    forall i | 0 <= i < |pairs| ensures c !in RenderLines(pairs)[i] {
      assert PairOk(pairs[i]);
      RenderedLine(pairs[i]);
    }
    if c in Render(pairs) { InLines(RenderLines(pairs), NL, c); }
  }

  /** Parsing the rendered lines gives the map back, whatever the order of its keys. */
  lemma RenderParses(pairs: seq<Pair>)
    requires PairsOk(pairs)
    ensures ParseContent(Render(pairs)) == Some(ToMap(pairs))
  {
    RenderedClean(pairs, CR);
    RenderedClean(pairs, NL);
    SplitLines(RenderLines(pairs), NL);
    RenderedLines(pairs);
    var lines := RenderLines(pairs) + [[]];
    assert lines[..|lines|-1] == RenderLines(pairs);
  }

  lemma Smaller(m: Values, k: PyStr)
    requires k in m
    ensures |m - {k}| < |m|
  {
    var rest := m - {k};
    assert m.Keys == rest.Keys + {k};
    assert |m.Keys| == |m| && |rest.Keys| == |rest|;
  }

  lemma ToMapSnoc(pairs: seq<Pair>, p: Pair)
    ensures ToMap(pairs + [p]) == ToMap(pairs)[p.key := p.value]
  {
    assert (pairs + [p])[..|pairs|] == pairs;
  }

  /** A map as a list of pairs. */
  lemma {:induction false} ListMap(m: Values) returns (pairs: seq<Pair>)
    requires Valid(m)
    ensures PairsOk(pairs) && ToMap(pairs) == m
    ensures forall i :: 0 <= i < |pairs| ==> pairs[i].key in m
    decreases |m|
  {
    if m == map[] {
      pairs := [];
    } else {
      var k :| k in m;
      var rest := m - {k};
      Smaller(m, k);
      var others := ListMap(rest);
      pairs := others + [Pair(k, m[k])];
      assert PairOk(Pair(k, m[k]));
      ToMapSnoc(others, Pair(k, m[k]));
      assert rest[k := m[k]] == m;
    }
  }

  /** The maps a file can give are exactly the valid ones. */
  lemma ParsesToValid(m: Values)
    ensures Valid(m) <==> exists content :: ParseContent(content) == Some(m)
  {
    if Valid(m) {
      var pairs := ListMap(m);
      RenderParses(pairs);
      assert ParseContent(Render(pairs)) == Some(m);
    }
    forall content | ParseContent(content) == Some(m) ensures Valid(m) {
      ParsedValid(Split(content, NL));
    }
  }

  // ---------------------------------------------------------------- exactly which files are accepted

  /** KEY=VALUE: an upper-case letter, then upper-case letters, digits and underscores; and a value
      without white space, control characters and the five characters $ ' " \ #. */
  predicate Assigns(line: PyStr, key: PyStr, value: PyStr) {
    && line == key + ([61] + value)
    && key != [] && 65 <= key[0] <= 90
    && (forall i :: 0 <= i < |key| ==> 65 <= key[i] <= 90 || 48 <= key[i] <= 57 || key[i] == 95)
    && (forall i :: 0 <= i < |value| ==>
          !IsPySpace(value[i]) && value[i] !in {36, 39, 34, 92, 35, 127} && value[i] >= 32)
  }

  /** A line that says nothing: empty, or with a number sign in front. */
  predicate SaysNothing(line: PyStr) { line == [] || line[0] == 35 }

  lemma AssignsMeans(line: PyStr, key: PyStr, value: PyStr)
    ensures Assigns(line, key, value) <==> !Skipped(line) && ParseLine(line) == Some(Pair(key, value))
  {
    if Assigns(line, key, value) {
      assert PairOk(Pair(key, value));
      assert line == RenderLine(Pair(key, value));
      RenderedLine(Pair(key, value));
    }
    if ParseLine(line) == Some(Pair(key, value)) {
      var n := KeyEnd(line);
      assert line == line[..n] + ([line[n]] + line[n+1..]);
      forall i | 0 <= i < |value|
        ensures !IsPySpace(value[i]) && value[i] !in {36, 39, 34, 92, 35, 127} && value[i] >= 32
      {
        assert ValueCode(value[i]);
      }
    }
  }

  ghost predicate LineOk(line: PyStr) { SaysNothing(line) || exists key, value :: Assigns(line, key, value) }

  ghost predicate SameKey(a: PyStr, b: PyStr) {
    exists key, v, w :: Assigns(a, key, v) && Assigns(b, key, w)
  }

  ghost predicate LinesOk(lines: seq<PyStr>) {
    && (forall i :: 0 <= i < |lines| ==> LineOk(lines[i]))
    && (forall i, j :: 0 <= i < j < |lines| ==> !SameKey(lines[i], lines[j]))
  }

  lemma LineParsed(line: PyStr)
    ensures LineOk(line) <==> Skipped(line) || ParseLine(line).Some?
  {
    if LineOk(line) && !SaysNothing(line) {
      var key, value :| Assigns(line, key, value);
      AssignsMeans(line, key, value);
    }
    if !Skipped(line) && ParseLine(line).Some? {
      AssignsMeans(line, ParseLine(line).value.key, ParseLine(line).value.value);
    }
  }

  lemma SameKeyMeans(a: PyStr, b: PyStr)
    ensures SameKey(a, b) <==>
      && !Skipped(a) && !Skipped(b) && ParseLine(a).Some? && ParseLine(b).Some?
      && ParseLine(a).value.key == ParseLine(b).value.key
  {
    if SameKey(a, b) {
      var key, v, w :| Assigns(a, key, v) && Assigns(b, key, w);
      AssignsMeans(a, key, v);
      AssignsMeans(b, key, w);
    }
    if !Skipped(a) && !Skipped(b) && ParseLine(a).Some? && ParseLine(b).Some? {
      AssignsMeans(a, ParseLine(a).value.key, ParseLine(a).value.value);
      AssignsMeans(b, ParseLine(b).value.key, ParseLine(b).value.value);
    }
  }

  /** The keys of the file are those of its lines. */
  lemma {:induction false} KeysOfLines(lines: seq<PyStr>, key: PyStr)
    requires ParseLines(lines).Some?
    ensures key in ParseLines(lines).value <==> exists i :: KeyAt(lines, i, key)
    decreases |lines|
  {
    if lines != [] {
      var n := |lines| - 1;
      KeysOfLines(lines[..n], key);
      assert forall i :: i != n ==> (KeyAt(lines, i, key) <==> KeyAt(lines[..n], i, key));
      if KeyAt(lines, n, key) { assert exists i :: KeyAt(lines, i, key); }
      if exists i :: KeyAt(lines[..n], i, key) {
        var i :| KeyAt(lines[..n], i, key);
        assert KeyAt(lines, i, key);
      }
    }
  }

  predicate KeyAt(lines: seq<PyStr>, i: int, key: PyStr) {
    0 <= i < |lines| && !Skipped(lines[i]) && ParseLine(lines[i]).Some? && ParseLine(lines[i]).value.key == key
  }

  lemma {:induction false} LinesAccepted(lines: seq<PyStr>)
    ensures ParseLines(lines).Some? <==> LinesOk(lines)
    decreases |lines|
  {
    if lines != [] {
      var n := |lines| - 1;
      var before, line := lines[..n], lines[n];
      LinesAccepted(before);
      LineParsed(line);
      LinesSnoc(before, line);
      assert lines == before + [line];
      if ParseLines(before).Some? && !Skipped(line) && ParseLine(line).Some? { RepeatMeans(before, line); }
      if Skipped(line) { NoKeyOf(before, line); }
    }
  }

  lemma LinesSnoc(before: seq<PyStr>, line: PyStr)
    ensures LinesOk(before + [line]) <==>
      LinesOk(before) && LineOk(line) && forall i :: 0 <= i < |before| ==> !SameKey(before[i], line)
  {
    var lines := before + [line];
    assert lines[|before|] == line;
    if LinesOk(lines) {
      forall i | 0 <= i < |before| ensures LineOk(before[i]) && !SameKey(before[i], line) {
        assert lines[i] == before[i] && !SameKey(lines[i], lines[|before|]);
      }
      forall i, j | 0 <= i < j < |before| ensures !SameKey(before[i], before[j]) {
        assert lines[i] == before[i] && lines[j] == before[j];
      }
    }
  }

  lemma NoKeyOf(before: seq<PyStr>, line: PyStr)
    requires Skipped(line)
    ensures forall i :: 0 <= i < |before| ==> !SameKey(before[i], line)
  {
    forall i | 0 <= i < |before| ensures !SameKey(before[i], line) { SameKeyMeans(before[i], line); }
  }

  lemma RepeatMeans(before: seq<PyStr>, line: PyStr)
    requires ParseLines(before).Some? && !Skipped(line) && ParseLine(line).Some?
    ensures ParseLine(line).value.key in ParseLines(before).value <==>
      exists i :: 0 <= i < |before| && SameKey(before[i], line)
  {
    var key := ParseLine(line).value.key;
    KeysOfLines(before, key);
    forall i | 0 <= i < |before| ensures SameKey(before[i], line) <==> KeyAt(before, i, key) {
      SameKeyMeans(before[i], line);
    }
  }

  /** A file is accepted exactly when it has no carriage return, each of its lines is empty, starts with a
      number sign or is KEY=VALUE, and no key repeats. */
  lemma AcceptedExactly(content: PyStr)
    ensures ParseContent(content).Some? <==> 13 !in content && LinesOk(Split(content, 10))
  {
    LinesAccepted(Split(content, NL));
  }
}
