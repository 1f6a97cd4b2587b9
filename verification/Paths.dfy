// Splitting and joining text, as str.split(sep) and sep.join(parts).
module Paths {
  import opened PyText

  function Split(s: PyStr, sep: Code): (parts: seq<PyStr>)
    ensures |parts| >= 1
    ensures forall k :: 0 <= k < |parts| ==> sep !in parts[k]
  {
    if s == [] then [[]]
    else
      var rest := Split(s[1..], sep);
      if s[0] == sep then [[]] + rest else [[s[0]] + rest[0]] + rest[1..]
  }

  function Join(parts: seq<PyStr>, sep: Code): PyStr {
    if parts == [] then []
    else if |parts| == 1 then parts[0]
    else parts[0] + [sep] + Join(parts[1..], sep)
  }

  lemma {:induction false} JoinSplit(s: PyStr, sep: Code)
    ensures Join(Split(s, sep), sep) == s
    decreases |s|
  {
    if s != [] {
      JoinSplit(s[1..], sep);
      var rest := Split(s[1..], sep);
      if s[0] == sep {
        assert ([[]] + rest)[1..] == rest;
      } else {
        var parts := [[s[0]] + rest[0]] + rest[1..];
        assert parts[1..] == rest[1..];
        assert Join(parts, sep) == [s[0]] + Join(rest, sep);
      }
    }
  }

  lemma {:induction false} SplitPiece(piece: PyStr, tail: PyStr, sep: Code)
    requires sep !in piece
    ensures Split(piece + [sep] + tail, sep) == [piece] + Split(tail, sep)
    ensures Split(piece, sep) == [piece]
    decreases |piece|
  {
    var s := piece + [sep] + tail;
    if piece == [] {
      assert s[1..] == tail;
    } else {
      SplitPiece(piece[1..], tail, sep);
      assert s[1..] == piece[1..] + [sep] + tail;
      assert [piece[0]] + piece[1..] == piece;
    }
  }

  lemma {:induction false} SplitJoin(parts: seq<PyStr>, sep: Code)
    requires parts != [] && forall k :: 0 <= k < |parts| ==> sep !in parts[k]
    ensures Split(Join(parts, sep), sep) == parts
    decreases |parts|
  {
    SplitPiece(parts[0], Join(parts[1..], sep), sep);
    if |parts| > 1 {
      SplitJoin(parts[1..], sep);
      assert parts == [parts[0]] + parts[1..];
    } else {
      assert parts == [parts[0]];
    }
  }

  /** One line per part, each ended by sep: what "".join(part + sep) writes. */
  function Lines(parts: seq<PyStr>, sep: Code): PyStr {
    if parts == [] then [] else parts[0] + [sep] + Lines(parts[1..], sep)
  }

  lemma {:induction false} SplitLines(parts: seq<PyStr>, sep: Code)
    requires forall k :: 0 <= k < |parts| ==> sep !in parts[k]
    ensures Split(Lines(parts, sep), sep) == parts + [[]]
    decreases |parts|
  {
    if parts != [] {
      SplitPiece(parts[0], Lines(parts[1..], sep), sep);
      SplitLines(parts[1..], sep);
      assert [parts[0]] + (parts[1..] + [[]]) == parts + [[]];
    }
  }

  lemma {:induction false} CharsOfSplit(s: PyStr, sep: Code, k: nat, c: Code)
    requires k < |Split(s, sep)| && c in Split(s, sep)[k]
    ensures c in s
    decreases |s|
  {
    if s != [] {
      var rest := Split(s[1..], sep);
      if s[0] == sep { CharsOfSplit(s[1..], sep, k - 1, c); }
      else if k > 0 { CharsOfSplit(s[1..], sep, k, c); }
      else if c != s[0] { CharsOfSplit(s[1..], sep, 0, c); }
    }
  }

  lemma {:induction false} CharsOfJoin(parts: seq<PyStr>, sep: Code, c: Code)
    requires c in Join(parts, sep)
    ensures c == sep || exists k :: 0 <= k < |parts| && c in parts[k]
    decreases |parts|
  {
    if |parts| > 1 && c !in parts[0] && c != sep {
      CharsOfJoin(parts[1..], sep, c);
      var k :| 0 <= k < |parts[1..]| && c in parts[1..][k];
      assert parts[k+1] == parts[1..][k];
    }
  }
}
