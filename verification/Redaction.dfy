// vcrun.py's _redact_output: what of the workflow's envelope may leave the runner.
module Redaction {
  import opened PyText
  import opened Json

  const REDACTED: PyStr := Lit("[REDACTED]")

  /** What lower() and the removal of everything but a-z and 0-9 leave of one character: besides the
      capital letters, only U+0130 and U+212A have an ASCII letter in their lower case. */
  function Fold(c: Code): PyStr {
    if 65 <= c <= 90 then [c + 32]
    else if 97 <= c <= 122 || IsDigit(c) then [c]
    else if c == 0x130 then [105]
    else if c == 0x212A then [107]
    else []
  }

  function Normalized(key: PyStr): (r: PyStr)
    ensures |r| <= |key|
  {
    if key == [] then [] else Fold(key[0]) + Normalized(key[1..])
  }

  predicate OccursIn(marker: PyStr, s: PyStr) {
    exists i :: 0 <= i <= |s| - |marker| && StartsAt(s, i, marker)
  }

  const MARKERS: seq<PyStr> := [
    Lit("password"), Lit("passwd"), Lit("secret"), Lit("token"), Lit("apikey"), Lit("dsn"), Lit("credential")]

  predicate Sensitive(key: PyStr) {
    exists i :: 0 <= i < |MARKERS| && OccursIn(MARKERS[i], Normalized(key))
  }

  function Redact(v: Json): Json {
    match v
    case Arr(items) => Arr(RedactItems(items))
    case Obj(members) => Obj(RedactMembers(members))
    case _ => v
  }

  function RedactItems(items: seq<Json>): seq<Json> {
    if items == [] then [] else [Redact(items[0])] + RedactItems(items[1..])
  }

  function RedactMembers(ms: seq<Member>): seq<Member> {
    if ms == [] then []
    else
      var v := ms[0].value;
      [Member(ms[0].key, if Sensitive(ms[0].key) then Str(REDACTED) else Redact(v))] + RedactMembers(ms[1..])
  }

  // ---------------------------------------------------------------- what redaction hides, and only that

  /** The same document up to the values of sensitive keys. */
  predicate Alike(a: Json, b: Json) {
    match a
    case Arr(items) => b.Arr? && AlikeItems(items, b.items)
    case Obj(members) => b.Obj? && AlikeMembers(members, b.members)
    case _ => a == b
  }

  predicate AlikeItems(a: seq<Json>, b: seq<Json>) {
    if a == [] || b == [] then a == [] && b == []
    else Alike(a[0], b[0]) && AlikeItems(a[1..], b[1..])
  }

  predicate AlikeMembers(a: seq<Member>, b: seq<Member>) {
    if a == [] || b == [] then a == [] && b == []
    else
      && a[0].key == b[0].key
      && (var v := a[0].value; Sensitive(a[0].key) || Alike(v, b[0].value))
      && AlikeMembers(a[1..], b[1..])
  }

  /** Redaction hides exactly the values of sensitive keys: two documents become one iff they agree
      everywhere else. */
  lemma {:induction false} RedactHides(a: Json, b: Json)
    ensures Redact(a) == Redact(b) <==> Alike(a, b)
    decreases a
  {
    match a
    case Arr(items) => if b.Arr? { RedactHidesItems(items, b.items); }
    case Obj(members) => if b.Obj? { RedactHidesMembers(members, b.members); }
    case _ =>
  }

  lemma {:induction false} RedactHidesItems(a: seq<Json>, b: seq<Json>)
    ensures RedactItems(a) == RedactItems(b) <==> AlikeItems(a, b)
    decreases a
  {
    if a != [] && b != [] {
      RedactHides(a[0], b[0]);
      RedactHidesItems(a[1..], b[1..]);
      Cons(Redact(a[0]), RedactItems(a[1..]), Redact(b[0]), RedactItems(b[1..]));
    }
  }

  lemma {:induction false} RedactHidesMembers(a: seq<Member>, b: seq<Member>)
    ensures RedactMembers(a) == RedactMembers(b) <==> AlikeMembers(a, b)
    decreases a
  {
    if a != [] && b != [] {
      var v := a[0].value;
      RedactHides(v, b[0].value);
      RedactHidesMembers(a[1..], b[1..]);
      Cons(RedactMembers(a)[0], RedactMembers(a[1..]), RedactMembers(b)[0], RedactMembers(b[1..]));
    }
  }

  lemma Cons<T>(x: T, xs: seq<T>, y: T, ys: seq<T>)
    ensures [x] + xs == [y] + ys <==> x == y && xs == ys
  {
    if [x] + xs == [y] + ys {
      assert ([x] + xs)[0] == x && ([x] + xs)[1..] == xs;
      assert ([y] + ys)[0] == y && ([y] + ys)[1..] == ys;
    }
  }

  // ---------------------------------------------------------------- nothing sensitive is left

  predicate Clean(v: Json) {
    match v
    case Arr(items) => CleanItems(items)
    case Obj(members) => CleanMembers(members)
    case _ => true
  }

  predicate CleanItems(items: seq<Json>) {
    items == [] || (Clean(items[0]) && CleanItems(items[1..]))
  }

  predicate CleanMembers(ms: seq<Member>) {
    ms == [] || (
      && (var v := ms[0].value; if Sensitive(ms[0].key) then v == Str(REDACTED) else Clean(v))
      && CleanMembers(ms[1..]))
  }

  /** No value under a sensitive key survives at any depth, and a document without one is unchanged. */
  lemma {:induction false} RedactCleans(v: Json)
    ensures Clean(Redact(v))
    ensures Redact(v) == v <==> Clean(v)
    decreases v
  {
    match v
    case Arr(items) => RedactCleansItems(items);
    case Obj(members) => RedactCleansMembers(members);
    case _ =>
  }

  lemma {:induction false} RedactCleansItems(items: seq<Json>)
    ensures CleanItems(RedactItems(items))
    ensures RedactItems(items) == items <==> CleanItems(items)
    decreases items
  {
    if items != [] {
      RedactCleans(items[0]);
      RedactCleansItems(items[1..]);
      Cons(Redact(items[0]), RedactItems(items[1..]), items[0], items[1..]);
      assert items == [items[0]] + items[1..];
      assert RedactItems(items)[1..] == RedactItems(items[1..]);
    }
  }

  lemma {:induction false} RedactCleansMembers(ms: seq<Member>)
    ensures CleanMembers(RedactMembers(ms))
    ensures RedactMembers(ms) == ms <==> CleanMembers(ms)
    decreases ms
  {
    if ms != [] {
      var v := ms[0].value;
      RedactCleans(v);
      RedactCleansMembers(ms[1..]);
      var r := RedactMembers(ms);
      Cons(r[0], RedactMembers(ms[1..]), ms[0], ms[1..]);
      assert ms == [ms[0]] + ms[1..];
      assert r[1..] == RedactMembers(ms[1..]);
    }
  }

  // ---------------------------------------------------------------- as dictionaries

  lemma {:induction false} RedactSnoc(ms: seq<Member>, m: Member)
    ensures RedactMembers(ms + [m]) == RedactMembers(ms) + RedactMembers([m])
    decreases |ms|
  {
    if ms == [] {
      assert ms + [m] == [m];
    } else {
      assert (ms + [m])[1..] == ms[1..] + [m];
      RedactSnoc(ms[1..], m);
    }
  }

  /** On the dictionary: every key keeps its place, a sensitive one with the marker as its value. */
  lemma {:induction false} RedactAsDict(ms: seq<Member>, key: PyStr)
    ensures key in LastWins(RedactMembers(ms)) <==> key in LastWins(ms)
    ensures key in LastWins(ms) ==>
              LastWins(RedactMembers(ms))[key] ==
              if Sensitive(key) then Str(REDACTED) else Redact(LastWins(ms)[key])
    decreases |ms|
  {
    if ms != [] {
      var rest, last := ms[..|ms|-1], ms[|ms|-1];
      assert ms == rest + [last];
      RedactAsDict(rest, key);
      RedactSnoc(rest, last);
      var one := RedactMembers([last]);
      assert [last][1..] == [];
      assert |one| == 1;
      var r := RedactMembers(ms);
      assert r[..|r|-1] == RedactMembers(rest) && r[|r|-1] == one[0];
    }
  }

  const OK: PyStr := Lit("ok")

  lemma OkIsPlain()
    ensures !Sensitive(OK)
  {
    forall i | 0 <= i < |MARKERS| ensures !OccursIn(MARKERS[i], Normalized(OK)) {
      assert |MARKERS[i]| >= 3;
    }
  }

  /** dict.get(key) is True. */
  predicate IsTrue(ms: seq<Member>, key: PyStr) {
    key in LastWins(ms) && LastWins(ms)[key] == Bool(true)
  }

  /** The verdict survives redaction. */
  lemma OkKept(ms: seq<Member>)
    ensures IsTrue(RedactMembers(ms), OK) <==> IsTrue(ms, OK)
  {
    OkIsPlain();
    RedactAsDict(ms, OK);
  }
}
