// Which keys lose their values, said on the characters of a key.
module RedactionLaws {
  import opened PyText
  import opened Json
  import opened Redaction

  /** The character reads as this lower-case letter or digit: in either case, with U+0130 for i and the
      Kelvin sign for k, whose lower case holds those letters. */
  predicate Reads(c: Code, letter: Code) {
    || c == letter || (97 <= letter <= 122 && c == letter - 32)
    || (c == 0x130 && letter == 105) || (c == 0x212A && letter == 107)
  }

  /** Neither a letter nor a digit of ASCII, nor one of the two. */
  predicate Filler(c: Code) {
    !(48 <= c <= 57) && !(65 <= c <= 90) && !(97 <= c <= 122) && c != 0x130 && c != 0x212A
  }

  /** The marker's characters in order, with nothing but fillers around them. */
  predicate Spells(marker: PyStr, t: PyStr) {
    if t == [] then marker == []
    else if Filler(t[0]) then Spells(marker, t[1..])
    else marker != [] && Reads(t[0], marker[0]) && Spells(marker[1..], t[1..])
  }

  const SECRETS := {"password", "passwd", "secret", "token", "apikey", "dsn", "credential"}

  predicate SpelledAt(key: PyStr, marker: string, i: int, j: int) {
    0 <= i <= j <= |key| && Spells(Lit(marker), key[i..j])
  }

  /** Somewhere in the key a marker is spelled. */
  ghost predicate NamesSecret(key: PyStr) { exists marker, i, j :: marker in SECRETS && SpelledAt(key, marker, i, j) }

  // ---------------------------------------------------------------- the keys

  predicate Folded(s: PyStr) { forall i :: 0 <= i < |s| ==> 97 <= s[i] <= 122 || 48 <= s[i] <= 57 }

  lemma ReadsMeans(c: Code, letter: Code)
    requires 97 <= letter <= 122 || 48 <= letter <= 57
    ensures Reads(c, letter) <==> Fold(c) == [letter]
    ensures Filler(c) <==> Fold(c) == []
  {
  }

  lemma FoldCases(c: Code)
    ensures Fold(c) == [] || (|Fold(c)| == 1 && Folded(Fold(c)))
  {
  }

  lemma {:induction false} SpellsMeans(marker: PyStr, t: PyStr)
    requires Folded(marker)
    ensures Spells(marker, t) <==> Normalized(t) == marker
    decreases |t|
  {
    if t != [] {
      var c, rest := t[0], t[1..];
      FoldCases(c);
      SpellsMeans(marker, rest);
      if marker != [] {
        assert Folded(marker[1..]);
        assert marker == [marker[0]] + marker[1..];
        SpellsMeans(marker[1..], rest);
        ReadsMeans(c, marker[0]);
        if Fold(c) == [marker[0]] { Unprefix(marker[0], Normalized(rest), marker[1..]); }
      }
      ReadsMeans(c, 97);
      if Fold(c) != [] && Normalized(t) == marker { assert marker[0] == Fold(c)[0]; }
    }
  }

  lemma Unprefix(x: Code, a: PyStr, b: PyStr)
    ensures [x] + a == [x] + b <==> a == b
  {
    if [x] + a == [x] + b { assert ([x] + a)[1..] == a && ([x] + b)[1..] == b; }
  }

  lemma {:induction false} NormalizedJoin(a: PyStr, b: PyStr)
    ensures Normalized(a + b) == Normalized(a) + Normalized(b)
    decreases |a|
  {
    if a == [] {
      assert a + b == b;
    } else {
      assert (a + b)[1..] == a[1..] + b;
      NormalizedJoin(a[1..], b);
    }
  }

  /** A prefix of the key that folds to the first p characters. */
  lemma {:induction false} PrefixFor(key: PyStr, p: nat) returns (i: nat)
    requires p <= |Normalized(key)|
    ensures i <= |key| && |Normalized(key[..i])| == p
    decreases |key|
  {
    if p == |Normalized(key)| {
      i := |key|;
      assert key[..i] == key;
    } else {
      var n := |key| - 1;
      assert key == key[..n] + [key[n]];
      NormalizedJoin(key[..n], [key[n]]);
      FoldCases(key[n]);
      assert Normalized([key[n]]) == Fold(key[n]) + Normalized([]) by { assert [key[n]][1..] == []; }
      i := PrefixFor(key[..n], p);
      assert key[..n][..i] == key[..i];
    }
  }

  lemma SensitiveNames(key: PyStr, marker: string)
    requires marker in SECRETS && OccursIn(Lit(marker), Normalized(key))
    ensures NamesSecret(key)
  {
    var n := Normalized(key);
    var p :| 0 <= p <= |n| - |Lit(marker)| && StartsAt(n, p, Lit(marker));
    var i, j := PartFor(key, p, p + |Lit(marker)|);
    SecretFolded(marker);
    SpellsMeans(Lit(marker), key[i..j]);
    assert SpelledAt(key, marker, i, j);
  }

  /** The part of the key that folds to the characters from p to q. */
  lemma PartFor(key: PyStr, p: nat, q: nat) returns (i: nat, j: nat)
    requires p <= q <= |Normalized(key)|
    ensures i <= j <= |key| && Normalized(key[i..j]) == Normalized(key)[p..q]
  {
    j := PrefixFor(key, q);
    NormalizedJoin(key[..j], key[j..]);
    assert key == key[..j] + key[j..];
    i := PrefixFor(key[..j], p);
    assert key[..j][..i] == key[..i];
    ThreeParts(key, i, j);
    SliceOfSum(Normalized(key[..i]), Normalized(key[i..j]), Normalized(key[j..]));
    NormalizedJoin(key[..i], key[i..j]);
    assert key[..j] == key[..i] + key[i..j];
  }

  lemma SliceOfSum(a: PyStr, m: PyStr, b: PyStr)
    ensures (a + (m + b))[|a|..|a|+|m|] == m
  {
  }

  lemma SecretFolded(marker: string)
    requires marker in SECRETS
    ensures Folded(Lit(marker))
  {
  }

  lemma NamesSensitive(key: PyStr, marker: string, i: nat, j: nat)
    requires marker in SECRETS && SpelledAt(key, marker, i, j)
    ensures OccursIn(Lit(marker), Normalized(key))
  {
    SecretFolded(marker);
    SpellsMeans(Lit(marker), key[i..j]);
    ThreeParts(key, i, j);
    InMiddle(Normalized(key[..i]), Lit(marker), Normalized(key[j..]));
  }

  lemma ThreeParts(key: PyStr, i: nat, j: nat)
    requires i <= j <= |key|
    ensures Normalized(key) == Normalized(key[..i]) + (Normalized(key[i..j]) + Normalized(key[j..]))
  {
    KeyParts(key, i, j);
    ThreeJoined(key[..i], key[i..j], key[j..]);
  }

  lemma ThreeJoined(a: PyStr, b: PyStr, c: PyStr)
    ensures Normalized(a + (b + c)) == Normalized(a) + (Normalized(b) + Normalized(c))
  {
    NormalizedJoin(a, b + c);
    NormalizedJoin(b, c);
  }

  lemma KeyParts(key: PyStr, i: nat, j: nat)
    requires i <= j <= |key|
    ensures key == key[..i] + (key[i..j] + key[j..])
  {
  }

  lemma InMiddle(a: PyStr, m: PyStr, b: PyStr)
    ensures OccursIn(m, a + (m + b))
  {
    assert (a + (m + b))[|a|..|a|+|m|] == m;
    assert StartsAt(a + (m + b), |a|, m);
  }

  lemma MarkersAre(key: PyStr)
    ensures Sensitive(key) <==> exists marker :: marker in SECRETS && OccursIn(Lit(marker), Normalized(key))
  {
    if Sensitive(key) {
      var i :| 0 <= i < |MARKERS| && OccursIn(MARKERS[i], Normalized(key));
    }
    assert OccursIn(Lit("password"), Normalized(key)) ==> OccursIn(MARKERS[0], Normalized(key));
    assert OccursIn(Lit("passwd"), Normalized(key)) ==> OccursIn(MARKERS[1], Normalized(key));
    assert OccursIn(Lit("secret"), Normalized(key)) ==> OccursIn(MARKERS[2], Normalized(key));
    assert OccursIn(Lit("token"), Normalized(key)) ==> OccursIn(MARKERS[3], Normalized(key));
    assert OccursIn(Lit("apikey"), Normalized(key)) ==> OccursIn(MARKERS[4], Normalized(key));
    assert OccursIn(Lit("dsn"), Normalized(key)) ==> OccursIn(MARKERS[5], Normalized(key));
    assert OccursIn(Lit("credential"), Normalized(key)) ==> OccursIn(MARKERS[6], Normalized(key));
  }

  /** A key is sensitive exactly when a marker is spelled somewhere in it. */
  lemma SensitiveMeans(key: PyStr)
    ensures Sensitive(key) <==> NamesSecret(key)
  {
    MarkersAre(key);
    if Sensitive(key) {
      var marker :| marker in SECRETS && OccursIn(Lit(marker), Normalized(key));
      SensitiveNames(key, marker);
    }
    if NamesSecret(key) {
      var marker, i, j :| marker in SECRETS && SpelledAt(key, marker, i, j);
      NamesSensitive(key, marker, i, j);
    }
  }

  // ---------------------------------------------------------------- the values

  /** r is v with the text "[REDACTED]" for the value of every key that names a secret, at every depth,
      and nothing else changed. */
  ghost predicate Redacted(v: Json, r: Json)
    decreases v
  {
    match v
    case Arr(items) =>
      r.Arr? && |r.items| == |items| && forall i :: 0 <= i < |items| ==> Redacted(items[i], r.items[i])
    case Obj(ms) => r.Obj? && RedactedMembers(ms, r.members)
    case _ => r == v
  }

  ghost predicate RedactedMembers(ms: seq<Member>, rs: seq<Member>)
    decreases ms
  {
    |rs| == |ms| && forall i :: 0 <= i < |ms| ==> RedactedMember(ms[i], rs[i])
  }

  ghost predicate RedactedMember(m: Member, r: Member)
    decreases m
  {
    && r.key == m.key
    && (if NamesSecret(m.key) then r.value == Str(Lit("[REDACTED]")) else Redacted(m.value, r.value))
  }

  lemma {:induction false} RedactMeans(v: Json)
    ensures Redacted(v, Redact(v))
    decreases v
  {
    match v
    case Arr(items) => RedactMeansItems(items);
    case Obj(ms) => RedactMeansMembers(ms);
    case _ =>
  }

  lemma {:induction false} RedactMeansItems(items: seq<Json>)
    ensures |RedactItems(items)| == |items|
    ensures forall i :: 0 <= i < |items| ==> Redacted(items[i], RedactItems(items)[i])
    decreases items
  {
    if items != [] {
      RedactMeans(items[0]);
      RedactMeansItems(items[1..]);
      forall i | 0 <= i < |items| ensures Redacted(items[i], RedactItems(items)[i]) {
        if i > 0 { assert Redacted(items[1..][i-1], RedactItems(items[1..])[i-1]); }
      }
    }
  }

  lemma {:induction false} RedactMeansMembers(ms: seq<Member>)
    ensures RedactedMembers(ms, RedactMembers(ms))
    decreases ms
  {
    if ms != [] {
      var m, r := ms[0], RedactMembers(ms);
      SensitiveMeans(m.key);
      RedactMeansValue(m);
      RedactMeansMembers(ms[1..]);
      assert r[1..] == RedactMembers(ms[1..]);
      forall i | 0 <= i < |ms| ensures RedactedMember(ms[i], r[i]) {
        if i > 0 { assert RedactedMember(ms[1..][i-1], r[1..][i-1]); }
      }
    }
  }

  lemma {:induction false} RedactMeansValue(m: Member)
    ensures Redacted(m.value, Redact(m.value))
    decreases m
  {
    RedactMeans(m.value);
  }
}
