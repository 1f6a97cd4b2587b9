// What the recovery scan finds, stated on text: the final envelope in any layout, after any log.
module Envelope {
  import opened PyText
  import opened Json
  import opened LastObject
  import JsonText
  import S = JsonSpelling
  import R = JsonReading
  import D = JsonSpelled

  /** The characters str.strip() removes. */
  predicate WhiteSpace(t: PyStr) {
    forall k :: 0 <= k < |t| ==>
      || t[k] in {9, 10, 11, 12, 13, 28, 29, 30, 31, 32, 133, 160, 5760}
      || 8192 <= t[k] <= 8202 || t[k] in {8232, 8233, 8239, 8287, 12288}
  }

  /** 4301 decimal digits in a row from a on. */
  predicate LongNumberAt(t: PyStr, a: nat) {
    a + 4300 < |t| && forall k :: a <= k <= a + 4300 ==> 48 <= t[k] <= 57
  }

  lemma BlankMeans(t: PyStr)
    ensures Blank(t) <==> WhiteSpace(t)
  {
    forall k | 0 <= k < |t|
      ensures IsPySpace(t[k]) <==>
        || t[k] in {9, 10, 11, 12, 13, 28, 29, 30, 31, 32, 133, 160, 5760}
        || 8192 <= t[k] <= 8202 || t[k] in {8232, 8233, 8239, 8287, 12288}
    {
    }
  }

  /** A spelled object with white space after it is decoded at its first brace. */
  lemma ObjectHits(sp: S.Spelling, tail: PyStr)
    requires sp.Object? && S.Ok(sp) && WhiteSpace(tail)
    ensures Try(S.Text(sp) + tail, 0) == Hit(S.MembersOf(sp.fields))
  {
    var s, e := S.Text(sp) + tail, |S.Text(sp)|;
    assert s[0..] == s && s[..e] == S.Text(sp) && s[e..] == tail;
    R.SpellingRead(s, 0, sp, e);
    BlankMeans(tail);
    Braced(s, 0, S.MembersOf(sp.fields), e);
  }

  lemma Braced(s: PyStr, i: nat, ms: seq<Member>, e: nat)
    requires i < |s| && ParseValue(s, i) == Done(Obj(ms), e)
    ensures s[i] == OPEN_BRACE && ParseObject(s, i + 1) == Done(ms, e)
  {
    JsonText.ObjectInside(s, i);
  }

  /** The recovery theorem on text: after any log, an object spelled in any layout with white space
      after it is returned, unless 4301 digits stand in a row in it. */
  lemma EnvelopeFound(log: PyStr, sp: S.Spelling, tail: PyStr, r: Scan)
    requires sp.Object? && S.Ok(sp) && WhiteSpace(tail)
    requires forall a: nat :: !LongNumberAt(S.Text(sp) + tail, a)
    requires Answers(log + (S.Text(sp) + tail), r)
    ensures r == Found(S.MembersOf(sp.fields))
  {
    ObjectHits(sp, tail);
    var text := S.Text(sp) + tail;
    if LongRun(text, 0) {
      var a :| a >= 0 && DigitRun(text, a);
      assert LongNumberAt(text, a);
    }
    ShortNumbersFound(log, text, r);
  }

  /** Whatever the scan returns is spelled at the end of the text. */
  lemma OnlyEnvelopesFound(s: PyStr, ms: seq<Member>) returns (log: PyStr, sp: S.Spelling, tail: PyStr)
    requires Answers(s, Found(ms))
    ensures sp.Object? && S.Ok(sp) && WhiteSpace(tail) && S.MembersOf(sp.fields) == ms
    ensures s == log + (S.Text(sp) + tail)
  {
    var o :| 0 <= o < |s| && Try(s, o) == Hit(ms);
    var text := s[o..];
    var e := ParseObject(text, 1).end;
    sp := D.ValueSpelled(text, 0, Obj(ms), e);
    log, tail := s[..o], text[e..];
    BlankMeans(tail);
    assert text == text[..e] + tail && s == log + text;
  }
}
