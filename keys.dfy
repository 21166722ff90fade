/**
 * The matching key of the analyze route (src/app/api/analyze/route.ts):
 * every whitespace run removed, then lower-cased.
 */
module Keys {
  import opened Text

  /** `text.replace(/\s+/g, '').toLowerCase()` */
  function Normalize(s: string): string
  {
    ToLower(RemoveWhitespace(s))
  }

  /** A key holds no whitespace and no upper-case ASCII letter. */
  lemma NormalizeShape(s: string)
    ensures NoWhitespace(Normalize(s))
    ensures forall i :: 0 <= i < |Normalize(s)| ==> !IsUpper(Normalize(s)[i])
  {
    var stripped := RemoveWhitespace(s);
    assert forall i :: 0 <= i < |Normalize(s)| ==> Normalize(s)[i] == LowerChar(stripped[i]);
  }

  /** A normalised key normalises to itself. */
  lemma NormalizeIdempotent(s: string)
    ensures Normalize(Normalize(s)) == Normalize(s)
  {
    var k := Normalize(s);
    NormalizeShape(s);
    RemoveWhitespaceKeeps(k);
    assert ToLower(k) == k;
  }

  /** Whitespace inserted anywhere does not change the key. */
  lemma NormalizeIgnoresSpacing(a: string, w: string, b: string)
    requires AllWhitespace(w)
    ensures Normalize(a + w + b) == Normalize(a + b)
  {
    RemoveWhitespaceAppend(a + w, b);
    RemoveWhitespaceAppend(a, w);
    RemoveWhitespaceAppend(a, b);
    RemoveWhitespaceDropsRun(w);
    assert RemoveWhitespace(a) + [] == RemoveWhitespace(a);
  }

  lemma {:induction false} RemoveWhitespaceSameCase(s: string, t: string)
    requires |s| == |t|
    requires forall i :: 0 <= i < |s| ==> LowerChar(s[i]) == LowerChar(t[i])
    ensures |RemoveWhitespace(s)| == |RemoveWhitespace(t)|
    ensures forall i :: 0 <= i < |RemoveWhitespace(s)| ==>
      LowerChar(RemoveWhitespace(s)[i]) == LowerChar(RemoveWhitespace(t)[i])
  {
    if s != [] {
      assert LowerChar(s[0]) == LowerChar(t[0]);
      assert IsWhitespace(s[0]) <==> IsWhitespace(t[0]);
      RemoveWhitespaceSameCase(s[1..], t[1..]);
    }
  }

  /** Strings that agree letter by letter up to ASCII case have the same key. */
  lemma NormalizeIgnoresCase(s: string, t: string)
    requires |s| == |t|
    requires forall i :: 0 <= i < |s| ==> LowerChar(s[i]) == LowerChar(t[i])
    ensures Normalize(s) == Normalize(t)
  {
    RemoveWhitespaceSameCase(s, t);
  }
}
