/** Python string behaviour the server relies on: the whitespace test shared by
    the regular-expression class `\s` and by `str.strip()`, the ASCII letter
    class `[A-Za-z]`, and `strip()` itself. */
module Text {

  /** Python's `str.isspace()`; `re`'s `\s` on a `str` pattern tests the same
      code points. */
  predicate IsWhitespace(c: char) {
    || c == ' ' || c == '\t' || c == '\n' || c == '\r'
    || c == '\U{0B}' || c == '\U{0C}'
    || ('\U{1C}' <= c <= '\U{1F}')
    || c == '\U{85}' || c == '\U{A0}' || c == '\U{1680}'
    || ('\U{2000}' <= c <= '\U{200A}')
    || c == '\U{2028}' || c == '\U{2029}' || c == '\U{202F}'
    || c == '\U{205F}' || c == '\U{3000}'
  }

  /** The class `[A-Za-z]`: ASCII letters only, case-sensitive. */
  predicate IsAsciiLetter(c: char) {
    ('A' <= c <= 'Z') || ('a' <= c <= 'z')
  }

  /** The class `[A-Za-z\s]` of the city group. */
  predicate IsCityChar(c: char) {
    IsAsciiLetter(c) || IsWhitespace(c)
  }

  predicate AllWhitespace(s: string) {
    forall k :: 0 <= k < |s| ==> IsWhitespace(s[k])
  }

  predicate AllCityChars(s: string) {
    forall k :: 0 <= k < |s| ==> IsCityChar(s[k])
  }

  /** A string that `strip()` leaves as it is. */
  predicate IsStripped(s: string) {
    s == [] || (!IsWhitespace(s[0]) && !IsWhitespace(s[|s| - 1]))
  }

  /** The forward scan of `strip()`: the first index at or after `i` that
      holds no whitespace, or `|s|`. */
  function SkipWhitespace(s: string, i: nat): (j: nat)
    requires i <= |s|
    ensures i <= j <= |s|
    ensures forall k :: i <= k < j ==> IsWhitespace(s[k])
    ensures j == |s| || !IsWhitespace(s[j])
    decreases |s| - i
  {
    if i < |s| && IsWhitespace(s[i]) then SkipWhitespace(s, i + 1) else i
  }

  /** The backward scan of `strip()`: moving down from `j` but not below
      `lo`, the index just past the last character that is not whitespace. */
  function SkipWhitespaceBack(s: string, lo: nat, j: nat): (m: nat)
    requires lo <= j <= |s|
    ensures lo <= m <= j
    ensures forall k :: m <= k < j ==> IsWhitespace(s[k])
    ensures m == lo || !IsWhitespace(s[m - 1])
    decreases j
  {
    if j > lo && IsWhitespace(s[j - 1]) then SkipWhitespaceBack(s, lo, j - 1) else j
  }

  /** A scan stops at the first character that is not whitespace, and at no
      other index. */
  lemma SkipWhitespaceIs(s: string, i: nat, j: nat)
    requires i <= j <= |s|
    requires forall k :: i <= k < j ==> IsWhitespace(s[k])
    requires j == |s| || !IsWhitespace(s[j])
    ensures SkipWhitespace(s, i) == j
  {
  }

  /** The backward scan stops just past the last character that is not
      whitespace, and at no other index. */
  lemma SkipWhitespaceBackIs(s: string, lo: nat, j: nat, m: nat)
    requires lo <= m <= j <= |s|
    requires forall k :: m <= k < j ==> IsWhitespace(s[k])
    requires m == lo || !IsWhitespace(s[m - 1])
    ensures SkipWhitespaceBack(s, lo, j) == m
  {
  }

  /** `strip()`: scan forward past the leading whitespace, then backward past
      the trailing whitespace, and keep what lies between. */
  function Strip(s: string): (r: string)
    ensures IsStripped(r)
    ensures |r| <= |s|
  {
    var i := SkipWhitespace(s, 0);
    s[i..SkipWhitespaceBack(s, i, |s|)]
  }

  /** `strip()` removes exactly a whitespace prefix and a whitespace suffix. */
  lemma StripIsInfix(s: string)
    ensures exists a, b :: 0 <= a <= b <= |s| && Strip(s) == s[a..b]
                           && AllWhitespace(s[..a]) && AllWhitespace(s[b..])
  {
    var a := SkipWhitespace(s, 0);
    var b := SkipWhitespaceBack(s, a, |s|);
    assert Strip(s) == s[a..b];
    assert AllWhitespace(s[..a]);
    assert AllWhitespace(s[b..]);
  }

  /** Behind a whitespace prefix the forward scan stops at the same place,
      shifted by the prefix. */
  lemma SkipWhitespaceAfterPrefix(w: string, s: string)
    requires AllWhitespace(w)
    ensures SkipWhitespace(w + s, 0) == |w| + SkipWhitespace(s, 0)
  {
    var t := w + s;
    var a := SkipWhitespace(s, 0);
    forall k | 0 <= k < |w| + a
      ensures IsWhitespace(t[k])
    {
      if k >= |w| {
        assert t[k] == s[k - |w|];
      }
    }
    assert |w| + a < |t| ==> t[|w| + a] == s[a];
    SkipWhitespaceIs(t, 0, |w| + a);
  }

  /** Behind any prefix the backward scan stops at the same place, shifted by
      the prefix. */
  lemma SkipWhitespaceBackAfterPrefix(w: string, s: string, a: nat)
    requires a <= |s|
    ensures SkipWhitespaceBack(w + s, |w| + a, |w + s|) == |w| + SkipWhitespaceBack(s, a, |s|)
  {
    var t := w + s;
    var b := SkipWhitespaceBack(s, a, |s|);
    forall k | |w| + b <= k < |t|
      ensures IsWhitespace(t[k])
    {
      assert t[k] == s[k - |w|];
    }
    assert b > a ==> t[|w| + b - 1] == s[b - 1];
    SkipWhitespaceBackIs(t, |w| + a, |t|, |w| + b);
  }

  /** Whitespace in front of a string makes no difference to its `strip()`. */
  lemma StripDropsLeadingWhitespace(w: string, s: string)
    requires AllWhitespace(w)
    ensures Strip(w + s) == Strip(s)
  {
    var a := SkipWhitespace(s, 0);
    var b := SkipWhitespaceBack(s, a, |s|);
    SkipWhitespaceAfterPrefix(w, s);
    SkipWhitespaceBackAfterPrefix(w, s, a);
    StripBetweenScans(w + s, |w| + a, |w| + b);
    SliceAfterPrefix(w, s, a, b);
  }

  /** `strip()` keeps what lies between the two scans. */
  lemma StripBetweenScans(t: string, a: nat, b: nat)
    requires SkipWhitespace(t, 0) == a && a <= |t| && SkipWhitespaceBack(t, a, |t|) == b
    ensures a <= b <= |t| && Strip(t) == t[a..b]
  {
  }

  lemma SliceAfterPrefix(w: string, s: string, a: nat, b: nat)
    requires a <= b <= |s|
    ensures (w + s)[|w| + a..|w| + b] == s[a..b]
  {
    assert forall k :: 0 <= k < b - a ==> (w + s)[|w| + a..|w| + b][k] == s[a..b][k];
  }

  /** A string of whitespace strips to the empty string. */
  lemma StripAllWhitespace(w: string)
    requires AllWhitespace(w)
    ensures Strip(w) == []
  {
    SkipWhitespaceIs(w, 0, |w|);
  }

  /** A string with no whitespace at either end is its own `strip()`. */
  lemma StripOfStripped(s: string)
    requires IsStripped(s)
    ensures Strip(s) == s
  {
    if s != [] {
      SkipWhitespaceIs(s, 0, 0);
      SkipWhitespaceBackIs(s, 0, |s|, |s|);
      assert s[0..|s|] == s;
    }
  }

  /** `strip()` keeps only characters of its input. */
  lemma StripKeepsClass(s: string)
    requires AllCityChars(s)
    ensures AllCityChars(Strip(s))
  {
    StripIsInfix(s);
  }
}
