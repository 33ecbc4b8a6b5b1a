/** The server's city pattern `in\s+([A-Za-z\s]+)[\?\.]?` as Python's
    `re.search` applies it: the leftmost starting position wins, and at that
    position the greedy `\s+` and the greedy group give back characters only as
    far as a match needs. The trailing `[\?\.]?` may match nothing, so it never
    decides whether there is a match nor what group 1 holds; it is left out. */
module CityPattern {
  import opened Common
  import opened Text

  /** Length of the longest run of whitespace starting at index `j`. */
  function WhitespaceRun(s: string, j: nat): (n: nat)
    requires j <= |s|
    ensures j + n <= |s|
    ensures forall k :: j <= k < j + n ==> IsWhitespace(s[k])
    ensures j + n == |s| || !IsWhitespace(s[j + n])
    decreases |s| - j
  {
    if j < |s| && IsWhitespace(s[j]) then 1 + WhitespaceRun(s, j + 1) else 0
  }

  /** Length of the longest run of `[A-Za-z\s]` starting at index `j`. */
  function CityRun(s: string, j: nat): (n: nat)
    requires j <= |s|
    ensures j + n <= |s|
    ensures forall k :: j <= k < j + n ==> IsCityChar(s[k])
    ensures j + n == |s| || !IsCityChar(s[j + n])
    decreases |s| - j
  {
    if j < |s| && IsCityChar(s[j]) then 1 + CityRun(s, j + 1) else 0
  }

  /** The pattern matches at `i` with `\s+` taking `w` characters and the
      group taking `g` characters. */
  predicate PatternAt(s: string, i: nat, w: nat, g: nat) {
    && i + 2 + w + g <= |s|
    && s[i] == 'i' && s[i + 1] == 'n'
    && w >= 1 && g >= 1
    && (forall k :: i + 2 <= k < i + 2 + w ==> IsWhitespace(s[k]))
    && (forall k :: i + 2 + w <= k < i + 2 + w + g ==> IsCityChar(s[k]))
  }

  /** The pattern can match at `i`: "in", one whitespace, one more character
      of `[A-Za-z\s]`. */
  predicate MatchesAt(s: string, i: nat) {
    && i + 4 <= |s|
    && s[i] == 'i' && s[i + 1] == 'n'
    && IsWhitespace(s[i + 2]) && IsCityChar(s[i + 3])
  }

  /** `MatchesAt` holds exactly where some split of the pattern matches. */
  lemma MatchesAtIffSomeSplit(s: string, i: nat)
    ensures MatchesAt(s, i) <==> exists w: nat, g: nat :: PatternAt(s, i, w, g)
  {
    if MatchesAt(s, i) {
      assert PatternAt(s, i, 1, 1);
    }
    if w: nat, g: nat :| PatternAt(s, i, w, g) {
      assert IsWhitespace(s[i + 2]);
      if w == 1 {
        assert IsCityChar(s[i + 3]);
      } else {
        assert IsWhitespace(s[i + 3]);
      }
    }
  }

  /** Where group 1 starts once the engine has settled: right after the whole
      whitespace run when a letter follows it, otherwise one character earlier
      (the greedy `\s+` gives back its last whitespace to the group). */
  function GroupStart(s: string, i: nat): (start: nat)
    requires MatchesAt(s, i)
    ensures i + 3 <= start < |s|
  {
    var w := WhitespaceRun(s, i + 2);
    if i + 2 + w < |s| && IsAsciiLetter(s[i + 2 + w]) then i + 2 + w else i + 1 + w
  }

  /** Group 1 of the match at `i`: the longest `[A-Za-z\s]` run from where it starts. */
  function Group(s: string, i: nat): (g: string)
    requires MatchesAt(s, i)
    ensures |g| >= 1 && AllCityChars(g)
  {
    var start := GroupStart(s, i);
    s[start..start + CityRun(s, start)]
  }

  /** No run of whitespace from `j` is longer than `WhitespaceRun(s, j)`. */
  lemma WhitespaceRunIsLongest(s: string, j: nat, w: nat)
    requires j + w <= |s|
    requires forall k :: j <= k < j + w ==> IsWhitespace(s[k])
    ensures w <= WhitespaceRun(s, j)
  {
  }

  /** No run of `[A-Za-z\s]` from `j` is longer than `CityRun(s, j)`. */
  lemma CityRunIsLongest(s: string, j: nat, g: nat)
    requires j + g <= |s|
    requires forall k :: j <= k < j + g ==> IsCityChar(s[k])
    ensures g <= CityRun(s, j)
  {
  }

  /** The split the engine settles on is a match, and it comes first in
      backtracking order: no valid split has a longer `\s+`, and none with the
      same `\s+` has a longer group. */
  lemma GroupIsFirstBacktrackingSplit(s: string, i: nat)
    requires MatchesAt(s, i)
    ensures PatternAt(s, i, GroupStart(s, i) - (i + 2), |Group(s, i)|)
    ensures forall w: nat, g: nat :: PatternAt(s, i, w, g) ==>
              i + 2 + w <= GroupStart(s, i)
              && (i + 2 + w == GroupStart(s, i) ==> g <= |Group(s, i)|)
  {
    var run := WhitespaceRun(s, i + 2);
    var start := GroupStart(s, i);
    assert run >= 1;
    // A run of a single whitespace is followed by the letter `s[i + 3]`.
    assert run == 1 ==> IsAsciiLetter(s[i + 3]);
    assert start == i + 2 + run || (start == i + 1 + run && run >= 2);
    assert IsCityChar(s[start]);
    assert PatternAt(s, i, start - (i + 2), |Group(s, i)|);
    forall w: nat, g: nat | PatternAt(s, i, w, g)
      ensures i + 2 + w <= start && (i + 2 + w == start ==> g <= |Group(s, i)|)
    {
      WhitespaceRunIsLongest(s, i + 2, w);
      assert w == run ==> IsAsciiLetter(s[i + 2 + run]);
      if i + 2 + w == start {
        CityRunIsLongest(s, start, g);
      }
    }
  }

  /** The leftmost position at or after `from` where the pattern matches. */
  function FirstMatch(s: string, from: nat): (r: Option<nat>)
    ensures r.Some? ==> from <= r.value && MatchesAt(s, r.value)
    ensures r.Some? ==> forall j :: from <= j < r.value ==> !MatchesAt(s, j)
    ensures r.None? ==> forall j :: from <= j ==> !MatchesAt(s, j)
    decreases |s| - from
  {
    if from + 4 > |s| then None
    else if MatchesAt(s, from) then Some(from)
    else FirstMatch(s, from + 1)
  }

  /** The leftmost match is the position where the pattern matches and
      nowhere before. */
  lemma FirstMatchIs(s: string, from: nat, i: nat)
    requires from <= i && MatchesAt(s, i)
    requires forall j :: from <= j < i ==> !MatchesAt(s, j)
    ensures FirstMatch(s, from) == Some(i)
  {
  }

  /** A run of `[A-Za-z\s]` that cannot be extended is the longest one. */
  lemma CityRunIs(s: string, j: nat, n: nat)
    requires j + n <= |s|
    requires forall k :: j <= k < j + n ==> IsCityChar(s[k])
    requires j + n == |s| || !IsCityChar(s[j + n])
    ensures CityRun(s, j) == n
  {
    CityRunIsLongest(s, j, n);
  }

  /** A run of whitespace that cannot be extended is the longest one. */
  lemma WhitespaceRunIs(s: string, j: nat, n: nat)
    requires j + n <= |s|
    requires forall k :: j <= k < j + n ==> IsWhitespace(s[k])
    requires j + n == |s| || !IsWhitespace(s[j + n])
    ensures WhitespaceRun(s, j) == n
  {
    WhitespaceRunIsLongest(s, j, n);
  }

  /** Group 1 once its start and its length are known. */
  lemma GroupIs(s: string, i: nat, start: nat, n: nat)
    requires MatchesAt(s, i) && GroupStart(s, i) == start && CityRun(s, start) == n
    ensures start + n <= |s| && Group(s, i) == s[start..start + n]
  {
  }

  /** `re.search(pattern, s)`, reduced to what the server reads of it: group 1
      when there is a match. */
  function Search(s: string): (r: Option<string>)
    ensures r.Some? <==> exists i: nat :: MatchesAt(s, i)
    ensures r.Some? ==> |r.value| >= 1 && AllCityChars(r.value)
  {
    match FirstMatch(s, 0)
    case None => None
    case Some(i) => Some(Group(s, i))
  }

  /** The same search stated without backtracking: find the leftmost "in",
      whitespace, `[A-Za-z\s]` and take the longest `[A-Za-z\s]` run that
      follows "in". */
  function PlainRuleCity(s: string): (r: Option<string>)
    ensures r.Some? <==> exists i: nat :: MatchesAt(s, i)
    ensures r.Some? ==> AllCityChars(r.value) && IsStripped(r.value)
  {
    match FirstMatch(s, 0)
    case None => None
    case Some(i) =>
      var run := RunAfterIn(s, i);
      StripKeepsClass(run);
      Some(Strip(run))
  }

  /** The longest `[A-Za-z\s]` run that follows the "in" at `i`. */
  function RunAfterIn(s: string, i: nat): (r: string)
    requires i + 2 <= |s|
    ensures i + 2 + |r| <= |s| && AllCityChars(r)
    ensures i + 2 + |r| == |s| || !IsCityChar(s[i + 2 + |r|])
  {
    s[i + 2..i + 2 + CityRun(s, i + 2)]
  }

  /** A whitespace run followed by a city run is one city run. */
  lemma {:induction false} CityRunAcrossWhitespace(s: string, j: nat)
    requires j <= |s|
    ensures j + WhitespaceRun(s, j) <= |s|
    ensures CityRun(s, j) == WhitespaceRun(s, j) + CityRun(s, j + WhitespaceRun(s, j))
    decreases |s| - j
  {
    if j < |s| && IsWhitespace(s[j]) {
      CityRunAcrossWhitespace(s, j + 1);
    }
  }

  /** A slice whose characters are all whitespace. */
  lemma SliceAllWhitespace(s: string, a: nat, b: nat)
    requires a <= b <= |s|
    requires forall k :: a <= k < b ==> IsWhitespace(s[k])
    ensures AllWhitespace(s[a..b])
  {
  }

  lemma SliceSplit(s: string, a: nat, b: nat, c: nat)
    requires a <= b <= c <= |s|
    ensures s[a..c] == s[a..b] + s[b..c]
  {
  }

  /** When a letter follows the whitespace after "in", the longest
      `[A-Za-z\s]` run after "in" is that whitespace followed by group 1. */
  lemma GroupAfterWhitespace(s: string, i: nat)
    requires MatchesAt(s, i)
    requires GroupStart(s, i) == i + 2 + WhitespaceRun(s, i + 2)
    ensures i + 2 + CityRun(s, i + 2) <= |s|
    ensures AllWhitespace(s[i + 2..GroupStart(s, i)])
    ensures RunAfterIn(s, i) == s[i + 2..GroupStart(s, i)] + Group(s, i)
  {
    var start := GroupStart(s, i);
    var after := CityRun(s, start);
    assert CityRun(s, i + 2) == (start - (i + 2)) + after by {
      CityRunAcrossWhitespace(s, i + 2);
    }
    assert RunAfterIn(s, i) == s[i + 2..start] + Group(s, i) by {
      SliceSplit(s, i + 2, start, start + after);
    }
    SliceAllWhitespace(s, i + 2, start);
  }

  /** When no letter follows the whitespace after "in", the run after "in"
      is only that whitespace... */
  lemma RunAfterInIsWhitespace(s: string, i: nat)
    requires MatchesAt(s, i)
    requires GroupStart(s, i) != i + 2 + WhitespaceRun(s, i + 2)
    ensures AllWhitespace(RunAfterIn(s, i))
  {
    var run := WhitespaceRun(s, i + 2);
    CityRunAcrossWhitespace(s, i + 2);
    var after := CityRun(s, i + 2 + run);
    assert after == 0;
    SliceAllWhitespace(s, i + 2, i + 2 + run);
  }

  /** ... and group 1 is the single whitespace the greedy `\s+` gave back. */
  lemma GroupIsGivenBackWhitespace(s: string, i: nat)
    requires MatchesAt(s, i)
    requires GroupStart(s, i) != i + 2 + WhitespaceRun(s, i + 2)
    ensures AllWhitespace(Group(s, i))
  {
    var start := GroupStart(s, i);
    assert CityRun(s, start) == 1;
    SliceAllWhitespace(s, start, start + 1);
  }

  /** Stripping group 1 gives what the plain rule gives. */
  lemma StrippedGroupIsPlainRule(s: string, i: nat)
    requires MatchesAt(s, i)
    ensures Strip(Group(s, i)) == Strip(RunAfterIn(s, i))
  {
    var group := Group(s, i);
    if GroupStart(s, i) == i + 2 + WhitespaceRun(s, i + 2) {
      GroupAfterWhitespace(s, i);
      StripDropsLeadingWhitespace(s[i + 2..GroupStart(s, i)], group);
    } else {
      RunAfterInIsWhitespace(s, i);
      GroupIsGivenBackWhitespace(s, i);
      StripAllWhitespace(RunAfterIn(s, i));
      StripAllWhitespace(group);
    }
  }

  /** At the leftmost match, the stripped group is the plain rule's city. */
  lemma LeftmostMatchAgrees(s: string, i: nat)
    requires FirstMatch(s, 0) == Some(i)
    ensures Search(s) == Some(Group(s, i))
    ensures PlainRuleCity(s) == Some(Strip(Group(s, i)))
  {
    StrippedGroupIsPlainRule(s, i);
  }

  /** Python's result, stripped, agrees with the plain rule on every input. */
  lemma SearchAgreesWithPlainRule(s: string)
    ensures Search(s).None? ==> PlainRuleCity(s).None?
    ensures Search(s).Some? ==> PlainRuleCity(s) == Some(Strip(Search(s).value))
  {
    var m := FirstMatch(s, 0);
    if m.Some? {
      LeftmostMatchAgrees(s, m.value);
    }
  }
}
