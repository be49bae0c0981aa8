/** Searching and trimming strings, as the Rust standard library does it. A slice
    `&text[lo..hi]` is modelled by its bounds, and positions are positions in `text`. */
module Text {
  import opened Wrappers

  predicate OccursAt(text: string, pattern: string, i: nat) {
    i + |pattern| <= |text| && text[i..i + |pattern|] == pattern
  }

  /** `find` in `text[lo..hi]`. */
  function Find(text: string, pattern: string, lo: nat, hi: nat): (r: Option<nat>)
    requires lo <= hi <= |text|
    ensures r.Some? ==> lo <= r.value && r.value + |pattern| <= hi && OccursAt(text, pattern, r.value)
    ensures r.Some? ==> forall i :: lo <= i < r.value ==> !OccursAt(text, pattern, i)
    ensures r.None? ==> forall i :: lo <= i && i + |pattern| <= hi ==> !OccursAt(text, pattern, i)
    decreases hi - lo
  {
    if lo + |pattern| > hi then None
    else if OccursAt(text, pattern, lo) then Some(lo)
    else if lo == hi then None
    else Find(text, pattern, lo + 1, hi)
  }

  /** `match_indices` in `text[lo..hi]`: non-overlapping matches, left to right. */
  function Matches(text: string, pattern: string, lo: nat, hi: nat): seq<nat>
    requires lo <= hi <= |text| && pattern != []
    decreases hi - lo
  {
    match Find(text, pattern, lo, hi)
    case None => []
    case Some(i) => [i] + Matches(text, pattern, i + |pattern|, hi)
  }

  /** No proper suffix of the pattern is also a prefix, so occurrences cannot overlap. */
  predicate Unbordered(pattern: string) {
    pattern != [] && forall d :: 0 < d < |pattern| ==> pattern[d..] != pattern[..|pattern| - d]
  }

  lemma OverlapIsBorder(text: string, pattern: string, i: nat, d: nat)
    requires OccursAt(text, pattern, i) && OccursAt(text, pattern, i + d) && d <= |pattern|
    ensures pattern[d..] == pattern[..|pattern| - d]
  {
    assert pattern[d..] == text[i..i + |pattern|][d..] == text[i + d..i + |pattern|];
    assert pattern[..|pattern| - d] == text[i + d..i + d + |pattern|][..|pattern| - d] == text[i + d..i + |pattern|];
  }

  lemma NoOverlap(text: string, pattern: string, i: nat, j: nat)
    requires Unbordered(pattern) && OccursAt(text, pattern, i) && OccursAt(text, pattern, j) && i < j
    ensures i + |pattern| <= j
  {
    if j < i + |pattern| { OverlapIsBorder(text, pattern, i, j - i); }
  }

  /** The occurrences inside `text[lo..hi]`. */
  function Occurrences(text: string, pattern: string, lo: nat, hi: nat): set<nat>
    requires hi <= |text|
  {
    set i: nat | lo <= i <= hi && i + |pattern| <= hi && OccursAt(text, pattern, i)
  }

  lemma AfterFirstMatch(text: string, pattern: string, lo: nat, hi: nat, i: nat)
    requires lo <= hi <= |text| && Unbordered(pattern) && Find(text, pattern, lo, hi) == Some(i)
    ensures Occurrences(text, pattern, lo, hi) == {i} + Occurrences(text, pattern, i + |pattern|, hi)
    ensures |Occurrences(text, pattern, lo, hi)| == 1 + |Occurrences(text, pattern, i + |pattern|, hi)|
  {
    forall j | j in Occurrences(text, pattern, lo, hi) && j != i
      ensures j in Occurrences(text, pattern, i + |pattern|, hi)
    {
      if i < j { NoOverlap(text, pattern, i, j); }
    }
    assert i !in Occurrences(text, pattern, i + |pattern|, hi);
  }

  function Elements(s: seq<nat>): set<nat> {
    set i | i in s
  }

  lemma ElementsCons(x: nat, s: seq<nat>)
    ensures Elements([x] + s) == {x} + Elements(s)
  {}

  lemma MatchesUnfold(text: string, pattern: string, lo: nat, hi: nat)
    requires lo <= hi <= |text| && pattern != []
    ensures Find(text, pattern, lo, hi).None? ==> Matches(text, pattern, lo, hi) == []
    ensures Find(text, pattern, lo, hi).Some? ==>
              var i := Find(text, pattern, lo, hi).value;
              Matches(text, pattern, lo, hi) == [i] + Matches(text, pattern, i + |pattern|, hi)
  {}

  lemma NoMatches(text: string, pattern: string, lo: nat, hi: nat)
    requires lo <= hi <= |text| && Find(text, pattern, lo, hi).None?
    ensures Occurrences(text, pattern, lo, hi) == {}
  {}

  ghost predicate ListsOccurrences(found: seq<nat>, text: string, pattern: string, lo: nat, hi: nat)
    requires hi <= |text|
  {
    Elements(found) == Occurrences(text, pattern, lo, hi) && |found| == |Occurrences(text, pattern, lo, hi)|
  }

  lemma ListsCons(i: nat, rest: seq<nat>, text: string, pattern: string, lo: nat, hi: nat)
    requires lo <= hi <= |text| && Unbordered(pattern) && Find(text, pattern, lo, hi) == Some(i)
    requires ListsOccurrences(rest, text, pattern, i + |pattern|, hi)
    ensures ListsOccurrences([i] + rest, text, pattern, lo, hi)
  {
    AfterFirstMatch(text, pattern, lo, hi, i);
    ElementsCons(i, rest);
  }

  /** For an unbordered pattern the matches are all the occurrences, once each. */
  lemma {:induction false} MatchesAreOccurrences(text: string, pattern: string, lo: nat, hi: nat)
    requires lo <= hi <= |text| && Unbordered(pattern)
    ensures ListsOccurrences(Matches(text, pattern, lo, hi), text, pattern, lo, hi)
    decreases hi - lo
  {
    var first := Find(text, pattern, lo, hi);
    MatchesUnfold(text, pattern, lo, hi);
    if first.None? {
      NoMatches(text, pattern, lo, hi);
    } else {
      var n := first.value + |pattern|;
      MatchesAreOccurrences(text, pattern, n, hi);
      ListsCons(first.value, Matches(text, pattern, n, hi), text, pattern, lo, hi);
    }
  }

  /** `char::is_whitespace`: the Unicode White_Space property. */
  predicate IsWhitespace(c: char) {
    var n := c as int;
    || 0x9 <= n <= 0xD || n == 0x20 || n == 0x85 || n == 0xA0 || n == 0x1680 || 0x2000 <= n <= 0x200A
    || n == 0x2028 || n == 0x2029 || n == 0x202F || n == 0x205F || n == 0x3000
  }

  /** The 25 characters of that property. */
  lemma WhitespaceIsListed(c: char)
    ensures IsWhitespace(c) <==>
            c in [0x9 as char, 0xA as char, 0xB as char, 0xC as char, 0xD as char, ' ', 0x85 as char, 0xA0 as char,
                  0x1680 as char, 0x2000 as char, 0x2001 as char, 0x2002 as char, 0x2003 as char, 0x2004 as char,
                  0x2005 as char, 0x2006 as char, 0x2007 as char, 0x2008 as char, 0x2009 as char, 0x200A as char,
                  0x2028 as char, 0x2029 as char, 0x202F as char, 0x205F as char, 0x3000 as char]
  {}

  predicate AllWhitespace(s: string) {
    forall i :: 0 <= i < |s| ==> IsWhitespace(s[i])
  }

  /** Where `trim_start` of `text[lo..]` begins. */
  function SkipWhitespace(text: string, lo: nat): (r: nat)
    requires lo <= |text|
    ensures lo <= r <= |text| && AllWhitespace(text[lo..r])
    ensures r < |text| ==> !IsWhitespace(text[r])
    decreases |text| - lo
  {
    if lo == |text| || !IsWhitespace(text[lo]) then lo
    else
      var r := SkipWhitespace(text, lo + 1);
      assert text[lo..r] == [text[lo]] + text[lo + 1..r];
      r
  }

  lemma SkipIsUnique(text: string, lo: nat, k: nat)
    requires lo <= k < |text| && AllWhitespace(text[lo..k]) && !IsWhitespace(text[k])
    ensures SkipWhitespace(text, lo) == k
  {
    var r := SkipWhitespace(text, lo);
    assert forall j :: lo <= j < k ==> text[j] == text[lo..k][j - lo];
    assert forall j :: lo <= j < r ==> text[j] == text[lo..r][j - lo];
  }
}
