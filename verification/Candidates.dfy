/** Which JSON objects of a compaction response are tried
    (json_candidates and fenced_json_blocks in
    desktop/crates/goose-context-management/src/structured.rs, 195-252).
    A candidate is a slice of the response, given by its bounds. */
module Candidates {
  import opened Wrappers
  import opened Text
  import opened Scanner
  import opened Json

  const TERMINATOR := "</analysis>"
  const FENCE := "```json"

  lemma MarkersUnbordered()
    ensures Unbordered(TERMINATOR) && Unbordered(FENCE)
  {
    forall d | 0 < d < |TERMINATOR|
      ensures TERMINATOR[d..] != TERMINATOR[..|TERMINATOR| - d]
    {
      assert TERMINATOR[d..][0] == TERMINATOR[d] && TERMINATOR[..|TERMINATOR| - d][0] == '<';
    }
    forall d | 0 < d < |FENCE|
      ensures FENCE[d..] != FENCE[..|FENCE| - d]
    {
      var k := if d < 3 then 3 - d else 0;
      assert FENCE[d..][k] == FENCE[d + k] && FENCE[..|FENCE| - d][k] == '`';
    }
  }

  /** The terminators in `text[lo..hi]`. */
  function Terminators(text: string, lo: nat, hi: nat): set<nat>
    requires hi <= |text|
  {
    Occurrences(text, TERMINATOR, lo, hi)
  }

  function Count(text: string, lo: nat, hi: nat): nat
    requires lo <= hi <= |text|
  {
    |Matches(text, TERMINATOR, lo, hi)|
  }

  lemma CountIsCardinality(text: string, lo: nat, hi: nat)
    requires lo <= hi <= |text|
    ensures Count(text, lo, hi) == |Terminators(text, lo, hi)|
    ensures Elements(Matches(text, TERMINATOR, lo, hi)) == Terminators(text, lo, hi)
  {
    MarkersUnbordered();
    MatchesAreOccurrences(text, TERMINATOR, lo, hi);
  }

  // ----- the candidates, as the source collects them --------------------------

  function ToSeq(r: Option<Span>): seq<Span> {
    match r
    case None => []
    case Some(s) => [s]
  }

  /** `leading_object(&text[lo..])`. */
  function ObjectAt(text: string, lo: nat): Option<Span> {
    if lo <= |text| then LeadingObject(text, lo) else None
  }

  function Shift(found: seq<nat>, d: nat): seq<nat> {
    if found == [] then [] else [found[0] + d] + Shift(found[1..], d)
  }

  /** What each position contributes, last one first. */
  function CollectBackwards(found: seq<nat>, at: nat -> seq<Span>): seq<Span> {
    if found == [] then [] else CollectBackwards(found[1..], at) + at(found[0])
  }

  /** 219-225: where each terminator ends, or the start of a text without any. */
  function Cuts(text: string): seq<nat> {
    var found := Matches(text, TERMINATOR, 0, |text|);
    if found == [] then [0] else Shift(found, |TERMINATOR|)
  }

  /** 246-252: the objects behind the fences of `text[cut..]`, last fence first. */
  function FencedBlocks(text: string, cut: nat): seq<Span>
    requires cut <= |text|
  {
    CollectBackwards(Matches(text, FENCE, cut, |text|), BehindFence(text))
  }

  function BehindFence(text: string): nat -> seq<Span> {
    (f: nat) => ToSeq(ObjectAt(text, f + |FENCE|))
  }

  predicate Fits(text: string, s: Span) {
    s.start <= s.end <= |text|
  }

  function Keep(text: string, spans: seq<Span>, later: nat): seq<Span> {
    if spans == [] then []
    else
      var rest := Keep(text, spans[1..], later);
      if Fits(text, spans[0]) && Count(text, spans[0].start, spans[0].end) == later then [spans[0]] + rest else rest
  }

  /** 229-235: what one cut contributes. */
  function FromCut(text: string, cut: nat): seq<Span> {
    if cut > |text| then []
    else Keep(text, FencedBlocks(text, cut) + ToSeq(LeadingObject(text, cut)), Count(text, cut, |text|))
  }

  /** 228-236: the cuts, last first. */
  function FromCuts(text: string, cuts: seq<nat>): seq<Span> {
    CollectBackwards(cuts, AtCut(text))
  }

  function AtCut(text: string): nat -> seq<Span> {
    (cut: nat) => FromCut(text, cut)
  }

  /** Every candidate before duplicates are dropped, 237. */
  function Offers(text: string): seq<Span> {
    FromCuts(text, Cuts(text)) + ToSeq(LeadingObject(text, 0))
  }

  function Content(text: string, s: Span): string {
    if Fits(text, s) then text[s.start..s.end] else []
  }

  /** `dedup`: drop a candidate whose text equals the one kept just before it, 238. */
  function Dedup(text: string, spans: seq<Span>): seq<Span>
    decreases |spans|
  {
    if |spans| <= 1 then spans
    else if Content(text, spans[0]) == Content(text, spans[1]) then Dedup(text, [spans[0]] + spans[2..])
    else [spans[0]] + Dedup(text, spans[1..])
  }

  function JsonCandidates(text: string): seq<Span> {
    Dedup(text, Offers(text))
  }

  /** 216-240: the loop over the cuts, last first. */
  method CollectCandidates(text: string) returns (candidates: seq<Span>)
    ensures candidates == JsonCandidates(text)
  {
    var cuts := Cuts(text);
    candidates := [];
    var i := |cuts|;
    while i > 0
      invariant 0 <= i <= |cuts|
      invariant candidates == FromCuts(text, cuts[i..])
    {
      i := i - 1;
      assert cuts[i..][1..] == cuts[i + 1..] && AtCut(text)(cuts[i]) == FromCut(text, cuts[i]);
      candidates := candidates + FromCut(text, cuts[i]);
    }
    assert cuts[0..] == cuts;
    var opening := ScanLeadingObject(text, 0);
    if opening.Some? {
      candidates := candidates + [opening.value];
    }
    assert FromCuts(text, cuts) + [] == FromCuts(text, cuts);
    assert candidates == Offers(text);
    candidates := Dedup(text, candidates);
  }

  // ----- membership -----------------------------------------------------------

  lemma InCons<T>(x: T, xs: seq<T>, y: T)
    ensures y in [x] + xs <==> y == x || y in xs
  {}

  lemma {:induction false} InCollectBackwards(found: seq<nat>, at: nat -> seq<Span>, s: Span)
    ensures s in CollectBackwards(found, at) <==> exists f :: f in found && s in at(f)
    decreases |found|
  {
    if found != [] {
      InCollectBackwards(found[1..], at, s);
      assert found == [found[0]] + found[1..];
      forall f: nat
        ensures f in found <==> f == found[0] || f in found[1..]
      {
        InCons(found[0], found[1..], f);
      }
    }
  }

  lemma {:induction false} InShift(found: seq<nat>, d: nat, c: nat)
    ensures c in Shift(found, d) <==> c >= d && c - d in found
    ensures |Shift(found, d)| == |found|
    decreases |found|
  {
    if found != [] {
      InShift(found[1..], d, c);
      InCons(found[0] + d, Shift(found[1..], d), c);
      assert found == [found[0]] + found[1..];
      if c >= d { InCons(found[0], found[1..], c - d); }
    }
  }

  lemma {:induction false} InKeep(text: string, spans: seq<Span>, later: nat, s: Span)
    ensures s in Keep(text, spans, later) <==>
            s in spans && Fits(text, s) && Count(text, s.start, s.end) == later
    decreases |spans|
  {
    if spans != [] {
      InKeep(text, spans[1..], later, s);
      assert spans == [spans[0]] + spans[1..];
    }
  }

  /** `s` is the object behind a fence at `f`. */
  predicate Behind(text: string, f: nat, s: Span) {
    OccursAt(text, FENCE, f) && ObjectAt(text, f + |FENCE|) == Some(s)
  }

  lemma FencesFound(text: string, cut: nat, f: nat)
    requires cut <= |text|
    ensures f in Matches(text, FENCE, cut, |text|) <==> cut <= f && OccursAt(text, FENCE, f)
  {
    MarkersUnbordered();
    MatchesAreOccurrences(text, FENCE, cut, |text|);
    assert f in Matches(text, FENCE, cut, |text|) <==> f in Elements(Matches(text, FENCE, cut, |text|));
  }

  lemma InBehindFence(text: string, f: nat, s: Span)
    ensures s in BehindFence(text)(f) <==> ObjectAt(text, f + |FENCE|) == Some(s)
  {
    var o := ObjectAt(text, f + |FENCE|);
    assert s in ToSeq(o) <==> o == Some(s);
  }

  lemma FoundIsBehind(text: string, cut: nat, f: nat, s: Span)
    requires cut <= |text|
    ensures f in Matches(text, FENCE, cut, |text|) && s in BehindFence(text)(f) <==> cut <= f && Behind(text, f, s)
  {
    FencesFound(text, cut, f);
    InBehindFence(text, f, s);
  }

  lemma InFencedBlocks(text: string, cut: nat, s: Span)
    requires cut <= |text|
    ensures s in FencedBlocks(text, cut) <==> exists f: nat :: cut <= f && Behind(text, f, s)
  {
    var found := Matches(text, FENCE, cut, |text|);
    InCollectBackwards(found, BehindFence(text), s);
    if s in FencedBlocks(text, cut) {
      var f :| f in found && s in BehindFence(text)(f);
      FoundIsBehind(text, cut, f, s);
    }
    if f: nat :| cut <= f && Behind(text, f, s) { FoundIsBehind(text, cut, f, s); }
  }

  /** `s` is behind a fence after the cut or at the cut itself, and holds as many
      terminators as the text after the cut. */
  ghost predicate OfferedAt(text: string, cut: nat, s: Span) {
    && cut <= |text|
    && ((exists f: nat :: cut <= f && Behind(text, f, s)) || LeadingObject(text, cut) == Some(s))
    && Fits(text, s)
    && Count(text, s.start, s.end) == Count(text, cut, |text|)
  }

  lemma InFromCut(text: string, cut: nat, s: Span)
    ensures s in FromCut(text, cut) <==> OfferedAt(text, cut, s)
  {
    if cut <= |text| {
      InFencedBlocks(text, cut, s);
      InKeep(text, FencedBlocks(text, cut) + ToSeq(LeadingObject(text, cut)), Count(text, cut, |text|), s);
    }
  }

  lemma InFromCuts(text: string, cuts: seq<nat>, s: Span)
    ensures s in FromCuts(text, cuts) <==> exists c :: c in cuts && s in FromCut(text, c)
  {
    InCollectBackwards(cuts, AtCut(text), s);
    assert forall c: nat :: AtCut(text)(c) == FromCut(text, c);
  }

  /** A cut is the end of a terminator, or 0 when there is none. */
  predicate IsCut(text: string, c: nat) {
    if Terminators(text, 0, |text|) == {} then c == 0
    else c >= |TERMINATOR| && c - |TERMINATOR| in Terminators(text, 0, |text|)
  }

  lemma InCuts(text: string, c: nat)
    ensures c in Cuts(text) <==> IsCut(text, c)
  {
    CountIsCardinality(text, 0, |text|);
    var found := Matches(text, TERMINATOR, 0, |text|);
    InShift(found, |TERMINATOR|, c);
    if c >= |TERMINATOR| { assert c - |TERMINATOR| in found <==> c - |TERMINATOR| in Elements(found); }
    assert found != [] ==> found[0] in Elements(found);
    assert found == [] ==> Elements(found) == {};
  }

  /** What is offered: what some cut offers, or the object that opens the text. */
  lemma InOffers(text: string, s: Span)
    ensures s in Offers(text) <==>
            LeadingObject(text, 0) == Some(s) || exists c :: IsCut(text, c) && OfferedAt(text, c, s)
  {
    InFromCuts(text, Cuts(text), s);
    forall c: nat
      ensures c in Cuts(text) <==> IsCut(text, c)
      ensures s in FromCut(text, c) <==> OfferedAt(text, c, s)
    {
      InCuts(text, c);
      InFromCut(text, c, s);
    }
  }

  // ----- dropping duplicates loses no text and adds nothing -------------------

  lemma {:induction false} DedupKeepsTexts(text: string, spans: seq<Span>, s: Span) returns (kept: Span)
    requires s in spans
    ensures kept in Dedup(text, spans) && Content(text, kept) == Content(text, s)
    decreases |spans|
  {
    kept := s;
    if |spans| > 1 {
      if Content(text, spans[0]) == Content(text, spans[1]) {
        var first := if s == spans[1] then spans[0] else s;
        assert spans == [spans[0], spans[1]] + spans[2..];
        kept := DedupKeepsTexts(text, [spans[0]] + spans[2..], first);
      } else if s != spans[0] {
        assert spans == [spans[0]] + spans[1..];
        kept := DedupKeepsTexts(text, spans[1..], s);
      }
    }
  }

  lemma {:induction false} DedupAddsNothing(text: string, spans: seq<Span>, s: Span)
    requires s in Dedup(text, spans)
    ensures s in spans
    decreases |spans|
  {
    if |spans| > 1 {
      if Content(text, spans[0]) == Content(text, spans[1]) {
        DedupAddsNothing(text, [spans[0]] + spans[2..], s);
      } else if s != spans[0] {
        DedupAddsNothing(text, spans[1..], s);
      }
    }
  }

  // ----- no leak --------------------------------------------------------------

  /** If a slice holds as many terminators as the tail it lies in, it holds all of them. */
  lemma EqualCountsMeanAll(text: string, cut: nat, s: Span)
    requires cut <= s.start <= s.end <= |text|
    ensures Count(text, s.start, s.end) == Count(text, cut, |text|) <==>
            Terminators(text, s.start, s.end) == Terminators(text, cut, |text|)
  {
    CountIsCardinality(text, s.start, s.end);
    CountIsCardinality(text, cut, |text|);
    var inner, outer := Terminators(text, s.start, s.end), Terminators(text, cut, |text|);
    assert inner <= outer;
    if |inner| == |outer| { SubsetOfSameSize(inner, outer); }
  }

  lemma SubsetOfSameSize(a: set<nat>, b: set<nat>)
    requires a <= b && |a| == |b|
    ensures a == b
  {
    assert |b - a| == |b| - |a|;
  }

  lemma OfferedAfterCut(text: string, cut: nat, s: Span)
    requires OfferedAt(text, cut, s)
    ensures cut <= s.start < s.end <= |text|
    ensures Terminators(text, s.start, s.end) == Terminators(text, cut, |text|)
  {
    if f: nat :| cut <= f && Behind(text, f, s) { FenceBeforeObject(text, f, s); }
    EqualCountsMeanAll(text, cut, s);
  }

  predicate IsLastTerminator(text: string, t: nat) {
    t in Terminators(text, 0, |text|) && forall u :: u in Terminators(text, 0, |text|) ==> u <= t
  }

  lemma InsideOrBefore(text: string, c: nat, s: Span, t: nat)
    requires IsCut(text, c) && c <= s.start <= s.end <= |text| && IsLastTerminator(text, t)
    requires Terminators(text, s.start, s.end) == Terminators(text, c, |text|)
    ensures t + |TERMINATOR| <= s.start || (s.start <= t && t + |TERMINATOR| <= s.end)
  {
    if t >= c {
      assert t in Terminators(text, c, |text|);
    } else {
      MarkersUnbordered();
      if c - |TERMINATOR| < t { NoOverlap(text, TERMINATOR, c - |TERMINATOR|, t); }
    }
  }

  /** No scratchpad leak: a candidate other than the object that opens the text begins
      after the last terminator or contains it. So an example that ends before the real
      terminator is never offered. */
  lemma NothingLeaks(text: string, s: Span, t: nat)
    requires s in JsonCandidates(text) && LeadingObject(text, 0) != Some(s) && IsLastTerminator(text, t)
    ensures t + |TERMINATOR| <= s.start || (s.start <= t && t + |TERMINATOR| <= s.end)
  {
    DedupAddsNothing(text, Offers(text), s);
    InOffers(text, s);
    var c :| IsCut(text, c) && OfferedAt(text, c, s);
    OfferedAfterCut(text, c, s);
    InsideOrBefore(text, c, s, t);
  }

  // ----- exactly which fenced objects are offered -----------------------------

  /** Some terminator ends at or before `f`, or there is none at all. */
  ghost predicate CutBefore(text: string, f: nat) {
    || Terminators(text, 0, |text|) == {}
    || exists t :: t in Terminators(text, 0, |text|) && t + |TERMINATOR| <= f
  }

  /** Every terminator from `f` on lies inside the span. */
  predicate AllInside(text: string, f: nat, s: Span)
    requires s.end <= |text|
  {
    forall t :: t in Terminators(text, 0, |text|) && f <= t ==> t in Terminators(text, s.start, s.end)
  }

  /** A terminator cannot run into a fence. */
  lemma TerminatorAvoidsFence(text: string, t: nat, f: nat)
    requires OccursAt(text, TERMINATOR, t) && OccursAt(text, FENCE, f) && t < f
    ensures t + |TERMINATOR| <= f
  {
    assert text[f] == text[f..f + |FENCE|][0] == '`';
    if f < t + |TERMINATOR| { TerminatorText(text, t, f); }
  }

  lemma LastCutBefore(text: string, f: nat) returns (c: nat)
    requires OccursAt(text, FENCE, f) && CutBefore(text, f)
    ensures IsCut(text, c) && c <= f
    ensures forall t :: t in Terminators(text, 0, |text|) && c <= t ==> f <= t
  {
    var all := Terminators(text, 0, |text|);
    if all == {} { return 0; }
    var before := set t | t in all && t + |TERMINATOR| <= f;
    var first :| first in all && first + |TERMINATOR| <= f;
    assert first in before;
    var last := Largest(before);
    c := last + |TERMINATOR|;
    assert forall t :: t in all && t + |TERMINATOR| <= f ==> t in before;
    forall t | t in all && c <= t
      ensures f <= t
    {
      if t < f {
        TerminatorAvoidsFence(text, t, f);
      }
    }
  }

  lemma {:induction false} Largest(xs: set<nat>) returns (m: nat)
    requires xs != {}
    ensures m in xs && forall x :: x in xs ==> x <= m
    decreases |xs|
  {
    m :| m in xs;
    if xs != {m} {
      var rest := xs - {m};
      assert xs == {m} + rest;
      var n := Largest(rest);
      if m < n { m := n; }
    }
  }

  lemma SameTerminators(text: string, f: nat, s: Span, c: nat)
    requires f <= s.start <= s.end <= |text| && c <= f && AllInside(text, f, s)
    requires forall t :: t in Terminators(text, 0, |text|) && c <= t ==> f <= t
    ensures Terminators(text, s.start, s.end) == Terminators(text, c, |text|)
  {
    forall t | t in Terminators(text, s.start, s.end) ensures t in Terminators(text, c, |text|) {}
    forall t | t in Terminators(text, c, |text|) ensures t in Terminators(text, s.start, s.end) {
      assert t in Terminators(text, 0, |text|);
    }
  }

  /** A fenced object is offered exactly when some terminator ends before its fence (or
      the text has none) and every terminator after the fence is quoted inside it. */
  lemma FencedObjectOffered(text: string, f: nat, s: Span)
    requires Behind(text, f, s)
    ensures s in Offers(text) <==> CutBefore(text, f) && AllInside(text, f, s)
  {
    FenceBeforeObject(text, f, s);
    if CutBefore(text, f) && AllInside(text, f, s) {
      var c := LastCutBefore(text, f);
      SameTerminators(text, f, s, c);
      EqualCountsMeanAll(text, c, s);
      assert OfferedAt(text, c, s);
      InOffers(text, s);
    }
    if s in Offers(text) {
      InOffers(text, s);
      NotOpening(text, f, s);
      var c :| IsCut(text, c) && OfferedAt(text, c, s);
      OfferedAfterCut(text, c, s);
      CutNotInGap(text, f, s, c);
    }
  }

  /** Between a fence and its object there is only white space. */
  lemma FenceBeforeObject(text: string, f: nat, s: Span)
    requires Behind(text, f, s)
    ensures f + |FENCE| <= s.start < s.end <= |text|
    ensures text[f] == '`' && forall i :: f + |FENCE| <= i < s.start ==> IsWhitespace(text[i])
  {
    LeadingObjectIsShortest(text, f + |FENCE|, s);
    assert text[f] == text[f..f + |FENCE|][0];
    assert forall i :: f + |FENCE| <= i < s.start ==> text[i] == text[f + |FENCE|..s.start][i - f - |FENCE|];
  }

  lemma NotOpening(text: string, f: nat, s: Span)
    requires Behind(text, f, s)
    ensures LeadingObject(text, 0) != Some(s)
  {
    FenceBeforeObject(text, f, s);
    LeadingObjectIsShortest(text, 0, s);
    assert text[0..s.start][f] == '`';
  }

  lemma FenceText(text: string, f: nat, i: nat)
    requires OccursAt(text, FENCE, f) && f <= i < f + |FENCE|
    ensures text[i] == FENCE[i - f] && text[i] != '>' && text[i] != '<'
  {
    assert text[i] == text[f..f + |FENCE|][i - f];
  }

  lemma TerminatorText(text: string, t: nat, i: nat)
    requires OccursAt(text, TERMINATOR, t) && t <= i < t + |TERMINATOR|
    ensures text[i] == TERMINATOR[i - t] && text[i] != '`' && text[i] != '}' && !IsWhitespace(text[i])
  {
    assert text[i] == text[t..t + |TERMINATOR|][i - t];
  }

  /** A cut before the object lies before its fence. */
  lemma CutNotInGap(text: string, f: nat, s: Span, c: nat)
    requires Behind(text, f, s) && IsCut(text, c) && c <= s.start <= s.end <= |text|
    requires Terminators(text, s.start, s.end) == Terminators(text, c, |text|)
    ensures CutBefore(text, f) && AllInside(text, f, s)
  {
    FenceBeforeObject(text, f, s);
    if c > f {
      var t := c - |TERMINATOR|;
      TerminatorText(text, t, c - 1);
      if c - 1 < f + |FENCE| { FenceText(text, f, c - 1); }
    } else {
      assert forall t :: t in Terminators(text, 0, |text|) && f <= t ==> t in Terminators(text, c, |text|);
    }
  }

  // ----- completeness ---------------------------------------------------------

  predicate HasTerminator(text: string) {
    Terminators(text, 0, |text|) != {}
  }

  /** A printed object in a json fence, and what stands before and after it. */
  function Fenced(before: string, space: string, v: Value, trailing: string): string {
    before + FENCE + space + Print(v) + trailing
  }

  function ObjectOf(before: string, space: string, v: Value): Span {
    Span(|before + FENCE + space|, |before + FENCE + space + Print(v)|)
  }

  lemma FencedIsBehind(before: string, space: string, v: Value, trailing: string)
    requires v.Obj? && Legal(v) && AllWhitespace(space)
    ensures Behind(Fenced(before, space, v, trailing), |before|, ObjectOf(before, space, v))
  {
    PrintedObjectIsFound(before + FENCE, space, v, trailing);
    assert Fenced(before, space, v, trailing)[|before|..|before| + |FENCE|] == FENCE;
  }

  function Response(scratchpad: string, prose: string, space: string, v: Value, trailing: string): string {
    Fenced(scratchpad + TERMINATOR + prose, space, v, trailing)
  }

  /** Every printed object that follows the terminator in a json fence, with no terminator
      after it, is among the candidates as it was printed: however many terminators or
      fences its strings quote, and whatever the scratchpad and the prose contain. */
  lemma PrintedSummaryIsOffered(scratchpad: string, prose: string, space: string, v: Value, trailing: string)
    requires v.Obj? && Legal(v) && IsJsonSpace(space) && !HasTerminator(trailing)
    ensures var text := Response(scratchpad, prose, space, v, trailing);
            exists s :: s in JsonCandidates(text) && Content(text, s) == Print(v)
  {
    var text := Response(scratchpad, prose, space, v, trailing);
    var f := |scratchpad + TERMINATOR + prose|;
    var prefix := scratchpad + TERMINATOR + prose + FENCE;
    var s := Span(|prefix + space|, |prefix + space + Print(v)|);
    assert text == prefix + space + Print(v) + trailing;
    CutInResponse(scratchpad, prose, space, v, trailing);
    FencedIsBehind(scratchpad + TERMINATOR + prose, space, v, trailing);
    forall u | u in Terminators(text, 0, |text|) && f <= u
      ensures u in Terminators(text, s.start, s.end)
    {
      TrailingHasNone(prefix, space, v, trailing, u);
      TerminatorStartsInside(text, f, s, u);
    }
    FencedObjectOffered(text, f, s);
    var kept := DedupKeepsTexts(text, Offers(text), s);
    assert Content(text, s) == Print(v);
  }

  /** The same with the two marks written out. */
  lemma SummaryIsOffered(scratchpad: string, prose: string, space: string, v: Value, trailing: string)
    requires v.Obj? && Legal(v) && IsJsonSpace(space) && !HasTerminator(trailing)
    ensures var text := scratchpad + "</analysis>" + prose + "```json" + space + Print(v) + trailing;
            exists s :: s in JsonCandidates(text) && Content(text, s) == Print(v)
  {
    PrintedSummaryIsOffered(scratchpad, prose, space, v, trailing);
  }

  lemma Regroup(a: string, b: string, c: string, d: string, e: string, f: string)
    ensures a + b + c + d + e + f == a + (b + c + d + e + f)
  {}

  lemma TerminatorAt(head: string, tail: string)
    ensures |head| in Terminators(head + TERMINATOR + tail, 0, |head + TERMINATOR + tail|)
  {
    var text := head + TERMINATOR + tail;
    assert text[|head|..|head| + |TERMINATOR|] == TERMINATOR;
  }

  lemma CutInResponse(scratchpad: string, prose: string, space: string, v: Value, trailing: string)
    ensures CutBefore(Response(scratchpad, prose, space, v, trailing), |scratchpad + TERMINATOR + prose|)
  {
    Regroup(scratchpad + TERMINATOR, prose, FENCE, space, Print(v), trailing);
    TerminatorAt(scratchpad, prose + FENCE + space + Print(v) + trailing);
  }

  /** After the fence, a terminator that does not start in the trailing text lies inside
      the printed object. */
  lemma TerminatorStartsInside(text: string, f: nat, s: Span, u: nat)
    requires Behind(text, f, s) && OccursAt(text, TERMINATOR, u) && f <= u < s.end <= |text|
    requires text[s.end - 1] == '}'
    ensures u in Terminators(text, s.start, s.end)
  {
    FenceBeforeObject(text, f, s);
    TerminatorText(text, u, u);
    if u < f + |FENCE| { FenceText(text, f, u); }
    if s.end < u + |TERMINATOR| { TerminatorText(text, u, s.end - 1); }
  }

  lemma TrailingHasNone(prefix: string, space: string, v: Value, trailing: string, u: nat)
    requires v.Obj? && !HasTerminator(trailing)
    requires OccursAt(prefix + space + Print(v) + trailing, TERMINATOR, u)
    ensures u < |prefix + space + Print(v)|
    ensures (prefix + space + Print(v) + trailing)[|prefix + space + Print(v)| - 1] == '}'
  {
    var head := prefix + space + Print(v);
    if u >= |head| { OccursInTail(head, trailing, u); }
  }

  lemma OccursInTail(head: string, tail: string, u: nat)
    requires u >= |head| && OccursAt(head + tail, TERMINATOR, u)
    ensures HasTerminator(tail)
  {
    assert (head + tail)[u..u + |TERMINATOR|] == tail[u - |head|..u - |head| + |TERMINATOR|];
    assert u - |head| in Terminators(tail, 0, |tail|);
  }
}
