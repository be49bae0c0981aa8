/** The order in which candidates are tried, which decides between several that parse
    (desktop/crates/goose-context-management/src/structured.rs, 195-198 and 242-244). */
module CandidateOrder {
  import opened Wrappers
  import opened Text
  import opened Sequences
  import opened Scanner
  import opened Candidates

  predicate LastFirst(spans: seq<Span>) {
    forall i, j :: 0 <= i < j < |spans| ==> spans[i].start > spans[j].start
  }

  lemma IncreasingCons(x: nat, rest: seq<nat>)
    requires Increasing(rest) && forall i :: 0 <= i < |rest| ==> x < rest[i]
    ensures Increasing([x] + rest)
  {}

  lemma {:induction false} MatchesFrom(text: string, pattern: string, lo: nat, hi: nat)
    requires lo <= hi <= |text| && pattern != []
    ensures forall x :: x in Matches(text, pattern, lo, hi) ==> lo <= x && OccursAt(text, pattern, x)
    decreases hi - lo
  {
    MatchesUnfold(text, pattern, lo, hi);
    var first := Find(text, pattern, lo, hi);
    if first.Some? { MatchesFrom(text, pattern, first.value + |pattern|, hi); }
  }

  lemma {:induction false} MatchesIncrease(text: string, pattern: string, lo: nat, hi: nat)
    requires lo <= hi <= |text| && pattern != []
    ensures Increasing(Matches(text, pattern, lo, hi))
    decreases hi - lo
  {
    MatchesUnfold(text, pattern, lo, hi);
    var first := Find(text, pattern, lo, hi);
    if first.Some? {
      var next := first.value + |pattern|;
      var rest := Matches(text, pattern, next, hi);
      MatchesFrom(text, pattern, next, hi);
      MatchesIncrease(text, pattern, next, hi);
      assert forall i :: 0 <= i < |rest| ==> rest[i] in rest;
      IncreasingCons(first.value, rest);
    }
  }

  /** An object behind a fence starts before every later fence. */
  lemma ObjectBeforeNextFence(text: string, f: nat, g: nat, s: Span, u: Span)
    requires f < g && Behind(text, f, s) && Behind(text, g, u)
    ensures s.start < u.start
  {
    FenceBeforeObject(text, f, s);
    FenceBeforeObject(text, g, u);
    if g < f + |FENCE| { FenceText(text, f, g); FenceFirst(text, f, g); }
  }

  lemma FenceFirst(text: string, f: nat, g: nat)
    requires OccursAt(text, FENCE, f) && OccursAt(text, FENCE, g) && f < g
    ensures f + |FENCE| <= g
  {
    MarkersUnbordered();
    NoOverlap(text, FENCE, f, g);
  }

  ghost predicate AllFences(text: string, found: seq<nat>) {
    forall f :: f in found ==> OccursAt(text, FENCE, f)
  }

  lemma {:induction false} BackwardsIsLastFirst(text: string, found: seq<nat>)
    requires Increasing(found) && AllFences(text, found)
    ensures LastFirst(CollectBackwards(found, BehindFence(text)))
    decreases |found|
  {
    if found != [] {
      BackwardsIsLastFirst(text, found[1..]);
      FenceComesLast(text, found);
    }
  }

  lemma FenceComesLast(text: string, found: seq<nat>)
    requires found != [] && Increasing(found) && AllFences(text, found)
    requires LastFirst(CollectBackwards(found[1..], BehindFence(text)))
    ensures LastFirst(CollectBackwards(found, BehindFence(text)))
  {
    var rest := CollectBackwards(found[1..], BehindFence(text));
    var o := ObjectAt(text, found[0] + |FENCE|);
    assert BehindFence(text)(found[0]) == ToSeq(o);
    assert CollectBackwards(found, BehindFence(text)) == rest + ToSeq(o);
    if o.Some? {
      forall u | u in rest ensures o.value.start < u.start {
        StartsBefore(text, found, o.value, u);
      }
      LastFirstEnd(rest, o.value);
    } else {
      assert rest + [] == rest;
    }
  }

  lemma StartsBefore(text: string, found: seq<nat>, s: Span, u: Span)
    requires found != [] && Increasing(found) && AllFences(text, found)
    requires ObjectAt(text, found[0] + |FENCE|) == Some(s) && u in CollectBackwards(found[1..], BehindFence(text))
    ensures s.start < u.start
  {
    InCollectBackwards(found[1..], BehindFence(text), u);
    var g :| g in found[1..] && u in BehindFence(text)(g);
    InBehindFence(text, g, u);
    assert g in found && found[0] in found;
    ObjectBeforeNextFence(text, found[0], g, s, u);
  }

  lemma LastFirstEnd(spans: seq<Span>, s: Span)
    requires LastFirst(spans) && forall u :: u in spans ==> s.start < u.start
    ensures LastFirst(spans + [s])
  {}

  /** Behind one terminator, an object behind a later fence is tried first, so a fence
      that a string quotes does not shadow by standing earlier. */
  lemma LaterFencesFirst(text: string, cut: nat)
    requires cut <= |text|
    ensures LastFirst(FencedBlocks(text, cut))
  {
    MatchesIncrease(text, FENCE, cut, |text|);
    MatchesFrom(text, FENCE, cut, |text|);
    BackwardsIsLastFirst(text, Matches(text, FENCE, cut, |text|));
  }

  lemma {:induction false} ShiftIncreases(found: seq<nat>, d: nat)
    requires Increasing(found)
    ensures Increasing(Shift(found, d)) && |Shift(found, d)| == |found|
    ensures forall i :: 0 <= i < |found| ==> Shift(found, d)[i] == found[i] + d
  {
    if found != [] { ShiftIncreases(found[1..], d); }
  }

  lemma {:induction false} CollectedBackwards(earlier: seq<nat>, later: seq<nat>, at: nat -> seq<Span>)
    ensures CollectBackwards(earlier + later, at) == CollectBackwards(later, at) + CollectBackwards(earlier, at)
    decreases |earlier|
  {
    if earlier == [] {
      assert earlier + later == later;
    } else {
      CollectedBackwards(earlier[1..], later, at);
      assert (earlier + later)[1..] == earlier[1..] + later;
    }
  }

  /** What a later terminator offers is tried before anything an earlier one offers, and
      the object that opens the text comes last. */
  lemma LaterTerminatorsFirst(text: string, i: nat)
    requires i <= |Cuts(text)|
    ensures Increasing(Cuts(text))
    ensures var cuts := Cuts(text);
            Offers(text) == FromCuts(text, cuts[i..]) + FromCuts(text, cuts[..i]) + ToSeq(LeadingObject(text, 0))
  {
    var cuts := Cuts(text);
    MatchesIncrease(text, TERMINATOR, 0, |text|);
    ShiftIncreases(Matches(text, TERMINATOR, 0, |text|), |TERMINATOR|);
    assert cuts == cuts[..i] + cuts[i..];
    CollectedBackwards(cuts[..i], cuts[i..], AtCut(text));
  }
}
