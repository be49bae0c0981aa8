/** The order of the candidates themselves, said by positions in the response: a later
    terminator's come before an earlier one's, of one terminator's those that start later
    come first, and the object that opens the text comes last
    (desktop/crates/goose-context-management/src/structured.rs, 195-240). */
module TriedOrder {
  import opened Wrappers
  import opened Text
  import opened Sequences
  import opened Scanner
  import opened Candidates
  import opened CandidateOrder

  /** Some terminator (or the start of a text without any) ends at `c`, and `s` is offered
      there. */
  ghost predicate From(text: string, c: nat, s: Span) {
    IsCut(text, c) && OfferedAt(text, c, s)
  }

  /** The object that opens the text, if no cut offers it. */
  ghost predicate OpensOnly(text: string, s: Span) {
    LeadingObject(text, 0) == Some(s) && forall c :: !From(text, c, s)
  }

  ghost predicate TriedBefore(text: string, s: Span, u: Span) {
    exists c: nat :: From(text, c, s) && (OpensOnly(text, u) || Follows(text, c, s, u))
  }

  /** `u` is offered at an earlier cut, or at the same one and starts earlier. */
  ghost predicate Follows(text: string, c: nat, s: Span, u: Span) {
    exists d: nat :: From(text, d, u) && (d < c || (d == c && u.start < s.start))
  }

  ghost predicate InOrder(text: string, spans: seq<Span>) {
    forall i, j :: 0 <= i < j < |spans| ==> TriedBefore(text, spans[i], spans[j])
  }

  lemma LaterCutDiffers(text: string, c: nat, d: nat)
    requires IsCut(text, c) && IsCut(text, d) && c < d <= |text|
    ensures Terminators(text, c, |text|) != Terminators(text, d, |text|)
  {
    MarkersUnbordered();
    NoOverlap(text, TERMINATOR, c - |TERMINATOR|, d - |TERMINATOR|);
    assert d - |TERMINATOR| in Terminators(text, c, |text|);
  }

  /** Each span is offered at one cut at most. */
  lemma OfferedAtOneCut(text: string, c: nat, d: nat, s: Span)
    requires From(text, c, s) && From(text, d, s)
    ensures c == d
  {
    OfferedAfterCut(text, c, s);
    OfferedAfterCut(text, d, s);
    if c < d { LaterCutDiffers(text, c, d); } else if d < c { LaterCutDiffers(text, d, c); }
  }

  // ----- within one cut ------------------------------------------------------------

  lemma {:induction false} KeepIsLastFirst(text: string, spans: seq<Span>, later: nat)
    requires LastFirst(spans)
    ensures LastFirst(Keep(text, spans, later))
    decreases |spans|
  {
    if spans != [] {
      KeepIsLastFirst(text, spans[1..], later);
      var rest := Keep(text, spans[1..], later);
      forall u | u in rest ensures u.start < spans[0].start {
        InKeep(text, spans[1..], later, u);
        var i :| 0 <= i < |spans[1..]| && spans[1..][i] == u;
        assert spans[i + 1] == u;
      }
      assert forall i :: 0 <= i < |rest| ==> rest[i] in rest;
    }
  }

  /** The object at a cut starts before every object behind a fence after the cut. */
  lemma CutObjectStartsFirst(text: string, cut: nat, f: nat, s: Span, u: Span)
    requires cut <= |text| && LeadingObject(text, cut) == Some(s) && cut <= f && Behind(text, f, u)
    ensures s.start < u.start
  {
    LeadingObjectIsShortest(text, cut, s);
    FenceBeforeObject(text, f, u);
    assert forall k :: cut <= k < s.start ==> text[k] == text[cut..s.start][k - cut];
  }

  lemma CutIsLastFirst(text: string, cut: nat)
    requires cut <= |text|
    ensures LastFirst(FencedBlocks(text, cut) + ToSeq(LeadingObject(text, cut)))
  {
    LaterFencesFirst(text, cut);
    var blocks, o := FencedBlocks(text, cut), LeadingObject(text, cut);
    if o.Some? {
      forall u | u in blocks ensures o.value.start < u.start {
        InFencedBlocks(text, cut, u);
        var f: nat :| cut <= f && Behind(text, f, u);
        CutObjectStartsFirst(text, cut, f, o.value, u);
      }
      LastFirstEnd(blocks, o.value);
    } else {
      assert blocks + [] == blocks;
    }
  }

  lemma FromCutInOrder(text: string, c: nat)
    requires IsCut(text, c)
    ensures InOrder(text, FromCut(text, c))
  {
    if c <= |text| {
      CutIsLastFirst(text, c);
      KeepIsLastFirst(text, FencedBlocks(text, c) + ToSeq(LeadingObject(text, c)), Count(text, c, |text|));
      var spans := FromCut(text, c);
      forall i, j | 0 <= i < j < |spans| ensures TriedBefore(text, spans[i], spans[j]) {
        assert spans[i] in spans && spans[j] in spans;
        InFromCut(text, c, spans[i]);
        InFromCut(text, c, spans[j]);
        assert From(text, c, spans[i]) && From(text, c, spans[j]);
        assert Follows(text, c, spans[i], spans[j]);
      }
    }
  }

  // ----- over all cuts ---------------------------------------------------------------

  lemma InOrderJoins(text: string, a: seq<Span>, b: seq<Span>)
    requires InOrder(text, a) && InOrder(text, b)
    requires forall s, u :: s in a && u in b ==> TriedBefore(text, s, u)
    ensures InOrder(text, a + b)
  {
    forall i, j | 0 <= i < j < |a + b| ensures TriedBefore(text, (a + b)[i], (a + b)[j]) {
      if i < |a| <= j { assert a[i] in a && b[j - |a|] in b; }
    }
  }

  lemma {:induction false} CutsInOrder(text: string, cuts: seq<nat>)
    requires Increasing(cuts) && forall c :: c in cuts ==> IsCut(text, c)
    ensures InOrder(text, FromCuts(text, cuts))
    decreases |cuts|
  {
    if cuts != [] {
      CutsInOrder(text, cuts[1..]);
      FromCutInOrder(text, cuts[0]);
      forall s, u | s in FromCuts(text, cuts[1..]) && u in FromCut(text, cuts[0])
        ensures TriedBefore(text, s, u)
      {
        InFromCuts(text, cuts[1..], s);
        var c :| c in cuts[1..] && s in FromCut(text, c);
        InFromCut(text, c, s);
        InFromCut(text, cuts[0], u);
        assert From(text, c, s) && From(text, cuts[0], u);
        assert Follows(text, c, s, u);
      }
      assert AtCut(text)(cuts[0]) == FromCut(text, cuts[0]);
      InOrderJoins(text, FromCuts(text, cuts[1..]), FromCut(text, cuts[0]));
    }
  }

  // ----- dropping duplicates -----------------------------------------------------------

  lemma InOrderFrom(text: string, spans: seq<Span>, k: nat)
    requires k <= |spans| && InOrder(text, spans)
    ensures InOrder(text, spans[k..])
  {
    forall i, j | 0 <= i < j < |spans| - k ensures TriedBefore(text, spans[k..][i], spans[k..][j]) {
      assert TriedBefore(text, spans[i + k], spans[j + k]);
    }
  }

  lemma FirstBeforeRest(text: string, spans: seq<Span>, k: nat, u: Span)
    requires 0 < k <= |spans| && InOrder(text, spans) && u in spans[k..]
    ensures TriedBefore(text, spans[0], u)
  {
    var i :| 0 <= i < |spans| - k && spans[k..][i] == u;
    assert TriedBefore(text, spans[0], spans[i + k]);
  }

  lemma SecondDropped(text: string, spans: seq<Span>)
    requires |spans| > 1 && InOrder(text, spans)
    ensures InOrder(text, [spans[0]] + spans[2..])
  {
    InOrderFrom(text, spans, 2);
    forall s, u | s in [spans[0]] && u in spans[2..] ensures TriedBefore(text, s, u) {
      FirstBeforeRest(text, spans, 2, u);
    }
    InOrderJoins(text, [spans[0]], spans[2..]);
  }

  lemma FirstKept(text: string, spans: seq<Span>)
    requires |spans| > 1 && InOrder(text, spans) && InOrder(text, Dedup(text, spans[1..]))
    ensures InOrder(text, [spans[0]] + Dedup(text, spans[1..]))
  {
    forall s, u | s in [spans[0]] && u in Dedup(text, spans[1..]) ensures TriedBefore(text, s, u) {
      DedupAddsNothing(text, spans[1..], u);
      FirstBeforeRest(text, spans, 1, u);
    }
    InOrderJoins(text, [spans[0]], Dedup(text, spans[1..]));
  }

  lemma {:induction false} DedupInOrder(text: string, spans: seq<Span>)
    requires InOrder(text, spans)
    ensures InOrder(text, Dedup(text, spans))
    decreases |spans|
  {
    if |spans| > 1 {
      if Content(text, spans[0]) == Content(text, spans[1]) {
        SecondDropped(text, spans);
        DedupInOrder(text, [spans[0]] + spans[2..]);
      } else {
        InOrderFrom(text, spans, 1);
        DedupInOrder(text, spans[1..]);
        FirstKept(text, spans);
      }
    }
  }

  /** A last span that stands there twice is listed once. */
  lemma {:induction false} DedupLastTwice(text: string, spans: seq<Span>)
    requires spans != []
    ensures Dedup(text, spans + [spans[|spans| - 1]]) == Dedup(text, spans)
    decreases |spans|
  {
    var last := spans[|spans| - 1];
    var longer := spans + [last];
    if |spans| == 1 {
      assert longer[2..] == [];
      assert [longer[0]] + longer[2..] == spans;
    } else if Content(text, spans[0]) == Content(text, spans[1]) {
      var shorter := [spans[0]] + spans[2..];
      assert [longer[0]] + longer[2..] == shorter + [last];
      if |spans| > 2 {
        DedupLastTwice(text, shorter);
      } else {
        SameTextTwice(text, spans[0], last);
      }
    } else {
      assert longer[1..] == spans[1..] + [last];
      DedupLastTwice(text, spans[1..]);
    }
  }

  lemma SameTextTwice(text: string, first: Span, second: Span)
    requires Content(text, first) == Content(text, second)
    ensures Dedup(text, [first] + [second]) == Dedup(text, [first])
  {
    assert [first, second][2..] == [];
  }

  /** Neighbours in the list differ in their text. */
  lemma {:induction false} DedupSeparates(text: string, spans: seq<Span>, i: nat)
    requires i + 1 < |Dedup(text, spans)|
    ensures Content(text, Dedup(text, spans)[i]) != Content(text, Dedup(text, spans)[i + 1])
    decreases |spans|
  {
    if Content(text, spans[0]) == Content(text, spans[1]) {
      DedupSeparates(text, [spans[0]] + spans[2..], i);
    } else if i > 0 {
      DedupSeparates(text, spans[1..], i - 1);
    } else {
      DedupStarts(text, spans[1..]);
    }
  }

  lemma {:induction false} DedupStarts(text: string, spans: seq<Span>)
    requires spans != []
    ensures Dedup(text, spans) != [] && Dedup(text, spans)[0] == spans[0]
    decreases |spans|
  {
    if |spans| > 1 && Content(text, spans[0]) == Content(text, spans[1]) {
      DedupStarts(text, [spans[0]] + spans[2..]);
    }
  }

  // ----- the list -----------------------------------------------------------------------

  lemma CutsAreCuts(text: string)
    ensures Increasing(Cuts(text)) && forall c :: c in Cuts(text) ==> IsCut(text, c)
  {
    LaterTerminatorsFirst(text, 0);
    forall c | c in Cuts(text) ensures IsCut(text, c) { InCuts(text, c); }
  }

  lemma OfferedBeforeOpening(text: string, o: Span)
    requires OpensOnly(text, o)
    ensures InOrder(text, FromCuts(text, Cuts(text)) + [o])
  {
    CutsAreCuts(text);
    CutsInOrder(text, Cuts(text));
    var spans := FromCuts(text, Cuts(text));
    forall s | s in spans ensures TriedBefore(text, s, o) {
      InFromCuts(text, Cuts(text), s);
      var c :| c in Cuts(text) && s in FromCut(text, c);
      InFromCut(text, c, s);
      assert From(text, c, s);
    }
    InOrderJoins(text, spans, [o]);
  }

  /** The opening object is offered at a cut only in a text without terminators, and is
      then the last of all. */
  lemma OpeningOfferedIsLast(text: string, o: Span, c: nat)
    requires LeadingObject(text, 0) == Some(o) && From(text, c, o)
    ensures Cuts(text) == [0] && FromCut(text, 0) != [] && FromCut(text, 0)[|FromCut(text, 0)| - 1] == o
  {
    OfferedAfterCut(text, c, o);
    LeadingObjectIsShortest(text, 0, o);
    if Terminators(text, 0, |text|) != {} { CutAfterOpening(text, o, c); }
    OnlyCutOfNone(text);
    InFromCut(text, 0, o);
    var spans := FromCut(text, 0);
    var i :| 0 <= i < |spans| && spans[i] == o;
    FromCutEnds(text, o, i);
  }

  lemma CutAfterOpening(text: string, o: Span, c: nat)
    requires LeadingObject(text, 0) == Some(o) && IsCut(text, c) && Terminators(text, 0, |text|) != {}
    ensures o.start < c
  {
    var t := c - |TERMINATOR|;
    LeadingObjectIsShortest(text, 0, o);
    TerminatorText(text, t, t);
    assert t < o.start ==> text[0..o.start][t] == text[t];
  }

  lemma OnlyCutOfNone(text: string)
    requires Terminators(text, 0, |text|) == {}
    ensures Cuts(text) == [0]
  {
    var found := Matches(text, TERMINATOR, 0, |text|);
    assert found != [] ==> found[0] in Elements(found);
    CountIsCardinality(text, 0, |text|);
  }

  /** Nothing that a text offers starts before its opening object. */
  lemma FromCutEnds(text: string, o: Span, i: nat)
    requires LeadingObject(text, 0) == Some(o) && i < |FromCut(text, 0)| && FromCut(text, 0)[i] == o
    ensures i == |FromCut(text, 0)| - 1
  {
    CutIsLastFirst(text, 0);
    KeepIsLastFirst(text, FencedBlocks(text, 0) + ToSeq(LeadingObject(text, 0)), Count(text, 0, |text|));
    var spans := FromCut(text, 0);
    if i < |spans| - 1 {
      var u := spans[i + 1];
      assert u in spans;
      InFromCut(text, 0, u);
      if f: nat :| 0 <= f && Behind(text, f, u) { CutObjectStartsFirst(text, 0, f, o, u); }
    }
  }

  lemma OnlyCut(text: string, cuts: seq<nat>)
    requires cuts == [0]
    ensures FromCuts(text, cuts) == FromCut(text, 0)
  {
    assert cuts[1..] == [];
    assert CollectBackwards(cuts, AtCut(text)) == CollectBackwards(cuts[1..], AtCut(text)) + AtCut(text)(cuts[0]);
    assert [] + FromCut(text, 0) == FromCut(text, 0);
  }

  /** Of any two candidates, the one that is tried first was offered at a later cut, or at
      the same cut and starts later, or the other one only opens the text. */
  lemma CandidatesInOrder(text: string)
    ensures InOrder(text, JsonCandidates(text))
  {
    CutsAreCuts(text);
    CutsInOrder(text, Cuts(text));
    var spans, o := FromCuts(text, Cuts(text)), LeadingObject(text, 0);
    if o.None? {
      assert spans + [] == spans;
      DedupInOrder(text, spans);
    } else if c: nat :| From(text, c, o.value) {
      OpeningOfferedIsLast(text, o.value, c);
      OnlyCut(text, Cuts(text));
      DedupLastTwice(text, spans);
      DedupInOrder(text, spans);
    } else {
      OfferedBeforeOpening(text, o.value);
      DedupInOrder(text, spans + [o.value]);
    }
  }

  /** And no two that follow each other have the same text. */
  lemma CandidatesDiffer(text: string, i: nat)
    requires i + 1 < |JsonCandidates(text)|
    ensures Content(text, JsonCandidates(text)[i]) != Content(text, JsonCandidates(text)[i + 1])
  {
    DedupSeparates(text, Offers(text), i);
  }
}
