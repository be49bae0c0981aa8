/** The fenced objects that are not offered although nothing is wrong with them: those
    whose fence no terminator precedes, in a response that holds one
    (desktop/crates/goose-context-management/src/structured.rs, 219-236). */
module LostObjects {
  import opened Text
  import opened Scanner
  import opened Json
  import opened Candidates

  /** Without a terminator before its fence, a fenced object is offered if and only if the
      response holds no terminator at all, not even one that the object quotes. */
  lemma UnprecededOffered(text: string, f: nat, s: Span)
    requires Behind(text, f, s)
    requires forall t :: t in Terminators(text, 0, |text|) ==> f < t + |TERMINATOR|
    ensures s in Offers(text) <==> !HasTerminator(text)
  {
    FencedObjectOffered(text, f, s);
  }

  lemma OccursInHead(head: string, tail: string, t: nat)
    requires OccursAt(head + tail, TERMINATOR, t) && t + |TERMINATOR| <= |head|
    ensures HasTerminator(head)
  {
    assert (head + tail)[t..t + |TERMINATOR|] == head[t..t + |TERMINATOR|];
    assert t in Terminators(head, 0, |head|);
  }

  lemma NoneBefore(prose: string, tail: string)
    requires !HasTerminator(prose)
    ensures forall t :: t in Terminators(prose + tail, 0, |prose + tail|) ==> |prose| < t + |TERMINATOR|
  {
    forall t | t in Terminators(prose + tail, 0, |prose + tail|)
      ensures |prose| < t + |TERMINATOR|
    {
      if t + |TERMINATOR| <= |prose| { OccursInHead(prose, tail, t); }
    }
  }

  /** So for every printed object behind prose without a terminator. */
  lemma UnprecededObjectOffered(prose: string, space: string, v: Value, trailing: string)
    requires v.Obj? && Legal(v) && AllWhitespace(space) && !HasTerminator(prose)
    ensures ObjectOf(prose, space, v) in Offers(Fenced(prose, space, v, trailing))
            <==> !HasTerminator(Fenced(prose, space, v, trailing))
  {
    var text := Fenced(prose, space, v, trailing);
    FencedIsBehind(prose, space, v, trailing);
    assert text == prose + (FENCE + space + Print(v) + trailing);
    NoneBefore(prose, FENCE + space + Print(v) + trailing);
    UnprecededOffered(text, |prose|, ObjectOf(prose, space, v));
  }

  function Quoted(s: string): seq<Piece> {
    seq(|s|, i requires 0 <= i < |s| => Plain(s[i]))
  }

  lemma {:induction false} QuotedPrints(s: string)
    ensures PrintPieces(Quoted(s)) == s
  {
    if s != [] {
      QuotedPrints(s[1..]);
      assert Quoted(s)[1..] == Quoted(s[1..]);
      assert s == [s[0]] + s[1..];
    }
  }

  /** `{"<name>":"<text>"}` */
  function OneMember(name: string, text: string): Value {
    Obj("", [Member("", Quoted(name), "", "", Str(Quoted(text)), "")])
  }

  lemma MemberPrints(name: string, text: string)
    ensures Print(OneMember(name, text)) == ("{" + PrintString(Quoted(name)) + ":") + PrintString(Quoted(text)) + "}"
  {
    var m := OneMember(name, text).members;
    assert PrintMembers(m) == PrintString(m[0].name) + ":" + PrintString(m[0].value.pieces);
  }

  /** The text before a value that a string quotes, and after it. */
  lemma TextAround(name: string, text: string)
    ensures Fenced("", "", OneMember(name, text), "")
            == (FENCE + "{" + PrintString(Quoted(name)) + ":" + ['"']) + text + (['"'] + "}")
  {
    MemberPrints(name, text);
    QuotedPrints(text);
  }

  /** A response that is nothing but a fenced object is lost when the object quotes the
      terminator. */
  lemma QuotedTerminatorLosesObject(name: string)
    requires Legal(OneMember(name, TERMINATOR))
    ensures ObjectOf("", "", OneMember(name, TERMINATOR)) !in Offers(Fenced("", "", OneMember(name, TERMINATOR), ""))
  {
    TextAround(name, TERMINATOR);
    TerminatorAt(FENCE + "{" + PrintString(Quoted(name)) + ":" + ['"'], ['"'] + "}");
    assert !HasTerminator("");
    UnprecededObjectOffered("", "", OneMember(name, TERMINATOR), "");
  }

  /** For example `{"a":"</analysis>"}`. */
  lemma TerminatorInObjectIsLost()
    ensures var v := OneMember("a", TERMINATOR);
            Legal(v) && ObjectOf("", "", v) !in Offers(Fenced("", "", v, ""))
  {
    QuotedTerminatorLosesObject("a");
  }
}
