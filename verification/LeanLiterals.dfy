/** The comment stripper against Lean's own string literals
    (_strip_lean_comments in assurance/accordlock_assurance/linter.py, 428-466). In Lean a
    backslash escapes the character behind it, so that an escaped backslash does not
    escape a quote. The loop looks back one character instead (462). Character literals
    are not read here. */
module LeanLiterals {
  import opened LeanComments

  /** Where the Lean string literal whose contents go on at `i` ends. */
  function LeanStringEnd(text: string, i: nat): (r: nat)
    requires i <= |text|
    ensures i <= r <= |text| && (i < |text| ==> i < r)
    ensures r < |text| ==> i < r && text[r - 1] == '"'
    decreases |text| - i
  {
    if i == |text| then i
    else if text[i] == '\\' then (if i + 1 == |text| then i + 1 else LeanStringEnd(text, i + 2))
    else if text[i] == '"' then i + 1
    else LeanStringEnd(text, i + 1)
  }

  /** The token at `i` of a Lean text, with comments blanked, and where it ends. */
  function LeanToken(text: string, i: nat): (r: (string, nat))
    requires i < |text|
    ensures i < r.1 <= |text|
  {
    if StartsComment(text, i) then CommentToken(text, i)
    else if text[i] == '"' then
      var e := LeanStringEnd(text, i + 1);
      (text[i..e], e)
    else
      ([text[i]], i + 1)
  }

  /** A Lean text read token by token. */
  function ReadLean(text: string, i: nat): string
    requires i <= |text|
    decreases |text| - i
  {
    if i == |text| then []
    else
      var (shown, e) := LeanToken(text, i);
      shown + ReadLean(text, e)
  }

  // ----- one literal -----------------------------------------------------------

  /** The literal is not closed, or ends the text, or is closed by a quote that no
      backslash stands before. */
  predicate EndsPlainly(text: string, i: nat)
    requires 0 < i <= |text|
  {
    var e := LeanStringEnd(text, i);
    e == |text| || text[e - 2] != '\\'
  }

  /** From the first character of a literal on, the loop finds its end exactly when it
      ends plainly. */
  lemma {:induction false} LiteralEndsExactly(text: string, i: nat)
    requires 0 < i <= |text|
    ensures StringEnd(text, i) == LeanStringEnd(text, i) <==> EndsPlainly(text, i)
    decreases |text| - i
  {
    if i < |text| {
      if text[i] == '\\' {
        if i + 1 < |text| {
          assert StringEnd(text, i) == StringEnd(text, i + 1) == StringEnd(text, i + 2);
          LiteralEndsExactly(text, i + 2);
        }
      } else if text[i] != '"' {
        LiteralEndsExactly(text, i + 1);
      }
    }
  }

  // ----- whole texts -------------------------------------------------------------

  /** What the loop asks of a quote that opens a literal at `i`, and of the literal. */
  predicate LiteralFits(text: string, i: nat)
    requires i < |text|
  {
    text[i] == '"' ==>
      (i + 1 == |text| || i == 0 || text[i - 1] != '\\') && EndsPlainly(text, i + 1)
  }

  /** No quote that opens a literal follows a backslash, and no literal that is closed
      ends in an escaped backslash, unless the text ends there. */
  predicate LiteralsFit(text: string, i: nat)
    requires i <= |text|
    decreases |text| - i
  {
    i < |text| ==> (StartsComment(text, i) || LiteralFits(text, i)) && LiteralsFit(text, LeanToken(text, i).1)
  }

  lemma TokensAlike(text: string, i: nat)
    requires i < |text|
    ensures Token(text, i).1 == LeanToken(text, i).1 <==> StartsComment(text, i) || LiteralFits(text, i)
    ensures Token(text, i).1 == LeanToken(text, i).1 ==> Token(text, i) == LeanToken(text, i)
  {
    if text[i] == '"' {
      LiteralEndsExactly(text, i + 1);
      assert text[i..i + 1] == [text[i]];
    }
  }

  /** Where the loop's tokens end. */
  function Ends(text: string, i: nat): seq<nat>
    requires i <= |text|
    decreases |text| - i
  {
    if i == |text| then [] else [Token(text, i).1] + Ends(text, Token(text, i).1)
  }

  /** Where the tokens of the Lean text end. */
  function LeanEnds(text: string, i: nat): seq<nat>
    requires i <= |text|
    decreases |text| - i
  {
    if i == |text| then [] else [LeanToken(text, i).1] + LeanEnds(text, LeanToken(text, i).1)
  }

  lemma ConsEqual(x: nat, xs: seq<nat>, y: nat, ys: seq<nat>)
    ensures [x] + xs == [y] + ys <==> x == y && xs == ys
  {
    assert ([x] + xs)[0] == x && ([y] + ys)[0] == y;
    assert ([x] + xs)[1..] == xs && ([y] + ys)[1..] == ys;
  }

  /** The loop cuts a text where Lean does if and only if its literals fit. */
  lemma {:induction false} SameTokensExactly(text: string, i: nat)
    requires i <= |text|
    ensures Ends(text, i) == LeanEnds(text, i) <==> LiteralsFit(text, i)
    decreases |text| - i
  {
    if i < |text| {
      var e, f := Token(text, i).1, LeanToken(text, i).1;
      TokensAlike(text, i);
      ConsEqual(e, Ends(text, e), f, LeanEnds(text, f));
      SameTokensExactly(text, f);
    }
  }

  lemma {:induction false} ReadsAlike(text: string, i: nat)
    requires i <= |text| && LiteralsFit(text, i)
    ensures ReadCode(text, i) == ReadLean(text, i)
    decreases |text| - i
  {
    if i < |text| {
      TokensAlike(text, i);
      ReadsAlike(text, LeanToken(text, i).1);
    }
  }

  /** Where the literals fit, the stripper blanks exactly the comments of the Lean text and
      copies everything else. */
  lemma StripReadsLean(text: string)
    requires LiteralsFit(text, 0)
    ensures Strip(text) == ReadLean(text, 0)
  {
    CommentsAndNothingElse(text);
    ReadsAlike(text, 0);
  }

  // ----- where they do not fit -----------------------------------------------------

  /** A literal that holds one backslash, and a comment behind it. */
  function BackslashThenComment(comment: string): string {
    ['"', '\\', '\\', '"', '-', '-'] + comment
  }

  lemma {:induction false} NoQuoteAhead(text: string, i: nat)
    requires i <= |text| && forall k :: i <= k < |text| ==> text[k] != '"'
    ensures StringEnd(text, i) == |text|
    decreases |text| - i
  {
    if i < |text| { NoQuoteAhead(text, i + 1); }
  }

  lemma LoopReadsOneString(comment: string)
    requires '"' !in comment
    ensures ReadCode(BackslashThenComment(comment), 0) == BackslashThenComment(comment)
  {
    var text := BackslashThenComment(comment);
    NoQuoteAhead(text, 4);
    assert StringEnd(text, 1) == StringEnd(text, 2);
    assert StringEnd(text, 2) == StringEnd(text, 3);
    assert StringEnd(text, 3) == StringEnd(text, 4);
    assert Token(text, 0) == (text[0..|text|], |text|);
    assert text[0..|text|] + [] == text;
  }

  lemma NoBreakAhead(text: string, i: nat)
    requires i <= |text| && forall k :: i <= k < |text| ==> text[k] != '\n'
    ensures LineEnd(text, i) == |text|
  {}

  lemma LeanReadsComment(comment: string)
    requires '\n' !in comment
    ensures ReadLean(BackslashThenComment(comment), 0) == ['"', '\\', '\\', '"'] + Spaces(2 + |comment|)
  {
    var text := BackslashThenComment(comment);
    assert LeanStringEnd(text, 1) == LeanStringEnd(text, 3) == 4;
    assert LeanToken(text, 0) == (text[0..4], 4);
    NoBreakAhead(text, 4);
    assert LeanToken(text, 4) == (Blanked(text[4..|text|]), |text|);
    assert Blanked(text[4..|text|]) == Spaces(2 + |comment|);
    assert ReadLean(text, |text|) == [];
    assert ReadLean(text, 4) == Spaces(2 + |comment|) + [];
    assert text[0..4] == ['"', '\\', '\\', '"'];
  }

  /** No such comment is stripped. */
  lemma CommentBehindBackslashStays(comment: string)
    requires '"' !in comment && '\n' !in comment
    ensures Strip(BackslashThenComment(comment)) == BackslashThenComment(comment)
    ensures Strip(BackslashThenComment(comment)) != ReadLean(BackslashThenComment(comment), 0)
  {
    var text := BackslashThenComment(comment);
    CommentsAndNothingElse(text);
    LoopReadsOneString(comment);
    LeanReadsComment(comment);
    assert text[4] == '-' && (['"', '\\', '\\', '"'] + Spaces(2 + |comment|))[4] == ' ';
  }
}
