/** Blanking out Lean comments (_strip_lean_comments in
    assurance/accordlock_assurance/linter.py, 428-466). */
module LeanComments {

  /** The loop state: how deep in nested block comments, and whether in a string. */
  datatype Mode = Mode(depth: nat, inString: bool)

  const Start: Mode := Mode(0, false)

  function Blank(c: char): char {
    if c == '\n' then '\n' else ' '
  }

  /** `text[i:i+2] == pair`. */
  predicate PairAt(text: string, i: nat, a: char, b: char) {
    i + 1 < |text| && text[i] == a && text[i + 1] == b
  }

  /** Where the line that contains `i` ends. */
  function LineEnd(text: string, i: nat): (r: nat)
    requires i <= |text|
    ensures i <= r <= |text| && (r < |text| ==> text[r] == '\n')
    ensures forall k :: i <= k < r ==> text[k] != '\n'
    decreases |text| - i
  {
    if i == |text| || text[i] == '\n' then i else LineEnd(text, i + 1)
  }

  function Spaces(n: nat): (s: string)
    ensures |s| == n && forall k :: 0 <= k < n ==> s[k] == ' '
  {
    seq(n, _ => ' ')
  }

  predicate TogglesString(text: string, i: nat)
    requires i < |text|
  {
    text[i] == '"' && (i == 0 || text[i - 1] != '\\')
  }

  /** What one turn of the loop outputs at `i`, and the state after it. */
  function Emit(text: string, i: nat, m: Mode): (r: (string, Mode))
    requires i < |text|
    ensures 0 < |r.0| <= |text| - i
  {
    if m.depth > 0 then
      if PairAt(text, i, '/', '-') then ("  ", m.(depth := m.depth + 1))
      else if PairAt(text, i, '-', '/') then ("  ", m.(depth := m.depth - 1))
      else ([Blank(text[i])], m)
    else if !m.inString && PairAt(text, i, '/', '-') then ("  ", m.(depth := 1))
    else if !m.inString && PairAt(text, i, '-', '-') then (Spaces(LineEnd(text, i) - i), m)
    else ([text[i]], if TogglesString(text, i) then m.(inString := !m.inString) else m)
  }

  /** What is output from position `i` on. */
  function StripFrom(text: string, i: nat, m: Mode): (s: string)
    requires i <= |text|
    ensures |s| == |text| - i
    decreases |text| - i
  {
    if i == |text| then []
    else
      var (piece, next) := Emit(text, i, m);
      piece + StripFrom(text, i + |piece|, next)
  }

  function Strip(text: string): string {
    StripFrom(text, 0, Start)
  }

  lemma StripUnfolds(text: string, i: nat, m: Mode, before: string)
    requires i < |text|
    ensures var (piece, next) := Emit(text, i, m);
            before + StripFrom(text, i, m) == (before + piece) + StripFrom(text, i + |piece|, next)
  {}

  /** One turn of the loop, 435-465: what it outputs, and the state it leaves. */
  method TakeTurn(text: string, index: nat, blockDepth: nat, inString: bool)
    returns (piece: string, nextDepth: nat, nextInString: bool)
    requires index < |text|
    ensures (piece, Mode(nextDepth, nextInString)) == Emit(text, index, Mode(blockDepth, inString))
  {
    nextDepth, nextInString := blockDepth, inString;
    if blockDepth > 0 {
      if PairAt(text, index, '/', '-') {
        piece, nextDepth := "  ", blockDepth + 1;
      } else if PairAt(text, index, '-', '/') {
        piece, nextDepth := "  ", blockDepth - 1;
      } else {
        piece := if text[index] == '\n' then "\n" else " ";
      }
    } else if !inString && PairAt(text, index, '/', '-') {
      piece, nextDepth := "  ", 1;
    } else if !inString && PairAt(text, index, '-', '-') {
      piece := Spaces(LineEnd(text, index) - index);
    } else {
      piece := [text[index]];
      if text[index] == '"' && (index == 0 || text[index - 1] != '\\') {
        nextInString := !inString;
      }
    }
  }

  /** 428-466. */
  method StripLeanComments(text: string) returns (output: string)
    ensures output == Strip(text)
  {
    output := [];
    var index, blockDepth: nat, inString := 0, 0, false;
    while index < |text|
      invariant index <= |text|
      invariant Strip(text) == output + StripFrom(text, index, Mode(blockDepth, inString))
      decreases |text| - index
    {
      StripUnfolds(text, index, Mode(blockDepth, inString), output);
      var piece;
      piece, blockDepth, inString := TakeTurn(text, index, blockDepth, inString);
      output, index := output + piece, index + |piece|;
    }
  }

  // ----- length and lines -----------------------------------------------------

  /** Every character is kept or blanked, and newlines stay where they are. */
  lemma {:induction false} KeptOrBlank(text: string, i: nat, m: Mode, k: nat)
    requires i <= k < |text|
    ensures StripFrom(text, i, m)[k - i] == text[k] || StripFrom(text, i, m)[k - i] == ' '
    ensures StripFrom(text, i, m)[k - i] == '\n' <==> text[k] == '\n'
    decreases |text| - i
  {
    var (piece, next) := Emit(text, i, m);
    assert StripFrom(text, i, m) == piece + StripFrom(text, i + |piece|, next);
    if k >= i + |piece| { KeptOrBlank(text, i + |piece|, next, k); }
  }

  /** For every text and every nesting, stripping preserves the length and the position
      of every newline, and changes characters only into spaces. */
  lemma LengthAndLinesPreserved(text: string)
    ensures |Strip(text)| == |text|
    ensures forall k :: 0 <= k < |text| ==> Strip(text)[k] == text[k] || Strip(text)[k] == ' '
    ensures forall k :: 0 <= k < |text| ==> (Strip(text)[k] == '\n' <==> text[k] == '\n')
  {
    forall k | 0 <= k < |text|
      ensures Strip(text)[k] == text[k] || Strip(text)[k] == ' '
      ensures Strip(text)[k] == '\n' <==> text[k] == '\n'
    {
      KeptOrBlank(text, 0, Start, k);
    }
  }

  // ----- stripping twice ------------------------------------------------------

  predicate IsBlank(c: char) {
    c == ' ' || c == '\n'
  }

  lemma BlankTurn(out: string, i: nat)
    requires i < |out| && IsBlank(out[i])
    ensures StripFrom(out, i, Start) == out[i..i + 1] + StripFrom(out, i + 1, Start)
  {
    assert out[i..i + 1] == [out[i]];
    assert Emit(out, i, Start) == (out[i..i + 1], Start);
  }

  /** Outside comments and strings, blanks are copied. */
  lemma {:induction false} BlanksAreCopied(out: string, i: nat, j: nat)
    requires i <= j <= |out| && forall k :: i <= k < j ==> IsBlank(out[k])
    ensures StripFrom(out, i, Start) == out[i..j] + StripFrom(out, j, Start)
    decreases j - i
  {
    if i < j {
      BlanksAreCopied(out, i + 1, j);
      BlankTurn(out, i);
      JoinCopied(out, i, i + 1, j, StripFrom(out, i, Start), StripFrom(out, i + 1, Start), StripFrom(out, j, Start));
    } else {
      assert out[i..j] == [];
    }
  }

  lemma BlankPieceIsCopied(out: string, i: nat, piece: string)
    requires i + |piece| <= |out| && out[i..i + |piece|] == piece
    requires forall k :: 0 <= k < |piece| ==> IsBlank(piece[k])
    ensures StripFrom(out, i, Start) == piece + StripFrom(out, i + |piece|, Start)
  {
    forall k | i <= k < i + |piece| ensures IsBlank(out[k]) {
      assert out[k] == out[i..i + |piece|][k - i];
    }
    BlanksAreCopied(out, i, i + |piece|);
  }

  /** `out` agrees with what stripping `text` from `i` on produces. */
  predicate IsOutputFrom(text: string, out: string, i: nat, m: Mode) {
    && i <= |text| == |out|
    && out[i..] == StripFrom(text, i, m)
    && (m.depth > 0 ==> !m.inString)
    && (m.depth == 0 && 0 < i < |text| && text[i] == '"' ==> (text[i - 1] == '\\' <==> out[i - 1] == '\\'))
  }

  lemma OutputContinues(text: string, out: string, i: nat, m: Mode)
    requires IsOutputFrom(text, out, i, m) && i < |text|
    ensures var (piece, next) := Emit(text, i, m);
            out[i..i + |piece|] == piece && out[i + |piece|..] == StripFrom(text, i + |piece|, next)
  {
    var (piece, next) := Emit(text, i, m);
    assert out[i..] == piece + StripFrom(text, i + |piece|, next);
    assert out[i..i + |piece|] == out[i..][..|piece|] == piece;
    assert out[i + |piece|..] == out[i..][|piece|..];
  }

  /** A character the first pass copies is copied again. */
  lemma CopiedAgain(text: string, out: string, i: nat, m: Mode)
    requires IsOutputFrom(text, out, i, m) && i < |text| && m.depth == 0
    requires m.inString || !(PairAt(text, i, '/', '-') || PairAt(text, i, '-', '-'))
    ensures Emit(out, i, m) == Emit(text, i, m)
  {
    OutputContinues(text, out, i, m);
    assert out[i] == out[i..i + 1][0] == text[i];
    if i + 1 < |text| {
      KeptOrBlank(text, i, m, i + 1);
      assert out[i + 1] == out[i..][1];
    }
  }

  predicate Copied(text: string, i: nat, m: Mode) {
    m.depth == 0 && (m.inString || !(PairAt(text, i, '/', '-') || PairAt(text, i, '-', '-')))
  }

  lemma NextIsOutput(text: string, out: string, i: nat, m: Mode)
    requires IsOutputFrom(text, out, i, m) && i < |text|
    ensures var (piece, next) := Emit(text, i, m); IsOutputFrom(text, out, i + |piece|, next)
  {
    OutputContinues(text, out, i, m);
    var (piece, next) := Emit(text, i, m);
    assert out[i + |piece| - 1] == out[i..i + |piece|][|piece| - 1];
  }

  lemma TurnBlanks(text: string, i: nat, m: Mode)
    requires i < |text| && !Copied(text, i, m) && (m.depth > 0 ==> !m.inString)
    ensures var (piece, next) := Emit(text, i, m);
            !m.inString && !next.inString && forall k :: 0 <= k < |piece| ==> IsBlank(piece[k])
  {}

  lemma BlanksAgain(text: string, out: string, i: nat, m: Mode)
    requires IsOutputFrom(text, out, i, m) && i < |text| && !Copied(text, i, m)
    ensures var (piece, next) := Emit(text, i, m);
            StripFrom(out, i, Start) == piece + StripFrom(out, i + |piece|, Start)
  {
    var (piece, next) := Emit(text, i, m);
    OutputContinues(text, out, i, m);
    TurnBlanks(text, i, m);
    BlankPieceIsCopied(out, i, piece);
  }

  /** A second pass repeats one turn of the first. */
  lemma TurnAgain(text: string, out: string, i: nat, m: Mode)
    requires IsOutputFrom(text, out, i, m) && i < |text|
    ensures var (piece, next) := Emit(text, i, m);
            StripFrom(out, i, Mode(0, m.inString)) == piece + StripFrom(out, i + |piece|, Mode(0, next.inString))
  {
    if Copied(text, i, m) {
      CopiedAgain(text, out, i, m);
    } else {
      TurnBlanks(text, i, m);
      BlanksAgain(text, out, i, m);
    }
  }

  lemma StripsOneTurn(text: string, out: string, i: nat, m: Mode)
    requires IsOutputFrom(text, out, i, m) && i < |text|
    requires var (piece, next) := Emit(text, i, m);
             StripFrom(out, i + |piece|, Mode(0, next.inString)) == out[i + |piece|..]
    ensures StripFrom(out, i, Mode(0, m.inString)) == out[i..]
  {
    var (piece, next) := Emit(text, i, m);
    OutputContinues(text, out, i, m);
    TurnAgain(text, out, i, m);
    assert out[i..] == out[i..i + |piece|] + out[i + |piece|..];
  }

  lemma {:induction false} StripsToItself(text: string, out: string, i: nat, m: Mode)
    requires IsOutputFrom(text, out, i, m)
    ensures StripFrom(out, i, Mode(0, m.inString)) == out[i..]
    decreases |text| - i
  {
    if i < |text| {
      var (piece, next) := Emit(text, i, m);
      NextIsOutput(text, out, i, m);
      StripsToItself(text, out, i + |piece|, next);
      StripsOneTurn(text, out, i, m);
    }
  }

  /** Stripping is idempotent: what it leaves holds no comment any more. */
  lemma StrippingTwiceIsStrippingOnce(text: string)
    ensures Strip(Strip(text)) == Strip(text)
  {
    assert Strip(text)[0..] == Strip(text);
    StripsToItself(text, Strip(text), 0, Start);
  }

  // ----- the nesting counter against a recursive-descent reading ---------------

  /** `mark` stands at `i`. */
  predicate Stands(text: string, i: nat, mark: string) {
    i + |mark| <= |text| && text[i..i + |mark|] == mark
  }

  lemma PairStands(text: string, i: nat)
    ensures PairAt(text, i, '/', '-') <==> Stands(text, i, "/-")
    ensures PairAt(text, i, '-', '/') <==> Stands(text, i, "-/")
    ensures PairAt(text, i, '-', '-') <==> Stands(text, i, "--")
  {
    if i + 2 <= |text| { assert text[i..i + 2] == [text[i], text[i + 1]]; }
  }

  /** Where the block comment whose body goes on at `i` ends: nested comments are read
      whole, and an unclosed comment reaches the end of the text. */
  function CommentEnd(text: string, i: nat): (r: nat)
    requires i <= |text|
    ensures i <= r <= |text|
    decreases |text| - i
  {
    if i == |text| then i
    else if Stands(text, i, "/-") then CommentEnd(text, CommentEnd(text, i + 2))
    else if Stands(text, i, "-/") then i + 2
    else CommentEnd(text, i + 1)
  }

  /** Where the string that the loop is in at `i` ends, by the loop's own test for quotes,
      which looks back one character. */
  function StringEnd(text: string, i: nat): (r: nat)
    requires i <= |text|
    ensures i <= r <= |text| && (i < |text| ==> i < r)
    decreases |text| - i
  {
    if i == |text| then i
    else if TogglesString(text, i) then i + 1
    else StringEnd(text, i + 1)
  }

  function Blanked(s: string): (r: string)
    ensures |r| == |s|
  {
    seq(|s|, k requires 0 <= k < |s| => Blank(s[k]))
  }

  predicate StartsComment(text: string, i: nat) {
    Stands(text, i, "/-") || Stands(text, i, "--")
  }

  /** The comment at `i`, blanked, and where it ends. */
  function CommentToken(text: string, i: nat): (r: (string, nat))
    requires i < |text| && StartsComment(text, i)
    ensures i < r.1 <= |text|
  {
    var e := if Stands(text, i, "/-") then CommentEnd(text, i + 2) else LineEnd(text, i);
    (Blanked(text[i..e]), e)
  }

  /** The token that the loop cuts out at `i`, with comments blanked, and where it ends. */
  function Token(text: string, i: nat): (r: (string, nat))
    requires i < |text|
    ensures i < r.1 <= |text|
  {
    if StartsComment(text, i) then CommentToken(text, i)
    else if TogglesString(text, i) then
      var e := StringEnd(text, i + 1);
      (text[i..e], e)
    else
      ([text[i]], i + 1)
  }

  /** The text in the loop's tokens. */
  function ReadCode(text: string, i: nat): string
    requires i <= |text|
    decreases |text| - i
  {
    if i == |text| then []
    else
      var (shown, e) := Token(text, i);
      shown + ReadCode(text, e)
  }

  lemma BlankedSplits(text: string, i: nat, j: nat, k: nat)
    requires i <= j <= k <= |text|
    ensures Blanked(text[i..k]) == Blanked(text[i..j]) + Blanked(text[j..k])
  {}

  lemma TurnInside(text: string, i: nat, depth: nat)
    requires i < |text| && depth > 0
    ensures var (piece, next) := Emit(text, i, Mode(depth, false));
            && piece == Blanked(text[i..i + |piece|])
            && StripFrom(text, i, Mode(depth, false)) == piece + StripFrom(text, i + |piece|, next)
  {}

  lemma JoinBlanked(text: string, i: nat, j: nat, k: nat, a: string, b: string, rest: string)
    requires i <= j <= k <= |text|
    requires a == Blanked(text[i..j]) + b && b == Blanked(text[j..k]) + rest
    ensures a == Blanked(text[i..k]) + rest
  {
    BlankedSplits(text, i, j, k);
  }

  /** Where the next turn inside a comment leads, and how deep. */
  lemma TurnBlanksPair(text: string, i: nat, depth: nat)
    requires i < |text|
    ensures Stands(text, i, "/-") ==>
              StripFrom(text, i, Mode(depth + 1, false)) == Blanked(text[i..i + 2]) + StripFrom(text, i + 2, Mode(depth + 2, false))
    ensures Stands(text, i, "-/") && !Stands(text, i, "/-") ==>
              StripFrom(text, i, Mode(depth + 1, false)) == Blanked(text[i..i + 2]) + StripFrom(text, i + 2, Mode(depth, false))
    ensures !Stands(text, i, "-/") && !Stands(text, i, "/-") ==>
              StripFrom(text, i, Mode(depth + 1, false)) == Blanked(text[i..i + 1]) + StripFrom(text, i + 1, Mode(depth + 1, false))
  {
    PairStands(text, i);
    TurnInside(text, i, depth + 1);
  }

  /** What counting depth makes of the comment whose body goes on at `i`. */
  predicate BlanksComment(text: string, i: nat, depth: nat)
    requires i <= |text|
  {
    StripFrom(text, i, Mode(depth + 1, false))
    == Blanked(text[i..CommentEnd(text, i)]) + StripFrom(text, CommentEnd(text, i), Mode(depth, false))
  }

  lemma NestedIsBlanked(text: string, i: nat, depth: nat)
    requires i < |text| && Stands(text, i, "/-")
    requires BlanksComment(text, i + 2, depth + 1) && BlanksComment(text, CommentEnd(text, i + 2), depth)
    ensures BlanksComment(text, i, depth)
  {
    var before := StripFrom(text, i, Mode(depth + 1, false));
    var inner := CommentEnd(text, i + 2);
    var e := CommentEnd(text, inner);
    TurnBlanksPair(text, i, depth);
    JoinBlanked(text, i, i + 2, inner, before, StripFrom(text, i + 2, Mode(depth + 2, false)),
                StripFrom(text, inner, Mode(depth + 1, false)));
    JoinBlanked(text, i, inner, e, before, StripFrom(text, inner, Mode(depth + 1, false)),
                StripFrom(text, e, Mode(depth, false)));
  }

  lemma InnerIsBlanked(text: string, i: nat, depth: nat)
    requires i < |text| && !Stands(text, i, "/-") && !Stands(text, i, "-/") && BlanksComment(text, i + 1, depth)
    ensures BlanksComment(text, i, depth)
  {
    TurnBlanksPair(text, i, depth);
    JoinBlanked(text, i, i + 1, CommentEnd(text, i + 1), StripFrom(text, i, Mode(depth + 1, false)),
                StripFrom(text, i + 1, Mode(depth + 1, false)), StripFrom(text, CommentEnd(text, i + 1), Mode(depth, false)));
  }

  /** Counting depth blanks exactly the comment that recursive descent reads. */
  lemma {:induction false} CommentIsBlanked(text: string, i: nat, depth: nat)
    requires i <= |text|
    ensures StripFrom(text, i, Mode(depth + 1, false))
            == Blanked(text[i..CommentEnd(text, i)]) + StripFrom(text, CommentEnd(text, i), Mode(depth, false))
    decreases |text| - i
  {
    if i < |text| {
      if Stands(text, i, "/-") {
        CommentIsBlanked(text, i + 2, depth + 1);
        CommentIsBlanked(text, CommentEnd(text, i + 2), depth);
        NestedIsBlanked(text, i, depth);
      } else if Stands(text, i, "-/") {
        TurnBlanksPair(text, i, depth);
      } else {
        CommentIsBlanked(text, i + 1, depth);
        InnerIsBlanked(text, i, depth);
      }
    }
  }

  lemma QuotedTurn(text: string, i: nat)
    requires i < |text|
    ensures StripFrom(text, i, Mode(0, true)) == text[i..i + 1] + StripFrom(text, i + 1, Mode(0, !TogglesString(text, i)))
  {
    assert text[i..i + 1] == [text[i]];
    assert Emit(text, i, Mode(0, true)) == (text[i..i + 1], Mode(0, !TogglesString(text, i)));
  }

  lemma JoinCopied(text: string, i: nat, j: nat, k: nat, a: string, b: string, rest: string)
    requires i <= j <= k <= |text|
    requires a == text[i..j] + b && b == text[j..k] + rest
    ensures a == text[i..k] + rest
  {
    assert text[i..k] == text[i..j] + text[j..k];
  }

  lemma {:induction false} StringIsCopied(text: string, i: nat)
    requires i <= |text|
    ensures StripFrom(text, i, Mode(0, true)) == text[i..StringEnd(text, i)] + StripFrom(text, StringEnd(text, i), Start)
    decreases |text| - i
  {
    if i < |text| {
      QuotedTurn(text, i);
      if !TogglesString(text, i) {
        var e := StringEnd(text, i + 1);
        StringIsCopied(text, i + 1);
        JoinCopied(text, i, i + 1, e, StripFrom(text, i, Mode(0, true)), StripFrom(text, i + 1, Mode(0, true)),
                   StripFrom(text, e, Start));
      }
    }
  }

  lemma BlockCommentRead(text: string, i: nat)
    requires i < |text| && PairAt(text, i, '/', '-')
    ensures var e := CommentEnd(text, i + 2);
            StripFrom(text, i, Start) == Blanked(text[i..e]) + StripFrom(text, e, Start)
  {
    var e := CommentEnd(text, i + 2);
    CommentIsBlanked(text, i + 2, 0);
    assert StripFrom(text, i, Start) == "  " + StripFrom(text, i + 2, Mode(1, false));
    JoinBlanked(text, i, i + 2, e, StripFrom(text, i, Start), StripFrom(text, i + 2, Mode(1, false)),
                StripFrom(text, e, Start));
  }

  lemma LineCommentRead(text: string, i: nat)
    requires i < |text| && PairAt(text, i, '-', '-')
    ensures var e := LineEnd(text, i);
            StripFrom(text, i, Start) == Blanked(text[i..e]) + StripFrom(text, e, Start)
  {
    assert Spaces(LineEnd(text, i) - i) == Blanked(text[i..LineEnd(text, i)]);
  }

  lemma StringRead(text: string, i: nat)
    requires i < |text| && TogglesString(text, i)
    ensures var e := StringEnd(text, i + 1);
            StripFrom(text, i, Start) == text[i..e] + StripFrom(text, e, Start)
  {
    var e := StringEnd(text, i + 1);
    PairStands(text, i);
    StringIsCopied(text, i + 1);
    assert text[i..i + 1] == [text[i]];
    assert Emit(text, i, Start) == (text[i..i + 1], Mode(0, true));
    JoinCopied(text, i, i + 1, e, StripFrom(text, i, Start), StripFrom(text, i + 1, Mode(0, true)),
               StripFrom(text, e, Start));
  }

  lemma CommentRead(text: string, i: nat)
    requires i < |text| && StartsComment(text, i)
    ensures var (shown, e) := CommentToken(text, i);
            StripFrom(text, i, Start) == shown + StripFrom(text, e, Start)
  {
    PairStands(text, i);
    if Stands(text, i, "/-") { BlockCommentRead(text, i); } else { LineCommentRead(text, i); }
  }

  lemma CharacterRead(text: string, i: nat)
    requires i < |text| && !StartsComment(text, i) && !TogglesString(text, i)
    ensures StripFrom(text, i, Start) == [text[i]] + StripFrom(text, i + 1, Start)
  {
    PairStands(text, i);
    assert Emit(text, i, Start) == ([text[i]], Start);
  }

  lemma TokenRead(text: string, i: nat)
    requires i < |text|
    ensures var (shown, e) := Token(text, i);
            StripFrom(text, i, Start) == shown + StripFrom(text, e, Start)
  {
    if StartsComment(text, i) {
      CommentRead(text, i);
    } else if TogglesString(text, i) {
      StringRead(text, i);
    } else {
      CharacterRead(text, i);
    }
  }

  lemma {:induction false} StripReadsCode(text: string, i: nat)
    requires i <= |text|
    ensures StripFrom(text, i, Start) == ReadCode(text, i)
    decreases |text| - i
  {
    if i < |text| {
      TokenRead(text, i);
      StripReadsCode(text, Token(text, i).1);
    }
  }

  /** For every text, the loop blanks exactly the line comments and the nested block
      comments that stand outside what it takes for strings, and copies everything else. */
  lemma CommentsAndNothingElse(text: string)
    ensures Strip(text) == ReadCode(text, 0)
  {
    StripReadsCode(text, 0);
  }
}
