/** Fencing code so that its contents cannot close the fence (`code_fence` in
    desktop/crates/goose-context-management/src/templates.rs, 34-47), against the reading
    of fenced code blocks in section 4.5 of CommonMark 0.31. */
module CodeFence {
  import opened Wrappers

  // ----- code_fence -----------------------------------------------------------

  /** `n` backticks stand at `i`. */
  predicate TicksAt(s: string, i: nat, n: nat) {
    i + n <= |s| && forall k :: i <= k < i + n ==> s[k] == '`'
  }

  /** The fold over the first `n` characters: longest run so far, run that ends here. */
  function Runs(code: string, n: nat): (nat, nat)
    requires n <= |code|
  {
    if n == 0 then (0, 0)
    else
      var (longest, run) := Runs(code, n - 1);
      if code[n - 1] == '`' then (if longest < run + 1 then run + 1 else longest, run + 1)
      else (longest, 0)
  }

  function Ticks(n: nat): (s: string)
    ensures |s| == n && TicksAt(s, 0, n)
  {
    seq(n, _ => '`')
  }

  function Fence(code: string): string {
    var longest := Runs(code, |code|).0;
    Ticks(if longest + 1 < 3 then 3 else longest + 1)
  }

  /** `trim_end_matches('\n')` */
  function WithoutTrailingNewlines(code: string): (r: string)
    ensures r <= code && (forall k :: |r| <= k < |code| ==> code[k] == '\n')
    ensures r != [] ==> r[|r| - 1] != '\n'
  {
    if code != [] && code[|code| - 1] == '\n' then WithoutTrailingNewlines(code[..|code| - 1]) else code
  }

  function FencedCode(code: string): string {
    Fence(code) + "\n" + WithoutTrailingNewlines(code) + "\n" + Fence(code)
  }

  /** The fold's two counters mean what they are named after. */
  ghost predicate Describes(code: string, n: nat, longest: nat, run: nat)
    requires n <= |code|
  {
    && run <= longest <= n && TicksAt(code, n - run, run) && (run < n ==> code[n - run - 1] != '`')
    && (exists i: nat :: i + longest <= n && TicksAt(code, i, longest))
    && (forall i: nat, k: nat :: i + k <= n && TicksAt(code, i, k) ==> k <= longest)
  }

  lemma DescribesNext(code: string, n: nat, longest: nat, run: nat)
    requires n < |code| && Describes(code, n, longest, run)
    ensures code[n] == '`' ==> Describes(code, n + 1, if longest < run + 1 then run + 1 else longest, run + 1)
    ensures code[n] != '`' ==> Describes(code, n + 1, longest, 0)
  {
    var next := if longest < run + 1 then run + 1 else longest;
    if code[n] == '`' {
      assert TicksAt(code, n - run, run + 1);
      forall i: nat, k: nat | i + k <= n + 1 && TicksAt(code, i, k)
        ensures k <= next
      {}
    } else {
      forall i: nat, k: nat | i + k <= n + 1 && TicksAt(code, i, k)
        ensures k <= longest
      {}
    }
  }

  lemma {:induction false} RunsDescribe(code: string, n: nat)
    requires n <= |code|
    ensures var (longest, run) := Runs(code, n); Describes(code, n, longest, run)
  {
    if n == 0 {
      assert TicksAt(code, 0, 0);
    } else {
      RunsDescribe(code, n - 1);
      var (longest, run) := Runs(code, n - 1);
      DescribesNext(code, n - 1, longest, run);
    }
  }

  ghost predicate HasRun(code: string, n: nat) {
    exists i: nat :: TicksAt(code, i, n)
  }

  ghost predicate RunsAreShorter(code: string, n: nat) {
    forall i: nat, k: nat :: TicksAt(code, i, k) ==> k < n
  }

  /** The fence is one tick longer than the longest run in the code, and at least three
      long: no run of ticks in the code is as long. */
  lemma FenceIsLonger(code: string)
    ensures |Fence(code)| >= 3
    ensures RunsAreShorter(code, |Fence(code)|)
    ensures |Fence(code)| > 3 ==> HasRun(code, |Fence(code)| - 1)
  {
    RunsDescribe(code, |code|);
  }

  // ----- reading a fenced block, CommonMark 0.31 sections 2.1 and 4.5 ------------

  predicate IsLineBreak(c: char) {
    c == '\n' || c == '\r'
  }

  /** Where the contents of the line that starts at `i` end. */
  function LineStop(text: string, i: nat): (r: nat)
    requires i <= |text|
    ensures i <= r <= |text| && (r < |text| ==> IsLineBreak(text[r]))
    ensures forall k :: i <= k < r ==> !IsLineBreak(text[k])
    decreases |text| - i
  {
    if i == |text| || IsLineBreak(text[i]) then i else LineStop(text, i + 1)
  }

  /** Where the next line starts: past "\n", "\r\n" or a lone "\r". */
  function NextLine(text: string, i: nat): (r: nat)
    requires i < |text|
    ensures i < r <= |text|
  {
    var e := LineStop(text, i);
    if e == |text| then e
    else if text[e] == '\r' && e + 1 < |text| && text[e + 1] == '\n' then e + 2
    else e + 1
  }

  /** The line that starts at `i` closes a fence of `n` ticks: up to three spaces, at
      least `n` ticks, then only spaces and tabs. */
  ghost predicate ClosesAt(text: string, i: nat, n: nat)
    requires i <= |text|
  {
    exists indent: nat, ticks: nat :: IsClosingLine(text, i, n, indent, ticks)
  }

  predicate IsClosingLine(text: string, i: nat, n: nat, indent: nat, ticks: nat)
    requires i <= |text|
  {
    var e := LineStop(text, i);
    && indent <= 3 && n <= ticks && i + indent + ticks <= e
    && (forall k :: i <= k < i + indent ==> text[k] == ' ')
    && TicksAt(text, i + indent, ticks)
    && (forall k :: i + indent + ticks <= k < e ==> text[k] == ' ' || text[k] == '\t')
  }

  /** The first closing line among the lines from `i` on. */
  ghost function FindClosing(text: string, i: nat, n: nat): (r: Option<nat>)
    requires i <= |text|
    ensures r.Some? ==> i <= r.value <= |text|
    decreases |text| - i
  {
    if i == |text| then None
    else if ClosesAt(text, i, n) then Some(i)
    else FindClosing(text, NextLine(text, i), n)
  }

  /** The lines in `text[lo..hi]` without the last line's ending. */
  function LinesBetween(text: string, lo: nat, hi: nat): string
    requires lo <= hi <= |text|
  {
    if lo == hi || !IsLineBreak(text[hi - 1]) then text[lo..hi]
    else if text[hi - 1] == '\n' && lo <= hi - 2 && text[hi - 2] == '\r' then text[lo..hi - 2]
    else text[lo..hi - 1]
  }

  /** How many ticks stand from `i` on. */
  function TickRun(text: string, i: nat): (r: nat)
    requires i <= |text|
    ensures TicksAt(text, i, r) && (i + r < |text| ==> text[i + r] != '`')
    decreases |text| - i
  {
    if i < |text| && text[i] == '`' then 1 + TickRun(text, i + 1) else 0
  }

  /** The code in a text that opens with an unindented fence of backticks. */
  ghost function ReadBlock(text: string): Option<string> {
    var n := TickRun(text, 0);
    if n < 3 || '`' in text[n..LineStop(text, n)] then None
    else
      var lo := NextLine(text, 0);
      match FindClosing(text, lo, n)
      case Some(hi) => Some(LinesBetween(text, lo, hi))
      case None => Some(LinesBetween(text, lo, |text|))
  }

  // ----- the block and its reading -----------------------------------------------

  /** `text` is a fenced body: `n` ticks, "\n", the body, "\n", `n` ticks. */
  predicate IsBlock(text: string, body: string, n: nat) {
    && |text| == n + 1 + |body| + 1 + n
    && TicksAt(text, 0, n) && text[n] == '\n'
    && text[n + 1..n + 1 + |body|] == body
    && text[n + 1 + |body|] == '\n' && TicksAt(text, n + |body| + 2, n)
  }

  lemma BlockParts(text: string, f: string, body: string)
    requires text == f + "\n" + body + "\n" + f
    ensures |text| == |f| + 1 + |body| + 1 + |f|
    ensures text[..|f|] == f && text[|f|] == '\n' && text[|f| + 1..|f| + 1 + |body|] == body
    ensures text[|f| + 1 + |body|] == '\n' && text[|f| + |body| + 2..] == f
  {}

  lemma TicksInSlice(text: string, i: nat, n: nat)
    requires i + n <= |text| && TicksAt(text[i..i + n], 0, n)
    ensures TicksAt(text, i, n)
  {
    forall k | i <= k < i + n ensures text[k] == '`' {
      assert text[k] == text[i..i + n][k - i];
    }
  }

  lemma FencedCodeIsBlock(code: string)
    ensures IsBlock(FencedCode(code), WithoutTrailingNewlines(code), |Fence(code)|)
    ensures FencedCode(code)[|FencedCode(code)| - |Fence(code)|..] == Fence(code)
  {
    var f, body, text := Fence(code), WithoutTrailingNewlines(code), FencedCode(code);
    BlockParts(text, f, body);
    assert text[0..0 + |f|] == f;
    TicksInSlice(text, 0, |f|);
    assert text[|f| + |body| + 2..|f| + |body| + 2 + |f|] == f;
    TicksInSlice(text, |f| + |body| + 2, |f|);
  }

  /** No line of the body closes, and the lines after it reach the last fence exactly. */
  lemma BodyLineGoesOn(text: string, body: string, n: nat, i: nat)
    requires n >= 1 && IsBlock(text, body, n) && n < i < n + |body| + 2
    requires RunsAreShorter(body, n)
    ensures !ClosesAt(text, i, n) && NextLine(text, i) <= n + |body| + 2
  {
    var e := LineStop(text, i);
    assert e <= n + 1 + |body|;
    forall indent: nat, ticks: nat | IsClosingLine(text, i, n, indent, ticks)
      ensures false
    {
      var j := i + indent - (n + 1);
      forall k | j <= k < j + ticks ensures body[k] == '`' {
        assert body[k] == text[n + 1..n + 1 + |body|][k] == text[n + 1 + k];
      }
      assert TicksAt(body, j, ticks);
    }
  }

  lemma LastLineCloses(text: string, body: string, n: nat)
    requires IsBlock(text, body, n)
    ensures ClosesAt(text, n + |body| + 2, n)
  {
    var i := n + |body| + 2;
    assert forall k :: i <= k < |text| ==> text[k] == '`';
    assert LineStop(text, i) == |text|;
    assert IsClosingLine(text, i, n, 0, n);
  }

  lemma {:induction false} ClosingIsLast(text: string, body: string, n: nat, i: nat)
    requires n >= 1 && IsBlock(text, body, n) && n < i <= n + |body| + 2
    requires RunsAreShorter(body, n)
    ensures FindClosing(text, i, n) == Some(n + |body| + 2)
    decreases |text| - i
  {
    if i == n + |body| + 2 {
      LastLineCloses(text, body, n);
    } else {
      BodyLineGoesOn(text, body, n, i);
      ClosingIsLast(text, body, n, NextLine(text, i));
    }
  }

  lemma TicksInBody(code: string)
    ensures RunsAreShorter(WithoutTrailingNewlines(code), |Fence(code)|)
  {
    FenceIsLonger(code);
    var body := WithoutTrailingNewlines(code);
    forall j: nat, k: nat | TicksAt(body, j, k) ensures k < |Fence(code)| {
      assert TicksAt(code, j, k);
    }
  }

  lemma BlockCloses(text: string, body: string, n: nat)
    requires n >= 1 && IsBlock(text, body, n) && RunsAreShorter(body, n)
    ensures FindClosing(text, n + 1, n) == Some(|text| - n)
  {
    ClosingIsLast(text, body, n, n + 1);
  }

  lemma FencedFacts(code: string)
    ensures var text, body, n := FencedCode(code), WithoutTrailingNewlines(code), |Fence(code)|;
            n >= 3 && IsBlock(text, body, n) && RunsAreShorter(body, n) && text[|text| - n..] == Fence(code)
  {
    FencedCodeIsBlock(code);
    FenceIsLonger(code);
    TicksInBody(code);
  }

  /** The first line after the opening fence that closes it. */
  ghost function ClosingLine(text: string, n: nat): Option<nat>
    requires n + 1 <= |text|
  {
    FindClosing(text, n + 1, n)
  }

  lemma BlockClosesLast(text: string, body: string, n: nat)
    requires n >= 3 && IsBlock(text, body, n) && RunsAreShorter(body, n)
    ensures ClosingLine(text, n) == Some(|text| - n)
  {
    BlockCloses(text, body, n);
  }

  /** For every code, the first line that closes the block is its last line, the fence
      that `code_fence` wrote there. */
  lemma OnlyLastLineCloses(code: string)
    ensures var text, n := FencedCode(code), |Fence(code)|;
            n + 1 <= |text| && ClosingLine(text, n) == Some(|text| - n) && text[|text| - n..] == Fence(code)
  {
    FencedFacts(code);
    BlockClosesLast(FencedCode(code), WithoutTrailingNewlines(code), |Fence(code)|);
  }

  lemma OpeningLine(text: string, body: string, n: nat)
    requires IsBlock(text, body, n)
    ensures TickRun(text, 0) == n && LineStop(text, n) == n && NextLine(text, 0) == n + 1
  {
    assert LineStop(text, 0) == n;
  }

  function WithoutCarriageReturn(s: string): string {
    if s != [] && s[|s| - 1] == '\r' then s[..|s| - 1] else s
  }

  lemma BodyLines(text: string, body: string, n: nat)
    requires IsBlock(text, body, n)
    ensures LinesBetween(text, n + 1, n + |body| + 2) == WithoutCarriageReturn(body)
  {
    if body != [] {
      assert body[|body| - 1] == text[n + 1..n + 1 + |body|][|body| - 1] == text[n + |body|];
      assert text[n + 1..n + |body|] == text[n + 1..n + 1 + |body|][..|body| - 1];
    }
  }

  lemma BlockReads(text: string, body: string, n: nat)
    requires n >= 3 && IsBlock(text, body, n) && RunsAreShorter(body, n)
    ensures ReadBlock(text) == Some(WithoutCarriageReturn(body))
  {
    OpeningLine(text, body, n);
    ClosingIsLast(text, body, n, n + 1);
    BodyLines(text, body, n);
  }

  /** What a reader of the block sees, for every code. */
  lemma ReadBack(code: string)
    ensures ReadBlock(FencedCode(code)) == Some(WithoutCarriageReturn(WithoutTrailingNewlines(code)))
  {
    FencedFacts(code);
    BlockReads(FencedCode(code), WithoutTrailingNewlines(code), |Fence(code)|);
  }

  /** Reading back gives the code without its trailing newlines exactly when no carriage
      return stands before them: one would become part of the last line's ending. */
  lemma ReadBackIsCode(code: string)
    ensures ReadBlock(FencedCode(code)) == Some(WithoutTrailingNewlines(code))
            <==> !LosesCarriageReturn(code)
  {
    ReadBack(code);
    CarriageReturnStandsLast(code);
  }

  /** Only newlines follow the last carriage return. */
  ghost predicate LosesCarriageReturn(code: string) {
    exists k: nat :: k < |code| && code[k] == '\r' && forall j :: k < j < |code| ==> code[j] == '\n'
  }

  lemma CarriageReturnStandsLast(code: string)
    ensures var body := WithoutTrailingNewlines(code);
            LosesCarriageReturn(code) <==> body != [] && body[|body| - 1] == '\r'
  {
    var body := WithoutTrailingNewlines(code);
    if body != [] && body[|body| - 1] == '\r' {
      var k := |body| - 1;
      assert code[k] == '\r' && forall j :: k < j < |code| ==> code[j] == '\n';
    }
  }

  lemma CarriageReturnIsLost()
    ensures ReadBlock(FencedCode("a\r\n")) == Some("a")
  {
    var code := "a\r\n";
    ReadBack(code);
    var body := WithoutTrailingNewlines(code);
    assert code[1] == '\r' && code[2] == '\n';
    assert body == code[..2];
    assert WithoutCarriageReturn(body) == "a";
  }
}
