/** Rendering chat messages as plain text (extract_text_content and strip_info_messages in
    desktop/crates/goose-local-inference/src/lib.rs, 478-553). */
module ChatText {
  import opened Wrappers
  import opened Text
  import opened Sequences

  datatype Role = System | User | Assistant

  /** What one message holds. Of a tool request only its string arguments "command" and
      "code" matter, and a request that could not be read has neither. */
  datatype Content =
    | TextContent(text: string)
    | ToolRequest(command: Option<string>, code: Option<string>)
    | ToolOutput(texts: seq<string>)
    | ToolError(message: string)
    | Image(data: string)
    | OtherContent

  datatype Message = Message(role: Role, content: seq<Content>)

  // ----- searching, joining and trimming ------------------------------------------

  /** `split_once`. */
  function SplitOnce(s: string, pattern: string): (r: Option<(string, string)>)
    ensures r.Some? ==> s == r.value.0 + pattern + r.value.1
    ensures r.Some? <==> exists i: nat :: OccursAt(s, pattern, i)
  {
    match Find(s, pattern, 0, |s|)
    case None => None
    case Some(i) => Some((s[..i], s[i + |pattern|..]))
  }

  ghost predicate Contains(s: string, pattern: string) {
    exists i: nat :: OccursAt(s, pattern, i)
  }

  lemma SplitsAtFirst(s: string, pattern: string, i: nat)
    requires OccursAt(s, pattern, i) && forall j: nat :: j < i ==> !OccursAt(s, pattern, j)
    ensures SplitOnce(s, pattern) == Some((s[..i], s[i + |pattern|..]))
  {}

  /** `join("\n")`. */
  function Join(parts: seq<string>): string {
    if parts == [] then ""
    else if |parts| == 1 then parts[0]
    else parts[0] + "\n" + Join(parts[1..])
  }

  function DropLastSpaces(s: string): (r: string)
    ensures r <= s && AllWhitespace(s[|r|..])
    ensures r != [] ==> !IsWhitespace(r[|r| - 1])
  {
    if s != [] && IsWhitespace(s[|s| - 1]) then
      var r := DropLastSpaces(s[..|s| - 1]);
      assert s[|r|..] == s[..|s| - 1][|r|..] + [s[|s| - 1]];
      r
    else s
  }

  /** `trim`. */
  function Trim(s: string): string {
    DropLastSpaces(s[SkipWhitespace(s, 0)..])
  }

  lemma TrimKeeps(s: string)
    requires s != [] && !IsWhitespace(s[0]) && !IsWhitespace(s[|s| - 1])
    ensures Trim(s) == s
  {
    assert SkipWhitespace(s, 0) == 0;
    assert s[0..] == s;
  }

  lemma DropsEverything(s: string)
    ensures DropLastSpaces(s) == [] <==> AllWhitespace(s)
  {
    assert s[0..] == s;
  }

  /** Trimming leaves nothing exactly of blank text. */
  lemma TrimsToNothing(s: string)
    ensures Trim(s) == [] <==> AllWhitespace(s)
  {
    var lo := SkipWhitespace(s, 0);
    DropsEverything(s[lo..]);
    assert s[..lo] == s[0..lo];
    assert forall k :: 0 <= k < |s| ==> s[k] == if k < lo then s[0..lo][k] else s[lo..][k - lo];
  }

  predicate Blank(s: string) {
    Trim(s) == []
  }

  lemma DropLastExactly(s: string)
    ensures var r := DropLastSpaces(s); r == s[..|r|] && AllWhitespace(s[|r|..])
  {}

  /** Trimming takes off white space at both ends, and all of it. */
  lemma TrimsExactly(s: string) returns (lo: nat, hi: nat)
    ensures lo <= hi <= |s| && Trim(s) == s[lo..hi] && AllWhitespace(s[..lo]) && AllWhitespace(s[hi..])
    ensures Trim(s) != [] ==> !IsWhitespace(Trim(s)[0]) && !IsWhitespace(Trim(s)[|Trim(s)| - 1])
  {
    lo := SkipWhitespace(s, 0);
    DropLastExactly(s[lo..]);
    hi := lo + |Trim(s)|;
    assert s[0..lo] == s[..lo];
    assert s[lo..][..|Trim(s)|] == s[lo..hi];
    assert s[lo..][|Trim(s)|..] == s[hi..];
    if Trim(s) != [] { assert Trim(s)[0] == s[lo]; }
  }

  // ----- strip_info_messages ---------------------------------------------------------

  const InfoOpen := "<info-msg>"
  const InfoClose := "</info-msg>"

  /** What is left of `s` without its tagged stretches. */
  function WithoutTagged(s: string, open: string, close: string): string
    requires open != []
    decreases |s|
  {
    match SplitOnce(s, open)
    case None => s
    case Some(p) =>
      match SplitOnce(p.1, close)
      case None => p.0
      case Some(q) => p.0 + WithoutTagged(q.1, open, close)
  }

  function StripInfo(s: string): string {
    Trim(WithoutTagged(s, InfoOpen, InfoClose))
  }

  lemma WithoutTaggedUnfolds(s: string, open: string, close: string, output: string)
    requires open != [] && SplitOnce(s, open).Some?
    ensures var (before, after) := SplitOnce(s, open).value;
            match SplitOnce(after, close)
            case None => output + WithoutTagged(s, open, close) == output + before
            case Some(q) =>
              output + WithoutTagged(s, open, close) == (output + before) + WithoutTagged(q.1, open, close)
  {}

  /** The loop of 536-550. */
  method CopyUntagged(text: string, open: string, close: string) returns (output: string)
    requires open != []
    ensures output == WithoutTagged(text, open, close)
  {
    var remaining := text;
    output := "";
    while true
      invariant WithoutTagged(text, open, close) == output + WithoutTagged(remaining, open, close)
      decreases |remaining|
    {
      var split := SplitOnce(remaining, open);
      if split.None? {
        output := output + remaining;
        return;
      }
      var (before, afterStart) := split.value;
      var closing := SplitOnce(afterStart, close);
      WithoutTaggedUnfolds(remaining, open, close, output);
      output := output + before;
      if closing.None? { return; }
      remaining := closing.value.1;
    }
  }

  /** 536-553. */
  method StripInfoMessages(text: string) returns (r: string)
    ensures r == StripInfo(text)
  {
    var output := CopyUntagged(text, InfoOpen, InfoClose);
    r := Trim(output);
  }

  lemma NoInfoNoChange(s: string)
    requires s != [] && !IsWhitespace(s[0]) && !IsWhitespace(s[|s| - 1]) && !Contains(s, InfoOpen)
    ensures StripInfo(s) == s && !Blank(s)
  {
    TrimKeeps(s);
  }

  // ----- what stripping does ------------------------------------------------------------

  lemma FirstUnbordered(before: string, pattern: string, after: string)
    requires Unbordered(pattern) && !Contains(before, pattern)
    ensures SplitOnce(before + pattern + after, pattern) == Some((before, after))
  {
    var s := before + pattern + after;
    assert s[|before|..|before| + |pattern|] == pattern;
    forall j: nat | j < |before| ensures !OccursAt(s, pattern, j) {
      if OccursAt(s, pattern, j) {
        NoOverlap(s, pattern, j, |before|);
        assert s[j..j + |pattern|] == before[j..j + |pattern|];
        assert OccursAt(before, pattern, j);
      }
    }
    SplitsAtFirst(s, pattern, |before|);
    assert s[..|before|] == before && s[|before| + |pattern|..] == after;
  }

  lemma TagsUnbordered()
    ensures Unbordered(InfoOpen) && Unbordered(InfoClose)
  {
    forall d | 0 < d < |InfoOpen| ensures InfoOpen[d..] != InfoOpen[..|InfoOpen| - d] {
      assert InfoOpen[d..][0] == InfoOpen[d] && InfoOpen[..|InfoOpen| - d][0] == '<';
    }
    forall d | 0 < d < |InfoClose| ensures InfoClose[d..] != InfoClose[..|InfoClose| - d] {
      assert InfoClose[d..][0] == InfoClose[d] && InfoClose[..|InfoClose| - d][0] == '<';
    }
  }

  lemma TaggedIsDropped(open: string, close: string, kept: string, info: string, rest: string)
    requires Unbordered(open) && Unbordered(close) && !Contains(kept, open) && !Contains(info, close)
    ensures WithoutTagged(kept + open + (info + close + rest), open, close) == kept + WithoutTagged(rest, open, close)
  {
    FirstUnbordered(kept, open, info + close + rest);
    FirstUnbordered(info, close, rest);
  }

  lemma UnclosedIsDropped(open: string, close: string, kept: string, info: string)
    requires Unbordered(open) && !Contains(kept, open) && !Contains(info, close)
    ensures WithoutTagged(kept + open + info, open, close) == kept
  {
    FirstUnbordered(kept, open, info);
  }

  lemma UntaggedStays(open: string, close: string, text: string)
    requires open != [] && !Contains(text, open)
    ensures WithoutTagged(text, open, close) == text
  {}

  /** A text with a tagged stretch behind each of its pieces. */
  function Woven(kept: seq<string>, infos: seq<string>, last: string, open: string, close: string): string
    requires |kept| == |infos|
  {
    if kept == [] then last else kept[0] + open + (infos[0] + close + Woven(kept[1..], infos[1..], last, open, close))
  }

  function Concat(pieces: seq<string>): string {
    if pieces == [] then "" else pieces[0] + Concat(pieces[1..])
  }

  lemma OneMoreDropped(kept: string, info: string, rest: string, more: string, last: string, open: string, close: string)
    requires Unbordered(open) && Unbordered(close) && !Contains(kept, open) && !Contains(info, close)
    requires WithoutTagged(rest, open, close) == more + last
    ensures WithoutTagged(kept + open + (info + close + rest), open, close) == (kept + more) + last
  {
    TaggedIsDropped(open, close, kept, info, rest);
    assert kept + (more + last) == (kept + more) + last;
  }

  lemma {:induction false} TaggedAreDropped(kept: seq<string>, infos: seq<string>, last: string, open: string, close: string)
    requires |kept| == |infos| && Unbordered(open) && Unbordered(close) && !Contains(last, open)
    requires forall k :: k in kept ==> !Contains(k, open)
    requires forall m :: m in infos ==> !Contains(m, close)
    ensures WithoutTagged(Woven(kept, infos, last, open, close), open, close) == Concat(kept) + last
    decreases |kept|
  {
    if kept == [] {
      UntaggedStays(open, close, last);
    } else {
      TaggedAreDropped(kept[1..], infos[1..], last, open, close);
      OneMoreDropped(kept[0], infos[0], Woven(kept[1..], infos[1..], last, open, close), Concat(kept[1..]), last, open, close);
    }
  }

  /** Of a text with any number of info messages, what stands between them stays. */
  lemma InfoMessagesAreDropped(kept: seq<string>, infos: seq<string>, last: string)
    requires |kept| == |infos| && !Contains(last, "<info-msg>")
    requires forall k :: k in kept ==> !Contains(k, "<info-msg>")
    requires forall m :: m in infos ==> !Contains(m, "</info-msg>")
    ensures StripInfo(Woven(kept, infos, last, "<info-msg>", "</info-msg>")) == Trim(Concat(kept) + last)
  {
    TagsUnbordered();
    TaggedAreDropped(kept, infos, last, InfoOpen, InfoClose);
  }

  /** The text behind an info message that is not closed goes with it. */
  lemma UnclosedInfoIsDropped(kept: string, info: string)
    requires !Contains(kept, "<info-msg>") && !Contains(info, "</info-msg>")
    ensures StripInfo(kept + "<info-msg>" + info) == Trim(kept)
  {
    TagsUnbordered();
    UnclosedIsDropped(InfoOpen, InfoClose, kept, info);
  }

  // ----- extract_text_content ----------------------------------------------------------

  const ImageNote :=
    "[Image attached " + "\U{2014} image input is not supported with the currently selected model]"

  /** The text one content adds, if any. */
  function ContentText(c: Content): Option<string> {
    match c
    case TextContent(text) => if Blank(StripInfo(text)) then None else Some(StripInfo(text))
    case ToolRequest(Some(command), _) => Some("$ " + command)
    case ToolRequest(None, Some(code)) => Some("```execute_typescript\n" + code + "\n```")
    case ToolRequest(None, None) => None
    case ToolOutput(texts) => if texts == [] then None else Some("Command output:\n" + Join(texts))
    case ToolError(message) => Some("Command error: " + message)
    case Image(_) => Some(ImageNote)
    case OtherContent => None
  }

  lemma VisibleStart(first: string, rest: string)
    requires first != [] && !IsWhitespace(first[0])
    ensures !Blank(first + rest)
  {
    TrimsToNothing(first + rest);
    assert (first + rest)[0] == first[0];
  }

  lemma ContentTextIsNotBlank(c: Content)
    ensures ContentText(c).Some? ==> !Blank(ContentText(c).value)
  {
    match c
    case ToolRequest(Some(command), _) => VisibleStart("$ ", command);
    case ToolRequest(None, Some(code)) =>
      assert "```execute_typescript\n" + code + "\n```" == "```execute_typescript\n" + (code + "\n```");
      VisibleStart("```execute_typescript\n", code + "\n```");
    case ToolOutput(texts) => VisibleStart("Command output:\n", Join(texts));
    case ToolError(message) => VisibleStart("Command error: ", message);
    case Image(_) =>
      VisibleStart("[Image attached ", "\U{2014} image input is not supported with the currently selected model]");
    case _ =>
  }

  function AsList<T>(o: Option<T>): seq<T> {
    match o
    case None => []
    case Some(x) => [x]
  }

  function TextPieces(content: seq<Content>): (r: seq<seq<string>>)
    ensures |r| == |content|
  {
    seq(|content|, i requires 0 <= i < |content| => AsList(ContentText(content[i])))
  }

  function TextParts(content: seq<Content>): seq<string> {
    Flat(TextPieces(content))
  }

  /** 478-534. */
  method ExtractTextContent(msg: Message) returns (text: string)
    ensures text == Join(TextParts(msg.content))
  {
    var parts := [];
    for i := 0 to |msg.content|
      invariant parts == Flat(TextPieces(msg.content)[..i])
    {
      FlatNext(TextPieces(msg.content), i);
      match msg.content[i] {
        case TextContent(t) =>
          var stripped := StripInfoMessages(t);
          if !Blank(stripped) { parts := parts + [stripped]; }
        case ToolRequest(command, code) =>
          if command.Some? {
            parts := parts + ["$ " + command.value];
          } else if code.Some? {
            parts := parts + ["```execute_typescript\n" + code.value + "\n```"];
          }
        case ToolOutput(texts) =>
          if texts != [] { parts := parts + ["Command output:\n" + Join(texts)]; }
        case ToolError(message) => parts := parts + ["Command error: " + message];
        case Image(_) => parts := parts + [ImageNote];
        case OtherContent =>
      }
    }
    assert TextPieces(msg.content)[..|msg.content|] == TextPieces(msg.content);
    text := Join(parts);
  }

  /** A text is shown without its info messages and without outer white space, and left out
      if nothing else is in it. */
  lemma TextIsShownWithoutInfo(kept: seq<string>, infos: seq<string>, last: string)
    requires |kept| == |infos| && !Contains(last, "<info-msg>")
    requires forall k :: k in kept ==> !Contains(k, "<info-msg>")
    requires forall m :: m in infos ==> !Contains(m, "</info-msg>")
    ensures var shown := Trim(Concat(kept) + last);
            ContentText(TextContent(Woven(kept, infos, last, "<info-msg>", "</info-msg>")))
            == if AllWhitespace(shown) then None else Some(shown)
  {
    InfoMessagesAreDropped(kept, infos, last);
    TrimsToNothing(Trim(Concat(kept) + last));
  }

  // ----- the rendering can be read back -----------------------------------------------

  datatype Shown = Command(text: string) | Code(text: string) | Output(text: string) | Failure(text: string) | Unclear

  /** How the emulator's syntax reads. */
  function ReadShown(s: string): Shown {
    if "$ " <= s then Command(s[2..])
    else if "```execute_typescript\n" <= s && |s| >= 26 && s[|s| - 4..] == "\n```" then Code(s[22..|s| - 4])
    else if "Command output:\n" <= s then Output(s[16..])
    else if "Command error: " <= s then Failure(s[15..])
    else Unclear
  }

  /** A tool request or a tool's answer is rendered so that its kind and its text can be
      read back; a request for neither a command nor code, and an answer without text, are
      left out, and a command goes before code. */
  lemma RenderingReadsBack(c: Content)
    ensures match c
            case ToolRequest(Some(command), _) =>
              ContentText(c).Some? && ReadShown(ContentText(c).value) == Command(command)
            case ToolRequest(None, Some(code)) => ContentText(c).Some? && ReadShown(ContentText(c).value) == Code(code)
            case ToolRequest(None, None) => ContentText(c).None?
            case ToolOutput(texts) =>
              if texts == [] then ContentText(c).None?
              else ContentText(c).Some? && ReadShown(ContentText(c).value) == Output(Join(texts))
            case ToolError(message) => ContentText(c).Some? && ReadShown(ContentText(c).value) == Failure(message)
            case Image(_) => ContentText(c).Some? && "[Image attached" <= ContentText(c).value
            case TextContent(_) => true
            case OtherContent => ContentText(c).None?
  {
    match c
    case ToolRequest(Some(command), _) => PrefixReads("$ ", command);
    case ToolRequest(None, Some(code)) => CodeReads(code);
    case ToolOutput(texts) => PrefixReads("Command output:\n", Join(texts));
    case ToolError(message) =>
      PrefixReads("Command error: ", message);
      assert ("Command error: " + message)[8] == 'e' && "Command output:\n"[8] == 'o';
    case _ =>
  }

  lemma PrefixReads(first: string, rest: string)
    ensures first <= first + rest && (first + rest)[|first|..] == rest
    ensures first != [] ==> (first + rest)[0] == first[0]
  {}

  lemma CodeReads(code: string)
    ensures ReadShown("```execute_typescript\n" + code + "\n```") == Code(code)
  {
    var first := "```execute_typescript\n";
    var s := first + code + "\n```";
    assert s == first + (code + "\n```");
    PrefixReads(first, code + "\n```");
    assert s[0] == '`';
    assert |first| == 22 && s[|s| - 4..] == "\n```" && s[22..|s| - 4] == code;
  }
}
