/** Image markers in the local chat: images are taken out of the messages and stand-in
    markers put in their place (desktop/crates/goose-local-inference/src/multimodal.rs,
    85-117), the messages are rendered as text, and the markers in the text become media
    parts again (desktop/crates/goose-local-inference/src/lib.rs, 354-438). */
module MediaMarkers {
  import opened Wrappers
  import opened Sequences
  import opened ChatText

  type Bytes = seq<bv8>

  /** Base64 decoding. */
  type Decoder = string -> Option<Bytes>

  datatype Part = TextPart(text: string) | MarkerPart(marker: string) | OtherPart

  datatype Body = Plain(text: string) | Parts(parts: seq<Part>)

  datatype ChatMessage = ChatMessage(role: Role, body: Body)

  // ----- extract_images_from_messages -------------------------------------------------

  const DecodeNote := "[Image attached " + "\U{2014} failed to decode image data]"

  function Replaced(c: Content, marker: string, decode: Decoder): Content {
    match c
    case Image(data) => TextContent(if decode(data).Some? then marker else DecodeNote)
    case _ => c
  }

  function ImageOf(c: Content, decode: Decoder): seq<Bytes> {
    match c
    case Image(data) => AsList(decode(data))
    case _ => []
  }

  function ReplacedContents(content: seq<Content>, marker: string, decode: Decoder): (r: seq<Content>)
    ensures |r| == |content|
  {
    seq(|content|, i requires 0 <= i < |content| => Replaced(content[i], marker, decode))
  }

  function ReplacedMessages(messages: seq<Message>, marker: string, decode: Decoder): (r: seq<Message>)
    ensures |r| == |messages|
  {
    seq(|messages|, i requires 0 <= i < |messages| =>
      messages[i].(content := ReplacedContents(messages[i].content, marker, decode)))
  }

  function ImagePieces(content: seq<Content>, decode: Decoder): (r: seq<seq<Bytes>>)
    ensures |r| == |content|
  {
    seq(|content|, i requires 0 <= i < |content| => ImageOf(content[i], decode))
  }

  function ImagesIn(content: seq<Content>, decode: Decoder): seq<Bytes> {
    Flat(ImagePieces(content, decode))
  }

  function ImagesByMessage(messages: seq<Message>, decode: Decoder): (r: seq<seq<Bytes>>)
    ensures |r| == |messages|
  {
    seq(|messages|, i requires 0 <= i < |messages| => ImagesIn(messages[i].content, decode))
  }

  function AllImages(messages: seq<Message>, decode: Decoder): seq<Bytes> {
    Flat(ImagesByMessage(messages, decode))
  }

  /** 95-107: what a content becomes, and its image if it had one. */
  method ExtractFromContent(c: Content, marker: string, decode: Decoder) returns (image: Option<Bytes>, newContent: Content)
    ensures AsList(image) == ImageOf(c, decode) && newContent == Replaced(c, marker, decode)
  {
    match c {
      case Image(data) =>
        image := decode(data);
        newContent := TextContent(if image.Some? then marker else DecodeNote);
      case other =>
        image, newContent := None, other;
    }
  }

  /** The inner loop, 94-108. */
  method ExtractFromMessage(msg: Message, marker: string, decode: Decoder, before: seq<Bytes>)
    returns (images: seq<Bytes>, newContent: seq<Content>)
    ensures images == before + ImagesIn(msg.content, decode)
    ensures newContent == ReplacedContents(msg.content, marker, decode)
  {
    ghost var pieces := ImagePieces(msg.content, decode);
    ghost var replacements := ReplacedContents(msg.content, marker, decode);
    images, newContent := before, [];
    for i := 0 to |msg.content|
      invariant images == before + Flat(pieces[..i])
      invariant newContent == replacements[..i]
    {
      FlatNextAfter(before, pieces, i);
      var image, replaced := ExtractFromContent(msg.content[i], marker, decode);
      ghost var soFar := images;
      if image.Some? { images := images + [image.value]; }
      assert images == soFar + AsList(image);
      newContent := newContent + [replaced];
    }
    assert pieces[..|msg.content|] == pieces;
  }

  /** 85-117. */
  method ExtractImages(messages: seq<Message>, marker: string, decode: Decoder)
    returns (images: seq<Bytes>, newMessages: seq<Message>)
    ensures images == AllImages(messages, decode)
    ensures newMessages == ReplacedMessages(messages, marker, decode)
  {
    images, newMessages := [], [];
    for i := 0 to |messages|
      invariant images == Flat(ImagesByMessage(messages, decode)[..i])
      invariant newMessages == ReplacedMessages(messages, marker, decode)[..i]
    {
      FlatNext(ImagesByMessage(messages, decode), i);
      var newContent;
      images, newContent := ExtractFromMessage(messages[i], marker, decode, images);
      newMessages := newMessages + [messages[i].(content := newContent)];
    }
    assert ImagesByMessage(messages, decode)[..|messages|] == ImagesByMessage(messages, decode);
  }

  // ----- split_media_marker_text ---------------------------------------------------------

  /** `strip_suffix('\n').unwrap_or(before)` */
  function WithoutLastNewline(s: string): string {
    if s != [] && s[|s| - 1] == '\n' then s[..|s| - 1] else s
  }

  /** `strip_prefix('\n').unwrap_or(rest)` */
  function WithoutFirstNewline(s: string): (r: string)
    ensures |r| <= |s|
  {
    if s != [] && s[0] == '\n' then s[1..] else s
  }

  function TextIfAny(s: string): seq<Part> {
    if s == [] then [] else [TextPart(s)]
  }

  /** The parts between, and instead of, the markers in `text`. */
  function Split(text: string, marker: string): seq<Part>
    requires marker != []
    decreases |text|
  {
    match SplitOnce(text, marker)
    case None => TextIfAny(text)
    case Some(p) =>
      TextIfAny(WithoutLastNewline(p.0)) + [MarkerPart(marker)] + Split(WithoutFirstNewline(p.1), marker)
  }

  lemma SplitEnds(text: string, marker: string, before: seq<Part>)
    requires marker != [] && SplitOnce(text, marker).None?
    ensures before + Split(text, marker) == before + TextIfAny(text)
  {}

  lemma SplitUnfolds(text: string, marker: string, before: seq<Part>)
    requires marker != [] && SplitOnce(text, marker).Some?
    ensures var p := SplitOnce(text, marker).value;
            before + Split(text, marker)
            == (before + TextIfAny(WithoutLastNewline(p.0)) + [MarkerPart(marker)]) + Split(WithoutFirstNewline(p.1), marker)
  {}

  /** One turn of the loop, 421-430: the parts with the next marker's added, and what
      follows it. */
  method TakeMarker(text: string, marker: string, before: seq<Part>)
    returns (parts: seq<Part>, rest: Option<string>)
    requires marker != []
    ensures rest.Some? <==> SplitOnce(text, marker).Some?
    ensures rest.None? ==> parts == before
    ensures rest.Some? ==> |rest.value| < |text|
                           && before + Split(text, marker) == parts + Split(rest.value, marker)
  {
    parts, rest := before, None;
    var split := SplitOnce(text, marker);
    if split.Some? {
      SplitUnfolds(text, marker, before);
      var words := WithoutLastNewline(split.value.0);
      if words != [] { parts := parts + [TextPart(words)]; }
      assert parts == before + TextIfAny(words);
      parts := parts + [MarkerPart(marker)];
      rest := Some(WithoutFirstNewline(split.value.1));
    }
  }

  /** 417-438. */
  method SplitMediaMarkerText(text: string, marker: string) returns (r: Option<seq<Part>>)
    requires marker != []
    ensures r == if SplitOnce(text, marker).None? then None else Some(Split(text, marker))
  {
    var parts, rest, foundMarker := [], text, false;
    while true
      invariant Split(text, marker) == parts + Split(rest, marker)
      invariant foundMarker ==> SplitOnce(text, marker).Some?
      invariant !foundMarker ==> rest == text
      decreases |rest|
    {
      var after;
      parts, after := TakeMarker(rest, marker, parts);
      if after.None? { break; }
      rest, foundMarker := after.value, true;
    }
    if !foundMarker { return None; }
    SplitEnds(rest, marker, parts);
    ghost var whole := parts + TextIfAny(rest);
    if rest != [] { parts := parts + [TextPart(rest)]; }
    assert parts == whole;
    r := Some(parts);
  }

  // ----- convert_text_media_markers --------------------------------------------------------

  function ConvertedPart(part: Part, marker: string): seq<Part>
    requires marker != []
  {
    if part.TextPart? && SplitOnce(part.text, marker).Some? then Split(part.text, marker) else [part]
  }

  function ConvertedPieces(parts: seq<Part>, marker: string): (r: seq<seq<Part>>)
    requires marker != []
    ensures |r| == |parts|
  {
    seq(|parts|, i requires 0 <= i < |parts| => ConvertedPart(parts[i], marker))
  }

  function ConvertedBody(body: Body, marker: string): Body {
    if marker == [] then body
    else
      match body
      case Plain(text) => if SplitOnce(text, marker).Some? then Parts(Split(text, marker)) else body
      case Parts(parts) => Parts(Flat(ConvertedPieces(parts, marker)))
  }

  function Converted(m: ChatMessage, marker: string): ChatMessage {
    m.(body := ConvertedBody(m.body, marker))
  }

  function ConvertedAll(messages: seq<ChatMessage>, marker: string): (r: seq<ChatMessage>)
    ensures |r| == |messages|
  {
    seq(|messages|, i requires 0 <= i < |messages| => Converted(messages[i], marker))
  }

  /** 398-408: the parts that replace a text part holding a marker. */
  method ConvertPart(part: Part, marker: string) returns (r: Option<seq<Part>>)
    requires marker != []
    ensures ConvertedPart(part, marker) == if r.Some? then r.value else [part]
  {
    r := None;
    if part.TextPart? { r := SplitMediaMarkerText(part.text, marker); }
  }

  /** The loop over content parts, 397-413. */
  method ConvertParts(parts: seq<Part>, marker: string) returns (r: seq<Part>)
    requires marker != []
    ensures r == Flat(ConvertedPieces(parts, marker))
  {
    ghost var pieces := ConvertedPieces(parts, marker);
    var updated, changed := [], false;
    for i := 0 to |parts|
      invariant updated == Flat(pieces[..i])
      invariant !changed ==> updated == parts[..i]
    {
      FlatNext(pieces, i);
      var split := ConvertPart(parts[i], marker);
      if split.Some? {
        updated, changed := updated + split.value, true;
      } else {
        updated := updated + [parts[i]];
      }
    }
    assert pieces[..|parts|] == pieces;
    r := if changed then updated else parts;
  }

  /** 386-413: the content of one message. */
  method ConvertBody(body: Body, marker: string) returns (r: Body)
    requires marker != []
    ensures r == ConvertedBody(body, marker)
  {
    r := body;
    match body {
      case Plain(text) =>
        var parts := SplitMediaMarkerText(text, marker);
        if parts.Some? { r := Parts(parts.value); }
      case Parts(contentParts) =>
        var parts := ConvertParts(contentParts, marker);
        r := Parts(parts);
    }
  }

  /** 377-415. */
  method ConvertTextMediaMarkers(messages: array<ChatMessage>, marker: string)
    modifies messages
    ensures messages[..] == ConvertedAll(old(messages[..]), marker)
  {
    ghost var converted := ConvertedAll(messages[..], marker);
    if marker == [] { return; }
    for i := 0 to messages.Length
      invariant forall j :: 0 <= j < i ==> messages[j] == converted[j]
      invariant forall j :: i <= j < messages.Length ==> messages[j] == old(messages[j])
    {
      var body := ConvertBody(messages[i].body, marker);
      messages[i] := messages[i].(body := body);
    }
  }

  // ----- build_openai_text_messages_json ------------------------------------------------------

  function RenderedMessage(m: Message): seq<ChatMessage> {
    var text := Join(TextParts(m.content));
    if Blank(text) then [] else [ChatMessage(m.role, Plain(text))]
  }

  function RenderedPieces(messages: seq<Message>): (r: seq<seq<ChatMessage>>)
    ensures |r| == |messages|
  {
    seq(|messages|, i requires 0 <= i < |messages| => RenderedMessage(messages[i]))
  }

  function BuiltMessages(system: string, messages: seq<Message>, marker: Option<string>): seq<ChatMessage> {
    var plain := [ChatMessage(System, Plain(system))] + Flat(RenderedPieces(messages));
    if marker.Some? then ConvertedAll(plain, marker.value) else plain
  }

  /** 359-370. */
  method RenderMessages(system: string, messages: seq<Message>) returns (r: seq<ChatMessage>)
    ensures r == [ChatMessage(System, Plain(system))] + Flat(RenderedPieces(messages))
  {
    r := [ChatMessage(System, Plain(system))];
    for i := 0 to |messages|
      invariant r == [ChatMessage(System, Plain(system))] + Flat(RenderedPieces(messages)[..i])
    {
      FlatNext(RenderedPieces(messages), i);
      var text := ExtractTextContent(messages[i]);
      ghost var soFar := r;
      if !Blank(text) { r := r + [ChatMessage(messages[i].role, Plain(text))]; }
      assert r == soFar + RenderedMessage(messages[i]);
    }
    assert RenderedPieces(messages)[..|messages|] == RenderedPieces(messages);
  }

  /** 354-375. */
  method BuildTextMessages(system: string, messages: seq<Message>, marker: Option<string>)
    returns (r: seq<ChatMessage>)
    ensures r == BuiltMessages(system, messages, marker)
  {
    r := RenderMessages(system, messages);
    if marker.Some? {
      var arr := new ChatMessage[|r|](i requires 0 <= i < |r| => r[i]);
      ConvertTextMediaMarkers(arr, marker.value);
      r := arr[..];
    }
  }
}
