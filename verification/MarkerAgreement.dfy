/** The media parts of the built chat are the extracted images, in order: the round trip
    through marker text in MediaMarkers loses none and invents none. */
module MarkerAgreement {
  import opened Wrappers
  import opened Text
  import opened Sequences
  import opened ChatText
  import opened MediaMarkers

  /** What a reader is to see of a message: words, and pictures between them. */
  datatype View = Words(text: string) | Picture(bytes: Bytes)

  function WordsOf(text: Option<string>): seq<View> {
    match text
    case None => []
    case Some(t) => [Words(t)]
  }

  function ViewOf(c: Content, decode: Decoder): seq<View> {
    match c
    case Image(data) =>
      (match decode(data)
       case Some(bytes) => [Picture(bytes)]
       case None => WordsOf(ContentText(TextContent(DecodeNote))))
    case _ => WordsOf(ContentText(c))
  }

  function ViewPieces(content: seq<Content>, decode: Decoder): (r: seq<seq<View>>)
    ensures |r| == |content|
  {
    seq(|content|, i requires 0 <= i < |content| => ViewOf(content[i], decode))
  }

  function Views(content: seq<Content>, decode: Decoder): seq<View> {
    Flat(ViewPieces(content, decode))
  }

  function Rendered(v: View, marker: string): string {
    match v
    case Words(t) => t
    case Picture(_) => marker
  }

  function RenderedViews(views: seq<View>, marker: string): (r: seq<string>)
    ensures |r| == |views|
  {
    seq(|views|, i requires 0 <= i < |views| => Rendered(views[i], marker))
  }

  function PictureIn(v: View): seq<Bytes> {
    if v.Picture? then [v.bytes] else []
  }

  function Pictures(views: seq<View>): seq<Bytes> {
    Flat(PicturePieces(views))
  }

  function PicturePieces(views: seq<View>): (r: seq<seq<Bytes>>)
    ensures |r| == |views|
  {
    seq(|views|, i requires 0 <= i < |views| => PictureIn(views[i]))
  }

  function Joined(words: seq<string>): seq<View> {
    if words == [] then [] else [Words(Join(words))]
  }

  /** The views that follow the `words`, with neighbouring words joined into one text. */
  function Grouped(words: seq<string>, views: seq<View>): seq<View>
    decreases |views|
  {
    if views == [] then Joined(words)
    else if views[0].Words? then Grouped(words + [views[0].text], views[1..])
    else Joined(words) + [views[0]] + Grouped([], views[1..])
  }

  function PartOf(v: View, marker: string): Part {
    match v
    case Words(t) => TextPart(t)
    case Picture(_) => MarkerPart(marker)
  }

  function PartsOf(views: seq<View>, marker: string): (r: seq<Part>)
    ensures |r| == |views|
  {
    seq(|views|, i requires 0 <= i < |views| => PartOf(views[i], marker))
  }

  // ----- the conditions on the marker ------------------------------------------------

  /** The marker has no newline, no outer whitespace and no info tag. */
  ghost predicate MarkerFits(marker: string) {
    && marker != [] && '\n' !in marker
    && !IsWhitespace(marker[0]) && !IsWhitespace(marker[|marker| - 1])
    && !Contains(marker, InfoOpen)
  }

  /** Words are visible and do not contain the marker. */
  ghost predicate Clean(views: seq<View>, marker: string) {
    forall v :: v in views && v.Words? ==> !Blank(v.text) && !Contains(v.text, marker)
  }

  // ----- rendering the replaced messages -----------------------------------------------

  lemma ReplacedContentRenders(c: Content, marker: string, decode: Decoder)
    requires MarkerFits(marker)
    ensures AsList(ContentText(Replaced(c, marker, decode))) == RenderedViews(ViewOf(c, decode), marker)
  {
    NoInfoNoChange(marker);
  }

  lemma RenderedAdds(a: seq<View>, b: seq<View>, marker: string)
    ensures RenderedViews(a + b, marker) == RenderedViews(a, marker) + RenderedViews(b, marker)
  {}

  /** The replaced contents are rendered as what a reader is to see, markers for pictures. */
  lemma ReplacedRenders(content: seq<Content>, marker: string, decode: Decoder)
    requires MarkerFits(marker)
    ensures TextParts(ReplacedContents(content, marker, decode)) == RenderedViews(Views(content, decode), marker)
  {
    var texts := TextPieces(ReplacedContents(content, marker, decode));
    var f := (v: seq<View>) => RenderedViews(v, marker);
    forall a: seq<View>, b: seq<View> ensures f(a + b) == f(a) + f(b) { RenderedAdds(a, b, marker); }
    forall i | 0 <= i < |texts| ensures texts[i] == f(ViewPieces(content, decode)[i]) {
      ReplacedContentRenders(content[i], marker, decode);
    }
    FlatMaps(f, ViewPieces(content, decode), texts);
  }

  lemma PicturesAdd(a: seq<View>, b: seq<View>)
    ensures Pictures(a + b) == Pictures(a) + Pictures(b)
  {
    assert PicturePieces(a + b) == PicturePieces(a) + PicturePieces(b);
    FlatAdds(PicturePieces(a), PicturePieces(b));
  }

  lemma OnePicture(v: View)
    ensures Pictures([v]) == PictureIn(v)
  {
    assert PicturePieces([v]) == [PictureIn(v)];
    FlatOne(PictureIn(v));
  }

  lemma PicturesCons(views: seq<View>)
    requires views != []
    ensures Pictures(views) == PictureIn(views[0]) + Pictures(views[1..])
  {
    assert views == [views[0]] + views[1..];
    PicturesAdd([views[0]], views[1..]);
    OnePicture(views[0]);
  }

  lemma ViewPictures(c: Content, decode: Decoder)
    ensures Pictures(ViewOf(c, decode)) == ImageOf(c, decode)
  {
    var views := ViewOf(c, decode);
    if views != [] {
      assert views == [views[0]];
      OnePicture(views[0]);
    }
  }

  /** The pictures a reader is to see are the extracted images, in order. */
  lemma PicturesAreImages(content: seq<Content>, decode: Decoder)
    ensures Pictures(Views(content, decode)) == ImagesIn(content, decode)
  {
    var images := ImagePieces(content, decode);
    forall a: seq<View>, b: seq<View> ensures Pictures(a + b) == Pictures(a) + Pictures(b) { PicturesAdd(a, b); }
    forall i | 0 <= i < |images| ensures images[i] == Pictures(ViewPieces(content, decode)[i]) {
      ViewPictures(content[i], decode);
    }
    FlatMaps(Pictures, ViewPieces(content, decode), images);
  }

  // ----- markers in joined text -----------------------------------------------------------

  lemma OccursLeft(a: string, b: string, marker: string, i: nat)
    requires OccursAt(a + b, marker, i) && i + |marker| <= |a|
    ensures OccursAt(a, marker, i)
  {
    assert (a + b)[i..i + |marker|] == a[i..i + |marker|];
  }

  lemma OccursRight(a: string, b: string, marker: string, i: nat)
    requires OccursAt(a + b, marker, i) && |a| <= i
    ensures OccursAt(b, marker, i - |a|)
  {
    assert (a + b)[i..i + |marker|] == b[i - |a|..i - |a| + |marker|];
  }

  /** No occurrence reaches over a newline. */
  lemma StaysInLine(a: string, b: string, marker: string, i: nat)
    requires '\n' !in marker && OccursAt(a + "\n" + b, marker, i)
    ensures OccursAt(a, marker, i) || (i > |a| && OccursAt(b, marker, i - |a| - 1)) || marker == []
  {
    var s := a + "\n" + b;
    assert s[|a|] == '\n';
    assert forall j :: i <= j < i + |marker| ==> s[j] == s[i..i + |marker|][j - i];
    if i + |marker| <= |a| {
      assert s == a + ("\n" + b);
      OccursLeft(a, "\n" + b, marker, i);
    } else if i > |a| {
      OccursRight(a + "\n", b, marker, i);
    }
  }

  lemma {:induction false} JoinHasNoMarker(parts: seq<string>, marker: string)
    requires marker != [] && '\n' !in marker
    requires forall p :: p in parts ==> !Contains(p, marker)
    ensures !Contains(Join(parts), marker)
  {
    if |parts| == 1 {
      assert parts[0] in parts;
    } else if |parts| > 1 {
      assert parts[0] in parts;
      JoinHasNoMarker(parts[1..], marker);
      forall i: nat ensures !OccursAt(Join(parts), marker, i) {
        if OccursAt(Join(parts), marker, i) { StaysInLine(parts[0], Join(parts[1..]), marker, i); }
      }
    }
  }

  lemma {:induction false} JoinAdds(a: seq<string>, b: seq<string>)
    requires a != [] && b != []
    ensures Join(a + b) == Join(a) + "\n" + Join(b)
  {
    assert (a + b)[1..] == a[1..] + b;
    if |a| == 1 {
      assert a[1..] + b == b;
    } else {
      JoinAdds(a[1..], b);
      assert a[0] + "\n" + (Join(a[1..]) + "\n" + Join(b)) == (a[0] + "\n" + Join(a[1..])) + "\n" + Join(b);
    }
  }

  function BeforePicture(words: seq<string>): string {
    if words == [] then "" else Join(words) + "\n"
  }

  function AfterPicture(rest: seq<string>): string {
    if rest == [] then "" else "\n" + Join(rest)
  }

  lemma JoinAroundPicture(words: seq<string>, marker: string, rest: seq<string>)
    ensures Join(words + [marker] + rest) == BeforePicture(words) + marker + AfterPicture(rest)
  {
    var tail := [marker] + rest;
    assert words + [marker] + rest == words + tail;
    assert tail[1..] == rest;
    assert Join(tail) == marker + AfterPicture(rest);
    if words == [] {
      assert words + tail == tail;
    } else {
      JoinAdds(words, tail);
    }
  }

  /** Words without the marker are followed by the text's first marker. */
  lemma FirstMarker(words: seq<string>, marker: string, after: string)
    requires marker != [] && '\n' !in marker
    requires forall w :: w in words ==> !Contains(w, marker)
    ensures SplitOnce(BeforePicture(words) + marker + after, marker) == Some((BeforePicture(words), after))
  {
    var before := BeforePicture(words);
    var text := before + marker + after;
    assert text[|before|..|before| + |marker|] == marker;
    forall j: nat | j < |before| ensures !OccursAt(text, marker, j) {
      JoinHasNoMarker(words, marker);
      if OccursAt(text, marker, j) {
        assert text == Join(words) + "\n" + (marker + after);
        StaysInLine(Join(words), marker + after, marker, j);
      }
    }
    SplitsAtFirst(text, marker, |before|);
    assert text[..|before|] == before && text[|before| + |marker|..] == after;
  }

  // ----- splitting gives back what was rendered ---------------------------------------------

  lemma VisibleJoin(parts: seq<string>)
    requires parts != [] && !Blank(parts[0])
    ensures !Blank(Join(parts)) && Join(parts) != []
  {
    TrimsToNothing(parts[0]);
    TrimsToNothing(Join(parts));
    assert forall i :: 0 <= i < |parts[0]| ==> parts[0][i] == Join(parts)[i];
  }

  lemma WordsBeforePicture(words: seq<string>, marker: string)
    requires forall w :: w in words ==> !Blank(w)
    ensures TextIfAny(WithoutLastNewline(BeforePicture(words))) == PartsOf(Joined(words), marker)
  {
    assert WithoutLastNewline(BeforePicture(words)) == Join(words);
    if words != [] { VisibleJoin(words); }
  }

  lemma SplitAtPicture(words: seq<string>, marker: string, rest: seq<string>)
    requires marker != [] && '\n' !in marker
    requires forall w :: w in words ==> !Contains(w, marker) && !Blank(w)
    ensures var text := Join(words + [marker] + rest);
            && SplitOnce(text, marker).Some?
            && Split(text, marker)
               == PartsOf(Joined(words), marker) + [MarkerPart(marker)] + Split(Join(rest), marker)
  {
    JoinAroundPicture(words, marker, rest);
    FirstMarker(words, marker, AfterPicture(rest));
    WordsBeforePicture(words, marker);
    assert WithoutFirstNewline(AfterPicture(rest)) == Join(rest);
    SplitUnfolds(Join(words + [marker] + rest), marker, []);
  }

  lemma PartsAdd(a: seq<View>, b: seq<View>, marker: string)
    ensures PartsOf(a + b, marker) == PartsOf(a, marker) + PartsOf(b, marker)
  {}

  lemma GroupedUnfolds(words: seq<string>, views: seq<View>)
    requires views != []
    ensures Grouped(words, views)
            == if views[0].Words? then Grouped(words + [views[0].text], views[1..])
               else Joined(words) + [views[0]] + Grouped([], views[1..])
  {}

  lemma PartsAroundPicture(words: seq<string>, picture: View, rest: seq<View>, marker: string)
    requires picture.Picture?
    ensures PartsOf(Joined(words) + [picture] + rest, marker)
            == PartsOf(Joined(words), marker) + [MarkerPart(marker)] + PartsOf(rest, marker)
  {
    PartsAdd(Joined(words) + [picture], rest, marker);
    PartsAdd(Joined(words), [picture], marker);
  }

  lemma RenderedUnfolds(views: seq<View>, marker: string)
    requires views != []
    ensures RenderedViews(views, marker) == [Rendered(views[0], marker)] + RenderedViews(views[1..], marker)
  {}

  /** Splitting the rendered text at its markers gives the groups of words and, between
      them, one media part a picture. */
  lemma {:induction false} SplitGivesViews(words: seq<string>, views: seq<View>, marker: string)
    requires MarkerFits(marker) && Clean(views, marker)
    requires forall w :: w in words ==> !Contains(w, marker) && !Blank(w)
    ensures var text := Join(words + RenderedViews(views, marker));
            && Split(text, marker) == PartsOf(Grouped(words, views), marker)
            && (SplitOnce(text, marker).Some? <==> Pictures(views) != [])
    decreases |views|
  {
    if views == [] {
      assert words + RenderedViews(views, marker) == words;
      WordsOnly(words, marker);
    } else {
      GroupedUnfolds(words, views);
      PicturesCons(views);
      if views[0].Words? {
        assert views[0] in views;
        WordsJoin(words, views, marker);
        SplitGivesViews(words + [views[0].text], views[1..], marker);
      } else {
        SplitGivesViews([], views[1..], marker);
        SplitsAtPicture(words, views, marker);
        PartsAroundPicture(words, views[0], Grouped([], views[1..]), marker);
      }
    }
  }

  lemma WordsJoin(words: seq<string>, views: seq<View>, marker: string)
    requires views != [] && views[0].Words?
    ensures words + RenderedViews(views, marker) == (words + [views[0].text]) + RenderedViews(views[1..], marker)
  {
    RenderedUnfolds(views, marker);
    assert words + ([views[0].text] + RenderedViews(views[1..], marker))
           == (words + [views[0].text]) + RenderedViews(views[1..], marker);
  }

  lemma SplitsAtPicture(words: seq<string>, views: seq<View>, marker: string)
    requires views != [] && views[0].Picture? && marker != [] && '\n' !in marker
    requires forall w :: w in words ==> !Contains(w, marker) && !Blank(w)
    ensures var text := Join(words + RenderedViews(views, marker));
            && SplitOnce(text, marker).Some?
            && Split(text, marker)
               == PartsOf(Joined(words), marker) + [MarkerPart(marker)]
                  + Split(Join([] + RenderedViews(views[1..], marker)), marker)
  {
    var rest := RenderedViews(views[1..], marker);
    RenderedUnfolds(views, marker);
    assert words + ([marker] + rest) == words + [marker] + rest;
    assert [] + rest == rest;
    SplitAtPicture(words, marker, rest);
  }

  lemma WordsOnly(words: seq<string>, marker: string)
    requires marker != [] && '\n' !in marker
    requires forall w :: w in words ==> !Contains(w, marker) && !Blank(w)
    ensures SplitOnce(Join(words), marker).None?
    ensures Split(Join(words), marker) == PartsOf(Joined(words), marker)
  {
    JoinHasNoMarker(words, marker);
    SplitEnds(Join(words), marker, []);
    if words != [] { VisibleJoin(words); }
  }

  lemma {:induction false} GroupingKeepsPictures(words: seq<string>, views: seq<View>)
    ensures Pictures(Grouped(words, views)) == Pictures(views)
    decreases |views|
  {
    JoinedHasNoPicture(words);
    if views != [] {
      PicturesCons(views);
      match views[0]
      case Words(t) => GroupingKeepsPictures(words + [t], views[1..]);
      case Picture(_) =>
        GroupingKeepsPictures([], views[1..]);
        OnePicture(views[0]);
        PicturesAdd(Joined(words) + [views[0]], Grouped([], views[1..]));
        PicturesAdd(Joined(words), [views[0]]);
    }
  }

  lemma JoinedHasNoPicture(words: seq<string>)
    ensures Pictures(Joined(words)) == []
  {
    if words != [] { OnePicture(Words(Join(words))); }
  }

  // ----- the built chat ------------------------------------------------------------------

  /** How a message is to look: text, or, where pictures are, groups of text and media
      parts. A message with nothing to see is left out. */
  function ShownMessage(m: Message, marker: string, decode: Decoder): seq<ChatMessage> {
    var views := Views(m.content, decode);
    if views == [] then []
    else if Pictures(views) == [] then [ChatMessage(m.role, Plain(Join(RenderedViews(views, marker))))]
    else [ChatMessage(m.role, Parts(PartsOf(Grouped([], views), marker)))]
  }

  function ShownPieces(messages: seq<Message>, marker: string, decode: Decoder): (r: seq<seq<ChatMessage>>)
    ensures |r| == |messages|
  {
    seq(|messages|, i requires 0 <= i < |messages| => ShownMessage(messages[i], marker, decode))
  }

  /** No rendered text but the stand-ins contains the marker. */
  ghost predicate OnlyStandIns(system: string, messages: seq<Message>, marker: string, decode: Decoder) {
    && !Contains(system, marker)
    && forall m :: m in messages ==>
         forall v :: v in Views(m.content, decode) && v.Words? ==> !Contains(v.text, marker)
  }

  lemma WordsInView(c: Content, decode: Decoder, v: View)
    requires v in ViewOf(c, decode) && v.Words?
    ensures !Blank(v.text)
  {
    ContentTextIsNotBlank(c);
    ContentTextIsNotBlank(TextContent(DecodeNote));
  }

  lemma WordsAreVisible(content: seq<Content>, decode: Decoder, v: View)
    requires v in Views(content, decode) && v.Words?
    ensures !Blank(v.text)
  {
    InFlat(ViewPieces(content, decode), v);
    var i :| 0 <= i < |content| && v in ViewPieces(content, decode)[i];
    WordsInView(content[i], decode, v);
  }

  lemma ViewsAreClean(content: seq<Content>, marker: string, decode: Decoder)
    requires forall v :: v in Views(content, decode) && v.Words? ==> !Contains(v.text, marker)
    ensures Clean(Views(content, decode), marker)
  {
    forall v | v in Views(content, decode) && v.Words? ensures !Blank(v.text) {
      WordsAreVisible(content, decode, v);
    }
  }

  /** A message is left out exactly when there is nothing to see: never with a picture. */
  lemma BlankIffNothingToSee(views: seq<View>, marker: string)
    requires MarkerFits(marker) && Clean(views, marker)
    ensures Blank(Join(RenderedViews(views, marker))) <==> views == []
  {
    if views == [] {
      TrimsToNothing("");
    } else {
      NoInfoNoChange(marker);
      assert views[0] in views;
      VisibleJoin(RenderedViews(views, marker));
    }
  }

  lemma MessageIsShown(m: Message, marker: string, decode: Decoder)
    requires MarkerFits(marker) && Clean(Views(m.content, decode), marker)
    ensures var rendered := RenderedMessage(m.(content := ReplacedContents(m.content, marker, decode)));
            && ConvertedAll(rendered, marker) == ShownMessage(m, marker, decode)
            && (ImagesIn(m.content, decode) == [] ==> rendered == ShownMessage(m, marker, decode))
  {
    var views := Views(m.content, decode);
    ReplacedRenders(m.content, marker, decode);
    BlankIffNothingToSee(views, marker);
    PicturesAreImages(m.content, decode);
    assert [] + RenderedViews(views, marker) == RenderedViews(views, marker);
    SplitGivesViews([], views, marker);
  }

  lemma NoImagesAnywhere(messages: seq<Message>, decode: Decoder, i: nat)
    requires AllImages(messages, decode) == [] && i < |messages|
    ensures ImagesIn(messages[i].content, decode) == []
  {
    var pieces := ImagesByMessage(messages, decode);
    assert pieces == pieces[..i + 1] + pieces[i + 1..];
    FlatAdds(pieces[..i + 1], pieces[i + 1..]);
    FlatNext(pieces, i);
  }

  lemma ConvertedAdds(a: seq<ChatMessage>, b: seq<ChatMessage>, marker: string)
    ensures ConvertedAll(a + b, marker) == ConvertedAll(a, marker) + ConvertedAll(b, marker)
  {}

  lemma ConvertedPiecewise(rendered: seq<seq<ChatMessage>>, shown: seq<seq<ChatMessage>>, marker: string)
    requires |rendered| == |shown| && forall i :: 0 <= i < |rendered| ==> ConvertedAll(rendered[i], marker) == shown[i]
    ensures ConvertedAll(Flat(rendered), marker) == Flat(shown)
  {
    var f := (chat: seq<ChatMessage>) => ConvertedAll(chat, marker);
    forall a: seq<ChatMessage>, b: seq<ChatMessage> ensures f(a + b) == f(a) + f(b) { ConvertedAdds(a, b, marker); }
    FlatMaps(f, rendered, shown);
  }

  lemma SystemStaysPlain(system: string, chat: seq<ChatMessage>, marker: string)
    requires !Contains(system, marker)
    ensures var first := ChatMessage(System, Plain(system));
            ConvertedAll([first] + chat, marker) == [first] + ConvertedAll(chat, marker)
  {
    var first := ChatMessage(System, Plain(system));
    ConvertedAdds([first], chat, marker);
    assert Converted(first, marker) == first;
    assert ConvertedAll([first], marker) == [first];
  }

  /** The chat that is built from the extracted images and the replaced messages. */
  function BuiltChat(system: string, messages: seq<Message>, marker: string, decode: Decoder): seq<ChatMessage> {
    BuiltMessages(system, ReplacedMessages(messages, marker, decode),
                  if AllImages(messages, decode) == [] then None else Some(marker))
  }

  /** For every history, the built chat shows every message as it is to look. */
  lemma ChatShowsMessages(system: string, messages: seq<Message>, marker: string, decode: Decoder)
    requires MarkerFits(marker) && OnlyStandIns(system, messages, marker, decode)
    ensures BuiltChat(system, messages, marker, decode)
            == [ChatMessage(System, Plain(system))] + Flat(ShownPieces(messages, marker, decode))
  {
    var rendered := RenderedPieces(ReplacedMessages(messages, marker, decode));
    var shown := ShownPieces(messages, marker, decode);
    forall i | 0 <= i < |messages|
      ensures ConvertedAll(rendered[i], marker) == shown[i]
      ensures AllImages(messages, decode) == [] ==> rendered[i] == shown[i]
    {
      assert messages[i] in messages;
      ViewsAreClean(messages[i].content, marker, decode);
      MessageIsShown(messages[i], marker, decode);
      if AllImages(messages, decode) == [] { NoImagesAnywhere(messages, decode, i); }
    }
    if AllImages(messages, decode) == [] {
      assert rendered == shown;
    } else {
      ConvertedPiecewise(rendered, shown, marker);
      SystemStaysPlain(system, Flat(rendered), marker);
    }
  }

  // ----- counting --------------------------------------------------------------------------

  function MarkerOf(part: Part): seq<string> {
    if part.MarkerPart? then [part.marker] else []
  }

  function MarkersInParts(parts: seq<Part>): seq<string> {
    Flat(seq(|parts|, i requires 0 <= i < |parts| => MarkerOf(parts[i])))
  }

  function MarkersInMessage(m: ChatMessage): seq<string> {
    match m.body
    case Plain(_) => []
    case Parts(parts) => MarkersInParts(parts)
  }

  function MarkerPieces(chat: seq<ChatMessage>): (r: seq<seq<string>>)
    ensures |r| == |chat|
  {
    seq(|chat|, i requires 0 <= i < |chat| => MarkersInMessage(chat[i]))
  }

  /** The media parts of a chat. */
  function Markers(chat: seq<ChatMessage>): seq<string> {
    Flat(MarkerPieces(chat))
  }

  lemma MarkersAdd(a: seq<ChatMessage>, b: seq<ChatMessage>)
    ensures Markers(a + b) == Markers(a) + Markers(b)
  {
    assert MarkerPieces(a + b) == MarkerPieces(a) + MarkerPieces(b);
    FlatAdds(MarkerPieces(a), MarkerPieces(b));
  }

  lemma OneMessage(m: ChatMessage)
    ensures Markers([m]) == MarkersInMessage(m)
  {
    assert MarkerPieces([m]) == [MarkersInMessage(m)];
    FlatOne(MarkersInMessage(m));
  }

  lemma PartsHoldPictures(views: seq<View>, marker: string)
    ensures |MarkersInParts(PartsOf(views, marker))| == |Pictures(views)|
  {
    var parts := PartsOf(views, marker);
    FlatLengths(seq(|parts|, i requires 0 <= i < |parts| => MarkerOf(parts[i])), PicturePieces(views));
  }

  lemma MessageHoldsImages(m: Message, marker: string, decode: Decoder)
    ensures |Markers(ShownMessage(m, marker, decode))| == |ImagesIn(m.content, decode)|
  {
    var views := Views(m.content, decode);
    PicturesAreImages(m.content, decode);
    if views != [] {
      OneMessage(ShownMessage(m, marker, decode)[0]);
      GroupingKeepsPictures([], views);
      PartsHoldPictures(Grouped([], views), marker);
    }
  }

  lemma ShownHoldImages(messages: seq<Message>, marker: string, decode: Decoder)
    ensures |Markers(Flat(ShownPieces(messages, marker, decode)))| == |AllImages(messages, decode)|
  {
    var shown := ShownPieces(messages, marker, decode);
    var counted := seq(|shown|, i requires 0 <= i < |shown| => Markers(shown[i]));
    forall a: seq<ChatMessage>, b: seq<ChatMessage> ensures Markers(a + b) == Markers(a) + Markers(b) {
      MarkersAdd(a, b);
    }
    FlatMaps(Markers, shown, counted);
    forall i | 0 <= i < |shown| ensures |counted[i]| == |ImagesByMessage(messages, decode)[i]| {
      MessageHoldsImages(messages[i], marker, decode);
    }
    FlatLengths(counted, ImagesByMessage(messages, decode));
  }

  /** As many media parts as extracted images: in the whole chat and, by
      `MessageHoldsImages`, message by message. */
  lemma MarkersAreImages(system: string, messages: seq<Message>, marker: string, decode: Decoder)
    requires MarkerFits(marker) && OnlyStandIns(system, messages, marker, decode)
    ensures |Markers(BuiltChat(system, messages, marker, decode))| == |AllImages(messages, decode)|
  {
    ChatShowsMessages(system, messages, marker, decode);
    var first := ChatMessage(System, Plain(system));
    MarkersAdd([first], Flat(ShownPieces(messages, marker, decode)));
    OneMessage(first);
    ShownHoldImages(messages, marker, decode);
  }

  // ----- content parts, and no marker ----------------------------------------------------

  lemma PiecesAdd(a: seq<Part>, b: seq<Part>, marker: string)
    requires marker != []
    ensures ConvertedPieces(a + b, marker) == ConvertedPieces(a, marker) + ConvertedPieces(b, marker)
  {}

  /** Content parts are converted one by one, in place. */
  lemma PartsConvertInPlace(a: seq<Part>, b: seq<Part>, marker: string)
    requires marker != []
    ensures Flat(ConvertedPieces(a + b, marker)) == Flat(ConvertedPieces(a, marker)) + Flat(ConvertedPieces(b, marker))
  {
    PiecesAdd(a, b, marker);
    FlatAdds(ConvertedPieces(a, marker), ConvertedPieces(b, marker));
  }

  /** A text part becomes what the same text would as a whole message, if it contains the
      marker; any other part stays. */
  lemma PartConvertsAsText(part: Part, marker: string)
    requires marker != []
    ensures var body := ConvertedBody(Parts([part]), marker);
            if part.TextPart? && Contains(part.text, marker) then body == ConvertedBody(Plain(part.text), marker)
            else body == Parts([part])
  {
    assert ConvertedPieces([part], marker) == [ConvertedPart(part, marker)];
    FlatOne(ConvertedPart(part, marker));
  }

  /** Without a marker nothing is converted. */
  lemma NoMarkerNoChange(chat: seq<ChatMessage>)
    ensures ConvertedAll(chat, "") == chat
  {}

  /** An image that cannot be decoded is noted in its place. */
  lemma UndecodableImageIsNoted(data: string, marker: string, decode: Decoder)
    requires decode(data).None?
    ensures Replaced(Image(data), marker, decode) == TextContent("[Image attached " + "\U{2014} failed to decode image data]")
  {}
}
