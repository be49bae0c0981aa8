/** JSON documents together with one way of writing each of them down (RFC 8259): every
    choice of white space, of escapes, and of how a scalar is spelled. Two values that
    differ only in these choices are the same JSON value printed differently. */
module Json {
  import opened Wrappers
  import opened Text
  import opened Scanner

  /** RFC 8259, section 7. */
  datatype Piece = Plain(c: char) | Short(c: char) | Unicode(hex: string)

  datatype Value =
    | Scalar(text: string)
    | Str(pieces: seq<Piece>)
    | Arr(gap: string, items: seq<Item>)
    | Obj(gap: string, members: seq<Member>)

  datatype Item = Item(before: string, value: Value, after: string)

  datatype Member = Member(before: string, name: seq<Piece>, beforeColon: string, afterColon: string, value: Value, after: string)

  predicate IsJsonSpace(s: string) {
    forall i :: 0 <= i < |s| ==> s[i] == ' ' || s[i] == '\t' || s[i] == '\n' || s[i] == '\r'
  }

  predicate LegalPiece(p: Piece) {
    match p
    case Plain(c) => c as int >= 0x20 && c != '"' && c != '\\'
    case Short(c) => c == '"' || c == '\\' || c == '/' || c == 'b' || c == 'f' || c == 'n' || c == 'r' || c == 't'
    case Unicode(hex) => |hex| == 4 && forall i :: 0 <= i < 4 ==> IsHexDigit(hex[i])
  }

  predicate IsHexDigit(c: char) {
    '0' <= c <= '9' || 'a' <= c <= 'f' || 'A' <= c <= 'F'
  }

  predicate IsNumberChar(c: char) {
    '0' <= c <= '9' || c == '-' || c == '+' || c == '.' || c == 'e' || c == 'E'
  }

  /** A superset of the numbers of section 6, and the three literal names of section 3. */
  predicate LegalScalar(text: string) {
    text == "true" || text == "false" || text == "null" || forall i :: 0 <= i < |text| ==> IsNumberChar(text[i])
  }

  predicate LegalPieces(ps: seq<Piece>) {
    forall i :: 0 <= i < |ps| ==> LegalPiece(ps[i])
  }

  predicate Legal(v: Value) {
    match v
    case Scalar(text) => LegalScalar(text)
    case Str(pieces) => LegalPieces(pieces)
    case Arr(gap, items) =>
      IsJsonSpace(gap) && forall i :: 0 <= i < |items| ==>
        IsJsonSpace(items[i].before) && IsJsonSpace(items[i].after) && Legal(items[i].value)
    case Obj(gap, members) =>
      IsJsonSpace(gap) && forall i :: 0 <= i < |members| ==>
        && IsJsonSpace(members[i].before) && IsJsonSpace(members[i].beforeColon)
        && IsJsonSpace(members[i].afterColon) && IsJsonSpace(members[i].after)
        && LegalPieces(members[i].name) && Legal(members[i].value)
  }

  // ----- printing -------------------------------------------------------------

  function PrintPiece(p: Piece): string {
    match p
    case Plain(c) => [c]
    case Short(c) => ['\\', c]
    case Unicode(hex) => "\\u" + hex
  }

  function PrintPieces(ps: seq<Piece>): string {
    if ps == [] then [] else PrintPiece(ps[0]) + PrintPieces(ps[1..])
  }

  function PrintString(ps: seq<Piece>): string {
    ['"'] + PrintPieces(ps) + ['"']
  }

  function Print(v: Value): string
    decreases v, 1
  {
    match v
    case Scalar(text) => text
    case Str(pieces) => PrintString(pieces)
    case Arr(gap, items) => "[" + (if items == [] then gap else PrintItems(items)) + "]"
    case Obj(gap, members) => "{" + Inside(v) + "}"
  }

  function Inside(v: Value): string
    requires v.Obj?
    decreases v, 0
  {
    if v.members == [] then v.gap else PrintMembers(v.members)
  }

  function PrintItems(items: seq<Item>): string
    requires items != []
    decreases items
  {
    items[0].before + Print(items[0].value) + items[0].after
    + if |items| == 1 then [] else "," + PrintItems(items[1..])
  }

  function PrintMembers(members: seq<Member>): string
    requires members != []
    decreases members
  {
    members[0].before + PrintString(members[0].name) + members[0].beforeColon + ":" + members[0].afterColon
    + Print(members[0].value) + members[0].after
    + if |members| == 1 then [] else "," + PrintMembers(members[1..])
  }

  // ----- scanning what was printed --------------------------------------------

  /** At depth `d`, outside a string. */
  function Out(d: int): Scan {
    Scan(d, false, false)
  }

  function In(d: int): Scan {
    Scan(d, true, false)
  }

  /** Scanned from `s`, the text ends in `e` without anything closing on the way. */
  predicate Passes(s: Scan, text: string, e: Scan) {
    CloseAfter(s, text) == None && FeedAll(s, text) == e
  }

  /** Inside some brace, the text leaves the scanner as it found it. */
  ghost predicate Neutral(text: string) {
    forall d :: d >= 1 ==> Passes(Out(d), text, Out(d))
  }

  lemma PassesConcat(s: Scan, a: string, m: Scan, b: string, e: Scan)
    requires Passes(s, a, m) && Passes(m, b, e)
    ensures Passes(s, a + b, e)
  {
    CloseAfterConcat(s, a, b);
    FeedAllConcat(s, a, b);
  }

  lemma NeutralConcat(a: string, b: string)
    requires Neutral(a) && Neutral(b)
    ensures Neutral(a + b)
  {
    forall d | d >= 1
      ensures Passes(Out(d), a + b, Out(d))
    {
      PassesConcat(Out(d), a, Out(d), b, Out(d));
    }
  }

  lemma PassesOne(s: Scan, c: char)
    requires !Closed(Feed(s, c))
    ensures Passes(s, [c], Feed(s, c))
  {
    assert [c][1..] == [];
    assert CloseAfter(Feed(s, c), []) == None;
  }

  /** Text without quotes and braces changes nothing outside a string. */
  lemma {:induction false} PlainIsNeutral(text: string)
    requires forall i :: 0 <= i < |text| ==> text[i] != '"' && text[i] != '{' && text[i] != '}'
    ensures Neutral(text)
    decreases |text|
  {
    if text != [] {
      PlainIsNeutral(text[1..]);
      forall d | d >= 1
        ensures Passes(Out(d), [text[0]], Out(d))
      {
        PassesOne(Out(d), text[0]);
      }
      NeutralConcat([text[0]], text[1..]);
      assert text == [text[0]] + text[1..];
    }
  }

  lemma {:induction false} HexStaysInside(d: int, hex: string)
    requires forall i :: 0 <= i < |hex| ==> IsHexDigit(hex[i])
    ensures Passes(In(d), hex, In(d))
    decreases |hex|
  {
    if hex != [] {
      PassesOne(In(d), hex[0]);
      HexStaysInside(d, hex[1..]);
      PassesConcat(In(d), [hex[0]], In(d), hex[1..], In(d));
      assert hex == [hex[0]] + hex[1..];
    }
  }

  lemma EscapeStaysInside(d: int, c: char)
    ensures Passes(In(d), ['\\', c], In(d))
  {
    PassesOne(In(d), '\\');
    PassesOne(Scan(d, true, true), c);
    PassesConcat(In(d), ['\\'], Scan(d, true, true), [c], In(d));
    assert ['\\'] + [c] == ['\\', c];
  }

  /** No piece of a string ends the string. */
  lemma PieceStaysInside(d: int, p: Piece)
    requires LegalPiece(p)
    ensures Passes(In(d), PrintPiece(p), In(d))
  {
    match p
    case Plain(c) => PassesOne(In(d), c);
    case Short(c) => EscapeStaysInside(d, c);
    case Unicode(hex) =>
      EscapeStaysInside(d, 'u');
      HexStaysInside(d, hex);
      PassesConcat(In(d), "\\u", In(d), hex, In(d));
  }

  lemma {:induction false} PiecesStayInside(d: int, ps: seq<Piece>)
    requires LegalPieces(ps)
    ensures Passes(In(d), PrintPieces(ps), In(d))
    decreases |ps|
  {
    if ps != [] {
      PieceStaysInside(d, ps[0]);
      PiecesStayInside(d, ps[1..]);
      PassesConcat(In(d), PrintPiece(ps[0]), In(d), PrintPieces(ps[1..]), In(d));
    }
  }

  /** Whatever a string quotes, the scanner is back where it was after the closing quote. */
  lemma StringIsNeutral(ps: seq<Piece>)
    requires LegalPieces(ps)
    ensures Neutral(PrintString(ps))
  {
    forall d | d >= 1
      ensures Passes(Out(d), PrintString(ps), Out(d))
    {
      PassesOne(Out(d), '"');
      PiecesStayInside(d, ps);
      PassesOne(In(d), '"');
      PassesConcat(Out(d), ['"'], In(d), PrintPieces(ps), In(d));
      PassesConcat(Out(d), ['"'] + PrintPieces(ps), In(d), ['"'], Out(d));
    }
  }

  lemma {:induction false} ValueIsNeutral(v: Value)
    requires Legal(v)
    ensures Neutral(Print(v))
    decreases v, 1
  {
    match v
    case Scalar(text) => PlainIsNeutral(text);
    case Str(pieces) => StringIsNeutral(pieces);
    case Arr(gap, items) =>
      if items == [] { PlainIsNeutral(gap); } else { ItemsAreNeutral(items); }
      var inner := if items == [] then gap else PrintItems(items);
      PlainIsNeutral("[");
      PlainIsNeutral("]");
      NeutralConcat("[", inner);
      NeutralConcat("[" + inner, "]");
    case Obj(_, _) =>
      InsideIsNeutral(v);
      forall d | d >= 1
        ensures Passes(Out(d), Print(v), Out(d))
      {
        PassesOne(Out(d), '{');
        assert Passes(Out(d + 1), Inside(v), Out(d + 1));
        PassesOne(Out(d + 1), '}');
        PassesConcat(Out(d), "{", Out(d + 1), Inside(v), Out(d + 1));
        PassesConcat(Out(d), "{" + Inside(v), Out(d + 1), "}", Out(d));
      }
  }

  lemma {:induction false} InsideIsNeutral(v: Value)
    requires v.Obj? && Legal(v)
    ensures Neutral(Inside(v))
    decreases v, 0
  {
    if v.members == [] { PlainIsNeutral(v.gap); } else { MembersAreNeutral(v.members); }
  }

  lemma {:induction false} ItemsAreNeutral(items: seq<Item>)
    requires items != [] && forall i :: 0 <= i < |items| ==>
               IsJsonSpace(items[i].before) && IsJsonSpace(items[i].after) && Legal(items[i].value)
    ensures Neutral(PrintItems(items))
    decreases items
  {
    var item := items[0];
    PlainIsNeutral(item.before);
    ValueIsNeutral(item.value);
    PlainIsNeutral(item.after);
    NeutralConcat(item.before, Print(item.value));
    NeutralConcat(item.before + Print(item.value), item.after);
    var head := item.before + Print(item.value) + item.after;
    if |items| == 1 {
      assert PrintItems(items) == head;
    } else {
      ItemsAreNeutral(items[1..]);
      PlainIsNeutral(",");
      NeutralConcat(",", PrintItems(items[1..]));
      NeutralConcat(head, "," + PrintItems(items[1..]));
    }
  }

  lemma MemberIsNeutral(m: Member)
    requires IsJsonSpace(m.before) && IsJsonSpace(m.beforeColon) && IsJsonSpace(m.afterColon) && IsJsonSpace(m.after)
    requires LegalPieces(m.name) && Neutral(Print(m.value))
    ensures Neutral(m.before + PrintString(m.name) + m.beforeColon + ":" + m.afterColon + Print(m.value) + m.after)
  {
    var name := PrintString(m.name);
    PlainIsNeutral(m.before);
    StringIsNeutral(m.name);
    PlainIsNeutral(m.beforeColon);
    PlainIsNeutral(":");
    PlainIsNeutral(m.afterColon);
    PlainIsNeutral(m.after);
    NeutralConcat(m.before, name);
    NeutralConcat(m.before + name, m.beforeColon);
    NeutralConcat(m.before + name + m.beforeColon, ":");
    NeutralConcat(m.before + name + m.beforeColon + ":", m.afterColon);
    NeutralConcat(m.before + name + m.beforeColon + ":" + m.afterColon, Print(m.value));
    NeutralConcat(m.before + name + m.beforeColon + ":" + m.afterColon + Print(m.value), m.after);
  }

  lemma {:induction false} MembersAreNeutral(members: seq<Member>)
    requires members != [] && forall i :: 0 <= i < |members| ==>
               && IsJsonSpace(members[i].before) && IsJsonSpace(members[i].beforeColon)
               && IsJsonSpace(members[i].afterColon) && IsJsonSpace(members[i].after)
               && LegalPieces(members[i].name) && Legal(members[i].value)
    ensures Neutral(PrintMembers(members))
    decreases members
  {
    var m := members[0];
    ValueIsNeutral(m.value);
    MemberIsNeutral(m);
    var head := m.before + PrintString(m.name) + m.beforeColon + ":" + m.afterColon + Print(m.value) + m.after;
    if |members| == 1 {
      assert PrintMembers(members) == head;
    } else {
      MembersAreNeutral(members[1..]);
      PlainIsNeutral(",");
      NeutralConcat(",", PrintMembers(members[1..]));
      NeutralConcat(head, "," + PrintMembers(members[1..]));
    }
  }

  /** Round trip: after any white space, `leading_object` cuts exactly the printed object
      out of whatever follows it. */
  lemma PrintedObjectIsFound(prefix: string, space: string, v: Value, suffix: string)
    requires v.Obj? && Legal(v) && AllWhitespace(space)
    ensures LeadingObject(prefix + space + Print(v) + suffix, |prefix|)
            == Some(Span(|prefix + space|, |prefix + space + Print(v)|))
  {
    var text := prefix + space + Print(v) + suffix;
    var k := |prefix + space|;
    assert text[|prefix|..k] == space;
    assert text[k] == '{';
    SkipIsUnique(text, |prefix|, k);
    assert text[k..] == Print(v) + suffix;
    ObjectCloses(v);
    CloseAfterConcat(Fresh, Print(v), suffix);
  }

  lemma ObjectCloses(v: Value)
    requires v.Obj? && Legal(v)
    ensures CloseAfter(Fresh, Print(v)) == Some(|Print(v)|)
  {
    InsideIsNeutral(v);
    PassesOne(Fresh, '{');
    assert Passes(Out(1), Inside(v), Out(1));
    PassesConcat(Fresh, "{", Out(1), Inside(v), Out(1));
    CloseAfterConcat(Fresh, "{" + Inside(v), "}");
    assert Closed(Feed(Out(1), '}'));
    assert CloseAfter(Out(1), "}") == Some(1);
  }
}
