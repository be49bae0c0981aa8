/** The string-aware brace scanner (leading_object in
    desktop/crates/goose-context-management/src/structured.rs, 254-290). */
module Scanner {
  import opened Wrappers
  import opened Text

  datatype Span = Span(start: nat, end: nat)

  /** The loop state at 261-263; the depth is an integer here, and never goes below zero. */
  datatype Scan = Scan(depth: int, inString: bool, escaped: bool)

  const Fresh: Scan := Scan(0, false, false)

  function Feed(s: Scan, c: char): Scan {
    if s.inString then
      if s.escaped then s.(escaped := false)
      else if c == '\\' then s.(escaped := true)
      else if c == '"' then s.(inString := false)
      else s
    else if c == '"' then s.(inString := true)
    else if c == '{' then s.(depth := s.depth + 1)
    else if c == '}' then s.(depth := s.depth - 1)
    else s
  }

  function FeedAll(s: Scan, text: string): Scan
    decreases |text|
  {
    if text == [] then s else FeedAll(Feed(s, text[0]), text[1..])
  }

  /** Out of every string and every brace. */
  predicate Closed(s: Scan) {
    s.depth == 0 && !s.inString
  }

  /** How many characters it takes from `s` until everything is closed. */
  function CloseAfter(s: Scan, text: string): (r: Option<nat>)
    ensures r.Some? ==> 0 < r.value <= |text|
    decreases |text|
  {
    if text == [] then None
    else if Closed(Feed(s, text[0])) then Some(1)
    else
      match CloseAfter(Feed(s, text[0]), text[1..])
      case None => None
      case Some(n) => Some(n + 1)
  }

  /** The object at the start of `text[lo..]`, leading whitespace aside. */
  function LeadingObject(text: string, lo: nat): (r: Option<Span>)
    requires lo <= |text|
    ensures r.Some? ==> lo <= r.value.start < r.value.end <= |text|
  {
    var k := SkipWhitespace(text, lo);
    if k == |text| || text[k] != '{' then None
    else
      match CloseAfter(Fresh, text[k..])
      case None => None
      case Some(n) => Some(Span(k, k + n))
  }

  // ----- scanning in pieces ---------------------------------------------------

  lemma {:induction false} FeedAllConcat(s: Scan, a: string, b: string)
    ensures FeedAll(s, a + b) == FeedAll(FeedAll(s, a), b)
    decreases |a|
  {
    if a == [] {
      assert a + b == b;
    } else {
      assert (a + b)[1..] == a[1..] + b;
      FeedAllConcat(Feed(s, a[0]), a[1..], b);
    }
  }

  lemma {:induction false} CloseAfterConcat(s: Scan, a: string, b: string)
    ensures CloseAfter(s, a + b) ==
            match CloseAfter(s, a)
            case Some(n) => Some(n)
            case None =>
              match CloseAfter(FeedAll(s, a), b)
              case None => None
              case Some(n) => Some(|a| + n)
    decreases |a|
  {
    if a == [] {
      assert a + b == b;
    } else {
      assert (a + b)[1..] == a[1..] + b;
      CloseAfterConcat(Feed(s, a[0]), a[1..], b);
    }
  }

  /** `n` is the first moment everything is closed. */
  predicate ClosesFirstAt(s: Scan, text: string, n: nat) {
    && 0 < n <= |text|
    && Closed(FeedAll(s, text[..n]))
    && forall m :: 0 < m < n ==> !Closed(FeedAll(s, text[..m]))
  }

  lemma {:induction false} CloseAfterIsFirst(s: Scan, text: string, n: nat)
    ensures CloseAfter(s, text) == Some(n) <==> ClosesFirstAt(s, text, n)
    decreases |text|
  {
    if text != [] {
      var s1 := Feed(s, text[0]);
      assert forall m :: 0 < m <= |text| ==> text[..m][0] == text[0] && text[..m][1..] == text[1..][..m - 1];
      assert forall m :: 0 < m <= |text| ==> FeedAll(s, text[..m]) == FeedAll(s1, text[1..][..m - 1]);
      assert FeedAll(s1, text[1..][..0]) == s1;
      if n > 1 {
        CloseAfterIsFirst(s1, text[1..], n - 1);
        if ClosesFirstAt(s, text, n) {
          forall m | 0 < m < n - 1
            ensures !Closed(FeedAll(s1, text[1..][..m]))
          {
            assert !Closed(FeedAll(s, text[..m + 1]));
          }
          assert !Closed(FeedAll(s, text[..1]));
        }
      }
    }
  }

  /** The scanner returns a span exactly when the text, after leading whitespace, opens
      with a brace and the span is the shortest prefix whose out-of-string brace depth
      returns to zero. */
  lemma LeadingObjectIsShortest(text: string, lo: nat, span: Span)
    requires lo <= |text|
    ensures LeadingObject(text, lo) == Some(span) <==>
            && lo <= span.start < span.end <= |text|
            && AllWhitespace(text[lo..span.start])
            && text[span.start] == '{'
            && ClosesFirstAt(Fresh, text[span.start..], span.end - span.start)
  {
    if LeadingObject(text, lo) == Some(span) {
      LeadingSpan(text, lo, span);
      ClosingSpan(text, lo, span);
    } else if lo <= span.start < span.end <= |text| && AllWhitespace(text[lo..span.start]) && text[span.start] == '{' {
      SkipIsUnique(text, lo, span.start);
      ClosingSpan(text, lo, span);
    }
  }

  lemma LeadingSpan(text: string, lo: nat, span: Span)
    requires lo <= |text| && LeadingObject(text, lo) == Some(span)
    ensures lo <= span.start < span.end <= |text| && span.start == SkipWhitespace(text, lo)
    ensures AllWhitespace(text[lo..span.start]) && text[span.start] == '{'
  {}

  lemma ClosingSpan(text: string, lo: nat, span: Span)
    requires lo <= span.start < span.end <= |text|
    requires span.start == SkipWhitespace(text, lo) && text[span.start] == '{'
    ensures LeadingObject(text, lo) == Some(span) <==> ClosesFirstAt(Fresh, text[span.start..], span.end - span.start)
  {
    LeadingObjectUnfolds(text, lo, span);
    CloseAfterIsFirst(Fresh, text[span.start..], span.end - span.start);
  }

  lemma LeadingObjectUnfolds(text: string, lo: nat, span: Span)
    requires lo <= span.start < span.end <= |text|
    requires span.start == SkipWhitespace(text, lo) && text[span.start] == '{'
    ensures LeadingObject(text, lo) == Some(span) <==>
            CloseAfter(Fresh, text[span.start..]) == Some(span.end - span.start)
  {}

  /** Until everything is closed, a text that opens with a brace never drives the depth
      below one, so the unsigned subtraction at 280 cannot underflow. */
  lemma {:induction false} DepthNeverUnderflows(text: string, i: nat)
    requires text != [] && text[0] == '{' && 0 < i <= |text|
    requires forall m :: 0 < m < i ==> !Closed(FeedAll(Fresh, text[..m]))
    ensures FeedAll(Fresh, text[..i]).depth >= 0
    ensures !Closed(FeedAll(Fresh, text[..i])) ==> FeedAll(Fresh, text[..i]).depth >= 1
    ensures FeedAll(Fresh, text[..i]).escaped ==> FeedAll(Fresh, text[..i]).inString
  {
    if i == 1 {
      assert text[..1] == ['{'];
      assert FeedAll(Fresh, ['{']) == FeedAll(Feed(Fresh, '{'), []);
    } else {
      DepthNeverUnderflows(text, i - 1);
      FeedLast(Fresh, text, i);
    }
  }

  lemma FeedLast(s: Scan, text: string, i: nat)
    requires 0 < i <= |text|
    ensures FeedAll(s, text[..i]) == Feed(FeedAll(s, text[..i - 1]), text[i - 1])
  {
    assert text[..i] == text[..i - 1] + [text[i - 1]];
    FeedAllConcat(s, text[..i - 1], [text[i - 1]]);
    assert FeedAll(FeedAll(s, text[..i - 1]), [text[i - 1]]) == FeedAll(Feed(FeedAll(s, text[..i - 1]), text[i - 1]), []);
  }

  // ----- the loop -------------------------------------------------------------

  /** One turn of the loop, 264-287, with an unsigned depth: the state after `c`, and
      whether the object ends with it. */
  method TakeChar(depth: nat, inString: bool, escaped: bool, c: char)
    returns (nextDepth: nat, nextInString: bool, nextEscaped: bool, closes: bool)
    requires depth >= 1 || (c == '{' && !inString)
    ensures Scan(nextDepth, nextInString, nextEscaped) == Feed(Scan(depth, inString, escaped), c)
    ensures closes <==> Closed(Scan(nextDepth, nextInString, nextEscaped))
  {
    nextDepth, nextInString, nextEscaped, closes := depth, inString, escaped, false;
    if inString {
      if escaped {
        nextEscaped := false;
      } else if c == '\\' {
        nextEscaped := true;
      } else if c == '"' {
        nextInString := false;
      }
    } else if c == '"' {
      nextInString := true;
    } else if c == '{' {
      nextDepth := depth + 1;
    } else if c == '}' {
      nextDepth := depth - 1;
      closes := nextDepth == 0;
    }
  }

  /** 266-289: how many characters the object takes, if it ends. */
  method ScanBody(body: string) returns (r: Option<nat>)
    requires body != [] && body[0] == '{'
    ensures r == CloseAfter(Fresh, body)
  {
    var depth: nat, inString, escaped := 0, false, false;
    var i := 0;
    while i < |body|
      invariant 0 <= i <= |body|
      invariant FeedAll(Fresh, body[..i]) == Scan(depth, inString, escaped)
      invariant forall m :: 0 < m <= i ==> !Closed(FeedAll(Fresh, body[..m]))
      invariant i > 0 ==> depth >= 1
    {
      FeedLast(Fresh, body, i + 1);
      var closes;
      depth, inString, escaped, closes := TakeChar(depth, inString, escaped, body[i]);
      if closes {
        CloseAfterIsFirst(Fresh, body, i + 1);
        return Some(i + 1);
      }
      i := i + 1;
      DepthNeverUnderflows(body, i);
    }
    NeverCloses(body);
    return None;
  }

  lemma NeverCloses(body: string)
    requires forall m :: 0 < m <= |body| ==> !Closed(FeedAll(Fresh, body[..m]))
    ensures CloseAfter(Fresh, body).None?
  {
    var n := CloseAfter(Fresh, body);
    CloseAfterIsFirst(Fresh, body, n.Or(0));
  }

  /** 254-290. */
  method ScanLeadingObject(text: string, lo: nat) returns (r: Option<Span>)
    requires lo <= |text|
    ensures r == LeadingObject(text, lo)
  {
    var k := lo;
    while k < |text| && IsWhitespace(text[k])
      invariant lo <= k <= |text|
      invariant SkipWhitespace(text, lo) == SkipWhitespace(text, k)
    {
      k := k + 1;
    }
    if k == |text| || text[k] != '{' {
      return None;
    }
    var size := ScanBody(text[k..]);
    r := if size.Some? then Some(Span(k, k + size.value)) else None;
  }
}
