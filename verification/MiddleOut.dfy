/** Making a conversation fit the summarizer
    (desktop/crates/goose-context-management/src/summarize.rs). */
module MiddleOut {
  import opened Numbers
  import opened Sequences

  datatype Content = Text(text: string) | ToolRequest(call: string) | ToolResponse(result: string) | Other(text: string)

  datatype Message = Message(fromUser: bool, content: seq<Content>)

  /** 29-33. */
  predicate HasToolResponse(m: Message) {
    exists i :: 0 <= i < |m.content| && m.content[i].ToolResponse?
  }

  // ----- what is removed ------------------------------------------------------

  /** The positions of the messages with tool responses, in order. */
  function ToolIndices(messages: seq<Message>): seq<nat> {
    if messages == [] then []
    else
      var n := |messages| - 1;
      ToolIndices(messages[..n]) + if HasToolResponse(messages[n]) then [n] else []
  }

  /** 53: how many of `n` tool responses to remove. */
  function HowMany(n: nat, percent: nat): nat {
    var share := n * percent / 100;
    if share < 1 then 1 else share
  }

  /** The removed block of a list of `n` tool responses: `size` of them around the middle,
      the extra one of an odd size taken before it, as far as the list reaches. */
  function BlockStart(n: nat, size: nat): (r: nat)
    ensures r <= n / 2
  {
    n / 2 - Min((size + 1) / 2, n / 2)
  }

  function BlockEnd(n: nat, size: nat): (r: nat)
    ensures n / 2 <= r <= n
  {
    n / 2 + Min(size / 2, n - n / 2)
  }

  function Removed(messages: seq<Message>, percent: nat): seq<nat> {
    var tools := ToolIndices(messages);
    if percent == 0 || tools == [] then []
    else
      var size := HowMany(|tools|, percent);
      tools[BlockStart(|tools|, size)..BlockEnd(|tools|, size)]
  }

  /** The messages at the positions outside `removed`, in order. */
  function Without(messages: seq<Message>, removed: seq<nat>): seq<Message> {
    if messages == [] then []
    else
      var n := |messages| - 1;
      Without(messages[..n], removed) + if n in removed then [] else [messages[n]]
  }

  function Filtered(messages: seq<Message>, percent: nat): seq<Message> {
    Without(messages, Removed(messages, percent))
  }

  // ----- what that means ------------------------------------------------------

  lemma {:induction false} InToolIndices(messages: seq<Message>, i: nat)
    ensures i in ToolIndices(messages) <==> i < |messages| && HasToolResponse(messages[i])
    decreases |messages|
  {
    if messages != [] {
      var n := |messages| - 1;
      InToolIndices(messages[..n], i);
      assert i in (if HasToolResponse(messages[n]) then [n] else []) <==> i == n && HasToolResponse(messages[n]);
    }
  }

  /** The candidates for removal are the messages that hold a tool response anywhere. */
  lemma ToolIndicesExactly(messages: seq<Message>, i: nat)
    ensures i in ToolIndices(messages) <==>
            i < |messages| && exists k :: 0 <= k < |messages[i].content| && messages[i].content[k].ToolResponse?
  {
    InToolIndices(messages, i);
  }

  lemma {:induction false} ToolIndicesIncrease(messages: seq<Message>)
    ensures Increasing(ToolIndices(messages))
    decreases |messages|
  {
    if messages != [] {
      var n := |messages| - 1;
      ToolIndicesIncrease(messages[..n]);
      var earlier := ToolIndices(messages[..n]);
      forall k | 0 <= k < |earlier|
        ensures earlier[k] < n
      {
        InToolIndices(messages[..n], earlier[k]);
      }
    }
  }

  /** The block has the computed size and is centred on the middle of the list, with one
      exception: when the count is odd and all are to go, the last one stays. */
  lemma BlockIsExact(n: nat, percent: nat)
    requires n > 0 && 0 < percent <= 100
    ensures var size := HowMany(n, percent);
            var lo, hi := BlockStart(n, size), BlockEnd(n, size);
            && size <= n
            && lo <= n / 2 <= hi <= n
            && (if size == n && n % 2 == 1 then lo == 0 && hi == n - 1
                else hi - lo == size && n / 2 - lo - (hi - n / 2) == size % 2)
  {
    ShareFits(n, percent);
  }

  lemma HowManyFits(n: nat, percent: nat)
    requires n > 0 && percent <= 100
    ensures 1 <= HowMany(n, percent) <= n
  {
    ShareFits(n, percent);
  }

  lemma BlockEmptyExactly(n: nat, size: nat)
    requires 1 <= size <= n
    ensures BlockStart(n, size) == BlockEnd(n, size) <==> n == 1
  {}

  /** Up to 100 percent, nothing is removed exactly when nothing is to be, or when there is
      at most one tool response: a single one stays at every percentage. */
  lemma NothingRemovedExactly(messages: seq<Message>, percent: nat)
    requires percent <= 100
    ensures Removed(messages, percent) == [] <==> percent == 0 || |ToolIndices(messages)| <= 1
    ensures Removed(messages, percent) == [] ==> Filtered(messages, percent) == messages
  {
    var n := |ToolIndices(messages)|;
    if percent > 0 && n > 0 {
      HowManyFits(n, percent);
      BlockEmptyExactly(n, HowMany(n, percent));
    }
    if Removed(messages, percent) == [] { NothingRemoved(messages); }
  }

  /** How many of `n` tool responses a percentage asks for: that share of them, rounded
      down, but one at least. */
  predicate IsShare(n: nat, percent: nat, size: nat) {
    if n * percent < 200 then size == 1 else 100 * size <= n * percent < 100 * (size + 1)
  }

  lemma HowManyIsShare(n: nat, percent: nat)
    ensures IsShare(n, percent, HowMany(n, percent))
  {
    DivBounds(n * percent);
  }

  lemma DivBounds(a: nat)
    ensures 100 * (a / 100) <= a < 100 * (a / 100 + 1)
  {}

  /** The removed positions lie around the midpoint of the `tools`, the odd one before it. */
  predicate IsMiddle(tools: seq<nat>, removed: seq<nat>, size: nat, lo: nat, hi: nat) {
    && lo <= |tools| / 2 <= hi <= |tools| && removed == tools[lo..hi]
    && (if size == |tools| && |tools| % 2 == 1 then lo == 0 && hi == |tools| - 1
        else hi - lo == size && |tools| / 2 - lo - (hi - |tools| / 2) == size % 2)
  }

  /** What is removed is the share that the percentage asks for, around the midpoint, less
      the last tool response when all of an odd number are to go. */
  lemma RemovedIsShare(messages: seq<Message>, percent: nat) returns (size: nat, lo: nat, hi: nat)
    requires 0 < percent <= 100 && ToolIndices(messages) != []
    ensures IsShare(|ToolIndices(messages)|, percent, size)
    ensures IsMiddle(ToolIndices(messages), Removed(messages, percent), size, lo, hi)
    ensures |Removed(messages, percent)|
            == if size == |ToolIndices(messages)| && |ToolIndices(messages)| % 2 == 1 then size - 1 else size
  {
    var n := |ToolIndices(messages)|;
    size := HowMany(n, percent);
    lo, hi := BlockStart(n, size), BlockEnd(n, size);
    HowManyIsShare(n, percent);
    BlockIsExact(n, percent);
  }

  lemma ShareOfPart(n: nat, parts: nat, size: nat)
    requires n > 0 && 0 < parts && 100 % parts == 0 && IsShare(n, 100 / parts, size)
    ensures size == if n / parts == 0 then 1 else n / parts
  {
    var percent := 100 / parts;
    var q, r := n / parts, n % parts;
    assert n == parts * q + r;
    assert n * percent == parts * percent * q + r * percent;
    assert parts * percent == 100;
    assert n * percent == 100 * q + r * percent;
    assert r * percent < parts * percent;
  }

  /** How many of `n` tool responses, two or more, each of the five attempts leaves out. */
  function Rung(n: nat, attempt: nat): nat {
    if attempt == 0 then 0
    else if attempt == 1 then (if n < 10 then 1 else n / 10)
    else if attempt == 2 then (if n < 5 then 1 else n / 5)
    else if attempt == 3 then n / 2
    else n - n % 2
  }

  lemma LadderSizes(messages: seq<Message>, attempt: nat)
    requires attempt < 5 && |ToolIndices(messages)| >= 2
    ensures |REMOVAL_PERCENTAGES| == 5
    ensures |Removed(messages, REMOVAL_PERCENTAGES[attempt])| == Rung(|ToolIndices(messages)|, attempt)
  {
    if attempt > 0 {
      var parts := if attempt == 1 then 10 else if attempt == 2 then 5 else if attempt == 3 then 2 else 1;
      PartRemoved(messages, REMOVAL_PERCENTAGES[attempt], parts);
    }
  }

  lemma PartRemoved(messages: seq<Message>, percent: nat, parts: nat)
    requires IsParts(parts) && percent == 100 / parts
    requires |ToolIndices(messages)| >= 2
    ensures var n := |ToolIndices(messages)|;
            |Removed(messages, percent)| == if parts == 1 then n - n % 2 else if n < parts then 1 else n / parts
  {
    var n := |ToolIndices(messages)|;
    var size, lo, hi := RemovedIsShare(messages, percent);
    ShareOfPart(n, parts, size);
    PartIsSmaller(n, parts);
  }

  predicate IsParts(parts: nat) {
    parts == 1 || parts == 2 || parts == 5 || parts == 10
  }

  lemma PartIsSmaller(n: nat, parts: nat)
    requires n >= 2 && IsParts(parts)
    ensures n / parts == 0 <==> n < parts
    ensures parts > 1 ==> n / parts < n
    ensures parts == 1 ==> n / parts == n
  {
    if parts == 1 {
      assert n / 1 == n;
    } else if parts == 2 {
      assert n / 2 < n;
    } else if parts == 5 {
      assert n / 5 < n;
    } else {
      assert n / 10 < n;
    }
  }

  lemma ShareFits(n: nat, percent: nat)
    requires percent <= 100
    ensures n * percent / 100 <= n
  {
    assert n * percent <= n * 100;
  }

  lemma ShareGrows(n: nat, p: nat, q: nat)
    requires p <= q
    ensures n * p / 100 <= n * q / 100
  {
    assert n * p <= n * q;
    DivGrows(n * p, n * q);
  }

  lemma DivGrows(a: nat, b: nat)
    requires a <= b
    ensures a / 100 <= b / 100
  {}

  lemma BlocksNest(n: nat, a: nat, b: nat)
    requires a <= b
    ensures BlockStart(n, b) <= BlockStart(n, a) && BlockEnd(n, a) <= BlockEnd(n, b)
  {
    assert (a + 1) / 2 <= (b + 1) / 2 && a / 2 <= b / 2;
  }

  /** A larger percentage removes whatever a smaller one does, for any percentages. */
  lemma LargerRemovesMore(messages: seq<Message>, p: nat, q: nat, i: nat)
    requires p <= q && i in Removed(messages, p)
    ensures i in Removed(messages, q)
  {
    var tools := ToolIndices(messages);
    var n := |tools|;
    ShareGrows(n, p, q);
    var a, b := HowMany(n, p), HowMany(n, q);
    BlocksNest(n, a, b);
    var k :| BlockStart(n, a) <= k < BlockEnd(n, a) && tools[k] == i;
    assert tools[BlockStart(n, b)..BlockEnd(n, b)][k - BlockStart(n, b)] == i;
  }

  /** Only positions of tool responses are removed, in increasing order and so at most
      once each. */
  lemma RemovedAreToolResponses(messages: seq<Message>, percent: nat)
    ensures Increasing(Removed(messages, percent))
    ensures forall i :: i in Removed(messages, percent) ==> i < |messages| && HasToolResponse(messages[i])
  {
    ToolIndicesIncrease(messages);
    forall i | i in Removed(messages, percent)
      ensures i < |messages| && HasToolResponse(messages[i])
    {
      assert i in ToolIndices(messages);
      InToolIndices(messages, i);
    }
  }

  /** How many messages before position `i` are kept. */
  function Rank(i: nat, removed: seq<nat>): nat {
    if i == 0 then 0 else Rank(i - 1, removed) + if i - 1 in removed then 0 else 1
  }

  lemma {:induction false} WithoutLength(messages: seq<Message>, removed: seq<nat>)
    ensures |Without(messages, removed)| == Rank(|messages|, removed)
    decreases |messages|
  {
    if messages != [] { WithoutLength(messages[..|messages| - 1], removed); }
  }

  /** Everything not removed stays, in its original order: the message at `i` is the
      `Rank(i)`-th of the result, which holds nothing else. */
  lemma {:induction false} WithoutKeepsTheRest(messages: seq<Message>, removed: seq<nat>, i: nat)
    requires i < |messages| && i !in removed
    ensures |Without(messages, removed)| == Rank(|messages|, removed)
    ensures Rank(i, removed) < |Without(messages, removed)|
    ensures Without(messages, removed)[Rank(i, removed)] == messages[i]
    decreases |messages|
  {
    var n := |messages| - 1;
    WithoutLength(messages, removed);
    if i < n {
      WithoutKeepsTheRest(messages[..n], removed, i);
    } else {
      WithoutLength(messages[..n], removed);
    }
  }

  // ----- the loops ------------------------------------------------------------

  /** Growing the size by one takes one more element on one side, or none where the list
      has ended. */
  lemma BlockGrows(n: nat, i: nat)
    ensures var lo, hi := BlockStart(n, i), BlockEnd(n, i);
            if i % 2 == 0 then
              BlockEnd(n, i + 1) == hi
              && BlockStart(n, i + 1) == (if n / 2 > i / 2 then n / 2 - i / 2 - 1 else lo)
              && (n / 2 > i / 2 ==> lo == n / 2 - i / 2)
            else
              BlockStart(n, i + 1) == lo
              && BlockEnd(n, i + 1) == (if n / 2 + i / 2 < n then n / 2 + i / 2 + 1 else hi)
              && (n / 2 + i / 2 < n ==> hi == n / 2 + i / 2)
  {
    assert i % 2 == 0 ==> (i + 1) / 2 == i / 2;
    assert i % 2 == 1 ==> (i + 1) / 2 == i / 2 + 1;
  }

  /** A slice grown by one element at either end. */
  lemma SliceGrows(tools: seq<nat>, lo: nat, hi: nat, picked: seq<nat>)
    requires lo <= hi <= |tools| && SameElements(picked, tools[lo..hi])
    ensures lo > 0 ==> SameElements(picked + [tools[lo - 1]], tools[lo - 1..hi])
    ensures hi < |tools| ==> SameElements(picked + [tools[hi]], tools[lo..hi + 1])
  {
    if lo > 0 { assert tools[lo - 1..hi] == [tools[lo - 1]] + tools[lo..hi]; }
    if hi < |tools| { assert tools[lo..hi + 1] == tools[lo..hi] + [tools[hi]]; }
  }

  predicate SameElements(a: seq<nat>, b: seq<nat>) {
    multiset(a) == multiset(b)
  }

  /** One more pick, 58-65: the element before the block or the one after it. */
  method PickOne(tools: seq<nat>, picked: seq<nat>, i: nat) returns (more: seq<nat>)
    requires SameElements(picked, tools[BlockStart(|tools|, i)..BlockEnd(|tools|, i)])
    ensures SameElements(more, tools[BlockStart(|tools|, i + 1)..BlockEnd(|tools|, i + 1)])
  {
    var middle, offset := |tools| / 2, i / 2;
    BlockGrows(|tools|, i);
    SliceGrows(tools, BlockStart(|tools|, i), BlockEnd(|tools|, i), picked);
    more := picked;
    if i % 2 == 0 {
      if middle > offset {
        more := picked + [tools[middle - offset - 1]];
      }
    } else if middle + offset < |tools| {
      more := picked + [tools[middle + offset]];
    }
  }

  /** 57-66: alternately one before and one after the middle. */
  method PickMiddle(tools: seq<nat>, size: nat) returns (picked: seq<nat>)
    requires tools != []
    ensures SameElements(picked, tools[BlockStart(|tools|, size)..BlockEnd(|tools|, size)])
  {
    picked := [];
    var i := 0;
    assert tools[BlockStart(|tools|, 0)..BlockEnd(|tools|, 0)] == [];
    while i < size
      invariant 0 <= i <= size
      invariant SameElements(picked, tools[BlockStart(|tools|, i)..BlockEnd(|tools|, i)])
    {
      picked := PickOne(tools, picked, i);
      i := i + 1;
    }
  }

  lemma {:induction false} WithoutDependsOnElements(messages: seq<Message>, a: seq<nat>, b: seq<nat>)
    requires forall x :: x in a <==> x in b
    ensures Without(messages, a) == Without(messages, b)
    decreases |messages|
  {
    if messages != [] { WithoutDependsOnElements(messages[..|messages| - 1], a, b); }
  }

  lemma NothingRemoved(messages: seq<Message>)
    ensures Without(messages, []) == messages
    decreases |messages|
  {
    if messages != [] {
      NothingRemoved(messages[..|messages| - 1]);
      assert messages == messages[..|messages| - 1] + [messages[|messages| - 1]];
    }
  }

  /** 37-74. */
  method FilterToolResponses(messages: seq<Message>, percent: nat) returns (kept: seq<Message>)
    ensures kept == Filtered(messages, percent)
  {
    if percent == 0 {
      NothingRemoved(messages);
      return messages;
    }
    var tools: seq<nat> := [];
    var i := 0;
    while i < |messages|
      invariant 0 <= i <= |messages|
      invariant tools == ToolIndices(messages[..i])
    {
      assert messages[..i + 1][..i] == messages[..i];
      if HasToolResponse(messages[i]) {
        tools := tools + [i];
      }
      i := i + 1;
    }
    assert messages[..|messages|] == messages;
    if tools == [] {
      NothingRemoved(messages);
      return messages;
    }
    var removed := PickMiddle(tools, HowMany(|tools|, percent));
    assert forall x :: x in removed <==> x in multiset(removed);
    WithoutDependsOnElements(messages, removed, Removed(messages, percent));
    kept := [];
    i := 0;
    while i < |messages|
      invariant 0 <= i <= |messages|
      invariant kept == Without(messages[..i], removed)
    {
      assert messages[..i + 1][..i] == messages[..i];
      if i !in removed {
        kept := kept + [messages[i]];
      }
      i := i + 1;
    }
  }

  // ----- the attempts ---------------------------------------------------------

  const REMOVAL_PERCENTAGES: seq<nat> := [0, 10, 20, 50, 100]

  /** `render` may fail before the model is asked (140); the model answers, overflows its
      context, or fails otherwise. */
  datatype Reply = RenderError(why: string) | Answer(response: string) | Overflow | ModelError(why: string)

  datatype Summary = Summarized(response: string) | StillTooLong | Error(why: string)

  /** What attempt number `a` of `summarize` gets back. */
  type Model = (nat, seq<Message>) -> Reply

  function ReplyTo(model: Model, messages: seq<Message>, a: nat): Reply
    requires a < 5
  {
    model(a, Filtered(messages, REMOVAL_PERCENTAGES[a]))
  }

  /** 123-175: the first attempt that does not overflow decides; at most five calls. */
  method Summarize(model: Model, messages: seq<Message>) returns (summary: Summary, calls: nat, decided: nat)
    ensures decided <= 5 && calls <= 5
    ensures forall a :: 0 <= a < decided ==> ReplyTo(model, messages, a).Overflow?
    ensures match summary
            case StillTooLong => decided == 5 && calls == 5
            case Summarized(response) => decided < 5 && calls == decided + 1 && ReplyTo(model, messages, decided) == Answer(response)
            case Error(why) =>
              decided < 5 && (if ReplyTo(model, messages, decided).RenderError? then calls == decided else calls == decided + 1)
              && (ReplyTo(model, messages, decided) == RenderError(why) || ReplyTo(model, messages, decided) == ModelError(why))
  {
    calls, decided := 0, 0;
    while decided < |REMOVAL_PERCENTAGES|
      invariant decided <= 5 && calls == decided
      invariant forall a :: 0 <= a < decided ==> ReplyTo(model, messages, a).Overflow?
    {
      var filtered := FilterToolResponses(messages, REMOVAL_PERCENTAGES[decided]);
      var reply := model(decided, filtered);
      if reply.RenderError? {
        return Error(reply.why), calls, decided;
      }
      calls := calls + 1;
      match reply {
        case Answer(response) =>
          return Summarized(response), calls, decided;
        case ModelError(why) =>
          return Error(why), calls, decided;
        case Overflow =>
          decided := decided + 1;
      }
    }
    summary := StillTooLong;
  }

  /** Each attempt asks about a part of what the attempt before asked about. */
  lemma AttemptsAreNested(messages: seq<Message>, a: nat, b: nat, i: nat)
    requires a <= b < 5 && i in Removed(messages, REMOVAL_PERCENTAGES[a])
    ensures i in Removed(messages, REMOVAL_PERCENTAGES[b])
  {
    LargerRemovesMore(messages, REMOVAL_PERCENTAGES[a], REMOVAL_PERCENTAGES[b], i);
  }
}
