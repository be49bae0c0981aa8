/** When the promoted file is the remote file. */
module TransferCorrect {
  import opened Wrappers
  import opened Transfer

  function Content(body: seq<Chunk>): Bytes {
    if body == [] then [] else body[0].data + Content(body[1..])
  }

  /** A body that ends cleanly is all of `expected`; one that is cut off is a prefix. */
  predicate Delivers(body: seq<Chunk>, ending: Ending, expected: Bytes) {
    if ending.Complete? then Content(body) == expected else Content(body) <= expected
  }

  predicate TotalOrUnknown(total: Option<nat>, remote: Bytes) {
    total.Some? ==> total.value == |remote|
  }

  /** What RFC 9110 asks of an answer to a request for the bytes from `offset` on. 200
      carries the whole representation (15.3.1). 206 answers a request with a Range and
      carries some part of what was asked for, named in Content-Range: not necessarily all
      of it (15.3.7), and with the complete length if that is known (14.4). Nothing is
      assumed about 416 or about any error status. */
  predicate Compliant(remote: Bytes, offset: nat, reply: Reply) {
    match reply
    case NoResponse => true
    case Response(status, contentLength, range, rangeTotal, body, ending) =>
      && (IsSuccess(status) ==> status == 200 || status == 206)
      && (status == 200 ==> Delivers(body, ending, remote) && TotalOrUnknown(contentLength, remote))
      && (status == 206 ==>
            && 0 < offset && range.Some? && offset <= range.value.first <= range.value.last < |remote|
            && Delivers(body, ending, remote[range.value.first..range.value.last + 1])
            && TotalOrUnknown(rangeTotal, remote))
  }

  ghost predicate CompliantWorld(remote: Bytes, world: World) {
    forall i, offset :: Compliant(remote, offset, world(i, offset).reply)
  }

  predicate Partial(reply: Reply) {
    reply.Response? && reply.status == 206 && reply.range.Some?
  }

  /** A range begins with the first byte that was asked for. */
  predicate BeginsThere(offset: nat, reply: Reply) {
    Partial(reply) ==> reply.range.value.first == offset
  }

  /** A range, besides, ends with the last byte of the file. */
  predicate InFull(remote: Bytes, offset: nat, reply: Reply) {
    Partial(reply) ==> reply.range.value.first == offset && reply.range.value.last + 1 == |remote|
  }

  /** A range that is cut off began where it was asked to. */
  predicate InPlace(offset: nat, reply: Reply) {
    Partial(reply) && reply.ending.Interrupted? ==> BeginsThere(offset, reply)
  }

  /** A range that arrives whole is not all that was asked for: it begins later or ends
      before the last byte of the file. */
  predicate StopsShort(remote: Bytes, offset: nat, a: Attempt) {
    !a.cancelled && Partial(a.reply) && a.reply.ending.Complete? && !InFull(remote, offset, a.reply)
  }

  /** A leftover partial file the loop can live with: no range can extend one that is as
      long as the remote file. */
  predicate Resumable(partial: Option<Bytes>, remote: Bytes) {
    partial.Some? ==> partial.value <= remote || |partial.value| >= |remote|
  }

  /** A leftover partial file and a size from HEAD, right or wrong (the status of the HEAD
      answer is never looked at), that do no harm. */
  predicate SafeStart(partial: Option<Bytes>, headTotal: nat, remote: Bytes) {
    var size := Size(partial);
    if headTotal == 0 then Resumable(partial, remote)
    else if size == headTotal then partial == Some(remote)
    else |remote| <= headTotal && (headTotal < size || Resumable(partial, remote))
  }

  /** What every turn keeps. */
  predicate Good(l: Local, remote: Bytes) {
    && (l.fileTotal == 0 || |remote| <= l.fileTotal)
    && (l.outcome.Running? && l.fileBytes > 0 ==>
          && l.partial.Some? && |l.partial.value| == l.fileBytes && Resumable(l.partial, remote)
          && (l.fileBytes == l.fileTotal ==> l.partial.value == remote))
    && (l.outcome.Done? ==> l.dest == Some(remote))
  }

  lemma {:induction false} ReceiveAppends(l: Local, body: seq<Chunk>, removes: bool)
    requires l.partial.Some?
    ensures var r := Receive(l, body, removes);
            && (r.outcome.Done? ==> l.outcome.Done?)
            && r.fileTotal == l.fileTotal && r.retries == l.retries && r.requests == l.requests
            && r.backoff == l.backoff && r.dest == l.dest
            && (r.outcome.Running? ==>
                  && r.partial == Some(l.partial.value + Content(body))
                  && r.fileBytes == l.fileBytes + |Content(body)|
                  && r.cumulative == l.cumulative + |Content(body)|)
    decreases |body|
  {
    if body == [] {
      assert l.partial.value + Content(body) == l.partial.value;
    } else if l.outcome.Running? && !body[0].cancelled && Writes(body[0]) {
      ReceiveAppends(Append(l, body[0].data), body[1..], removes);
      assert l.partial.value + Content(body) == l.partial.value + body[0].data + Content(body[1..]);
    }
  }

  lemma FullPrefix(held: Bytes, remote: Bytes)
    requires |held| == |remote| && held <= remote
    ensures held == remote
  {
    assert remote[..|remote|] == remote;
  }

  lemma RangeExtends(held: Bytes, more: Bytes, remote: Bytes, first: nat, stop: nat)
    requires |held| == first <= stop <= |remote| && held <= remote
    ensures more <= remote[first..stop] ==> held + more <= remote
    ensures more == remote[first..stop] ==> held + more == remote[..stop]
  {
    assert held == remote[..first];
    assert remote[..stop] == remote[..first] + remote[first..stop];
    assert more <= remote[first..stop] ==> more == remote[first..first + |more|];
    assert more <= remote[first..stop] ==> held + more == remote[..first + |more|];
  }

  predicate Accepted(a: Attempt) {
    !a.cancelled && a.reply.Response? && IsSuccess(a.reply.status)
  }

  /** What the file holds once the body of a successful reply has been received. */
  lemma BodyIsPrefix(l: Local, a: Attempt, remote: Bytes)
    requires Good(l, remote) && l.outcome.Running? && Accepted(a)
    requires Compliant(remote, l.fileBytes, a.reply) && BeginsThere(l.fileBytes, a.reply)
    ensures var r := Receive(Open(Accept(l, a.reply, a.removes)), a.reply.body, a.removes);
            && (r.fileTotal == 0 || |remote| <= r.fileTotal) && !r.outcome.Done?
            && (r.outcome.Running? ==>
                  && r.partial.Some? && |r.partial.value| == r.fileBytes && r.partial.value <= remote
                  && (a.reply.ending.Complete? ==>
                        r.partial.value == if Partial(a.reply) then remote[..a.reply.range.value.last + 1] else remote))
  {
    var o := Open(Accept(l, a.reply, a.removes));
    ReceiveAppends(o, a.reply.body, a.removes);
    if a.reply.status == 200 {
      assert o.partial.value == [] && o.fileBytes == 0;
      assert [] + Content(a.reply.body) == Content(a.reply.body);
    } else {
      assert SetLen(l.partial.value, l.fileBytes) == l.partial.value;
      RangeExtends(o.partial.value, Content(a.reply.body), remote, a.reply.range.value.first, a.reply.range.value.last + 1);
    }
  }

  // ----- one range, exactly -----------------------------------------------------

  /** From a prefix of the remote file, a 206 that arrives whole is promoted to the remote
      file exactly when its range begins where it was asked to and ends with the last
      byte. The source checks neither: it breaks at 653 and renames at 656. */
  lemma RangePromotesExactly(l: Local, a: Attempt, remote: Bytes)
    requires l.outcome.Running? && l.partial.Some? && l.partial.value <= remote
    requires |l.partial.value| == l.fileBytes && Compliant(remote, l.fileBytes, a.reply)
    requires Accepted(a) && Partial(a.reply) && a.reply.ending.Complete? && Turn(l, a).outcome.Done?
    ensures Turn(l, a).dest == Some(remote) <==> InFull(remote, l.fileBytes, a.reply)
  {
    var range := a.reply.range.value;
    var l1 := l.(requests := l.requests + 1);
    var o := Open(Accept(l1, a.reply, a.removes));
    ReceiveAppends(o, a.reply.body, a.removes);
    assert SetLen(l.partial.value, l.fileBytes) == l.partial.value;
    assert Turn(l, a) == Close(Receive(o, a.reply.body, a.removes), a.reply.ending, a);
    assert Turn(l, a).dest == Some(l.partial.value + remote[range.first..range.last + 1]);
    RangeExtends(l.partial.value, remote[l.fileBytes..], remote, l.fileBytes, |remote|);
    assert remote[..|remote|] == remote;
  }

  /** A turn in which a range stops short ends the download, and not well; every other
      turn keeps the file good. */
  ghost predicate ExactTurn(l: Local, a: Attempt, remote: Bytes) {
    if StopsShort(remote, l.fileBytes, a) then !Turn(l, a).outcome.Running? && (Turn(l, a).outcome.Done? ==> Turn(l, a).dest != Some(remote))
    else Good(Turn(l, a), remote)
  }

  /** A reply that arrives whole ends the download, one way or the other. */
  lemma WholeReplyEnds(l: Local, a: Attempt)
    requires l.outcome.Running? && Accepted(a) && a.reply.ending.Complete?
    ensures !Turn(l, a).outcome.Running?
  {
    var l1 := Accept(l.(requests := l.requests + 1), a.reply, a.removes);
    ReceiveAppends(Open(l1), a.reply.body, a.removes);
    assert Turn(l, a) == if a.opens then Close(Receive(Open(l1), a.reply.body, a.removes), a.reply.ending, a)
                         else Fail(l1, DiskError);
  }

  lemma ShortTurnIsExact(l: Local, a: Attempt, remote: Bytes)
    requires Good(l, remote) && l.outcome.Running? && Accepted(a) && Compliant(remote, l.fileBytes, a.reply)
    requires StopsShort(remote, l.fileBytes, a)
    ensures ExactTurn(l, a, remote)
  {
    WholeReplyEnds(l, a);
    if Turn(l, a).outcome.Done? { RangePromotesExactly(l, a, remote); }
  }

  lemma FittingTurnIsExact(l: Local, a: Attempt, remote: Bytes)
    requires Good(l, remote) && l.outcome.Running? && Accepted(a) && Compliant(remote, l.fileBytes, a.reply)
    requires BeginsThere(l.fileBytes, a.reply) && !StopsShort(remote, l.fileBytes, a)
    ensures ExactTurn(l, a, remote)
  {
    var l1 := l.(requests := l.requests + 1);
    BodyIsPrefix(l1, a, remote);
    var r := Receive(Open(Accept(l1, a.reply, a.removes)), a.reply.body, a.removes);
    assert Turn(l, a) == if a.opens then Close(r, a.reply.ending, a) else Fail(Accept(l1, a.reply, a.removes), DiskError);
    if r.outcome.Running? { CloseIsExact(r, a.reply.ending, a, remote); }
  }

  lemma AcceptedTurnIsExact(l: Local, a: Attempt, remote: Bytes)
    requires Good(l, remote) && l.outcome.Running? && Accepted(a)
    requires Compliant(remote, l.fileBytes, a.reply) && InPlace(l.fileBytes, a.reply)
    ensures ExactTurn(l, a, remote)
  {
    if StopsShort(remote, l.fileBytes, a) { ShortTurnIsExact(l, a, remote); } else { FittingTurnIsExact(l, a, remote); }
  }

  lemma CloseIsExact(r: Local, ending: Ending, a: Attempt, remote: Bytes)
    requires r.outcome.Running? && r.partial.Some? && |r.partial.value| == r.fileBytes && r.partial.value <= remote
    requires r.fileTotal == 0 || |remote| <= r.fileTotal
    ensures ending.Complete? ==> !Close(r, ending, a).outcome.Running?
    ensures ending.Complete? && Close(r, ending, a).outcome.Done? ==> Close(r, ending, a).dest == r.partial
    ensures ending.Interrupted? || r.partial.value == remote ==> Good(Close(r, ending, a), remote)
  {
    if |r.partial.value| == |remote| { FullPrefix(r.partial.value, remote); }
  }

  lemma OtherTurnIsGood(l: Local, a: Attempt, remote: Bytes)
    requires Good(l, remote) && l.outcome.Running? && !Accepted(a)
    ensures Good(Turn(l, a), remote)
  {}

  lemma TurnIsExact(l: Local, a: Attempt, remote: Bytes)
    requires Good(l, remote) && l.outcome.Running?
    requires Compliant(remote, l.fileBytes, a.reply) && InPlace(l.fileBytes, a.reply)
    ensures ExactTurn(l, a, remote)
  {
    if Accepted(a) { AcceptedTurnIsExact(l, a, remote); } else { OtherTurnIsGood(l, a, remote); }
  }

  /** A server may send less than it was asked for. Then the file is cut short, although
      its size is known. */
  lemma ShortRangeTruncates()
    ensures var reply := Response(206, Some(1), Some(ByteRange(1, 1)), Some(3), [Chunk([2], false, 1)], Complete);
            var world := (i: nat, offset: nat) => Attempt(false, reply, true, true, true, true, true);
            var l := Download(Some([1]), None, 1, Start(true, 3, true, true), world, 1);
            && Compliant([1, 2, 3], 1, reply) && SafeStart(Some([1]), 3, [1, 2, 3])
            && l.outcome.Done? && l.dest == Some([1, 2])
  {
    var body := [Chunk([2], false, 1)];
    var reply := Response(206, Some(1), Some(ByteRange(1, 1)), Some(3), body, Complete);
    var a := Attempt(false, reply, true, true, true, true, true);
    var l := Begin(Some([1]), None, 1, Start(true, 3, true, true));
    assert body[1..] == [];
    assert Content(body) == [2] + Content([]) == [2];
    var o := Open(Accept(l.(requests := 1), reply, true));
    assert SetLen([1], 1) == [1];
    assert Receive(o, body, true) == Receive(Append(o, [2]), [], true);
    assert [1] + [2] == [1, 2];
    assert Turn(l, a).dest == Some([1, 2]);
  }

  // ----- whole downloads, exactly -----------------------------------------------

  lemma RunStep(l: Local, world: World, limit: nat)
    requires l.outcome.Running? && limit > 0
    ensures Run(l, world, limit) == Run(Turn(l, world(l.requests, l.fileBytes)), world, limit - 1)
  {}

  lemma RunStops(l: Local, world: World, limit: nat)
    requires !l.outcome.Running? || limit == 0
    ensures Run(l, world, limit) == l
  {}

  /** Every range that is cut off began where it was asked to. */
  predicate AllInPlace(l: Local, world: World, limit: nat)
    decreases limit
  {
    l.outcome.Running? && limit > 0 ==>
      var a := world(l.requests, l.fileBytes);
      InPlace(l.fileBytes, a.reply) && AllInPlace(Turn(l, a), world, limit - 1)
  }

  /** No range the run receives arrives whole and is less than was asked for. */
  predicate NoneStopsShort(l: Local, world: World, limit: nat, remote: Bytes)
    decreases limit
  {
    l.outcome.Running? && limit > 0 ==>
      var a := world(l.requests, l.fileBytes);
      !StopsShort(remote, l.fileBytes, a) && NoneStopsShort(Turn(l, a), world, limit - 1, remote)
  }

  lemma {:induction false} RunIsExact(l: Local, world: World, limit: nat, remote: Bytes)
    requires Good(l, remote) && CompliantWorld(remote, world) && AllInPlace(l, world, limit)
    ensures if NoneStopsShort(l, world, limit, remote) then Good(Run(l, world, limit), remote)
            else Run(l, world, limit).outcome.Done? ==> Run(l, world, limit).dest != Some(remote)
    decreases limit
  {
    if l.outcome.Running? && limit > 0 {
      var a := world(l.requests, l.fileBytes);
      TurnIsExact(l, a, remote);
      if !StopsShort(remote, l.fileBytes, a) { RunIsExact(Turn(l, a), world, limit - 1, remote); }
    }
  }

  lemma BeginIsGood(partial: Option<Bytes>, dest: Option<Bytes>, cumulative: nat, start: Start, remote: Bytes)
    requires SafeStart(partial, start.headTotal, remote)
    ensures Good(Begin(partial, dest, cumulative, start), remote)
  {
    if partial.Some? && |partial.value| == |remote| && partial.value <= remote { FullPrefix(partial.value, remote); }
  }

  /** For a compliant server that, before it is cut off, sends the bytes that were asked
      for: whatever the cuts, ignored ranges, 416 answers and retries, a download that
      succeeds leaves the remote file at the destination exactly when no range stopped
      short. */
  lemma PromotedExactly(partial: Option<Bytes>, dest: Option<Bytes>, cumulative: nat, start: Start,
                        world: World, limit: nat, remote: Bytes)
    requires SafeStart(partial, start.headTotal, remote) && CompliantWorld(remote, world)
    requires AllInPlace(Begin(partial, dest, cumulative, start), world, limit)
    requires Download(partial, dest, cumulative, start, world, limit).outcome.Done?
    ensures Download(partial, dest, cumulative, start, world, limit).dest == Some(remote)
            <==> NoneStopsShort(Begin(partial, dest, cumulative, start), world, limit, remote)
  {
    BeginIsGood(partial, dest, cumulative, start, remote);
    RunIsExact(Begin(partial, dest, cumulative, start), world, limit, remote);
  }

  /** A server that sends all it is asked for. */
  ghost predicate AnswersInFull(remote: Bytes, world: World) {
    CompliantWorld(remote, world) && forall i, offset :: InFull(remote, offset, world(i, offset).reply)
  }

  lemma {:induction false} FullAnswers(l: Local, world: World, limit: nat, remote: Bytes)
    requires AnswersInFull(remote, world)
    ensures AllInPlace(l, world, limit) && NoneStopsShort(l, world, limit, remote)
    decreases limit
  {
    if l.outcome.Running? && limit > 0 {
      var a := world(l.requests, l.fileBytes);
      assert InFull(remote, l.fileBytes, a.reply);
      FullAnswers(Turn(l, a), world, limit - 1, remote);
    }
  }

  /** From a server that sends all it is asked for, a download that succeeds leaves
      exactly the remote bytes. */
  lemma PromotedIsRemote(partial: Option<Bytes>, dest: Option<Bytes>, cumulative: nat, start: Start,
                         world: World, limit: nat, remote: Bytes)
    requires SafeStart(partial, start.headTotal, remote) && AnswersInFull(remote, world)
    requires Download(partial, dest, cumulative, start, world, limit).outcome.Done?
    ensures Download(partial, dest, cumulative, start, world, limit).dest == Some(remote)
  {
    FullAnswers(Begin(partial, dest, cumulative, start), world, limit, remote);
    PromotedExactly(partial, dest, cumulative, start, world, limit, remote);
  }
}
