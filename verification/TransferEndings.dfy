/** How a download of one file fails, and what it leaves behind
    (desktop/crates/goose-download-manager/src/lib.rs, 425-658). */
module TransferEndings {
  import opened Wrappers
  import opened Transfer
  import opened TransferCorrect
  import opened TransferRetries

  // ----- a cancel ----------------------------------------------------------------

  /** A cancel that is seen before a request deletes the partial file, as far as that works,
      and sends nothing; the destination and the counter stay. */
  lemma CancelBeforeRequest(l: Local, a: Attempt)
    requires l.outcome.Running? && a.cancelled
    ensures Turn(l, a) == l.(outcome := Failed(Cancelled), partial := if a.removes then None else l.partial)
  {}

  /** A cancel that is seen when a chunk arrives deletes the partial file; the chunks before
      it stay counted. */
  lemma CancelAtChunk(l: Local, before: seq<Chunk>, chunk: Chunk, after: seq<Chunk>, removes: bool)
    requires l.partial.Some? && l.outcome.Running? && Intact(before) && chunk.cancelled
    ensures var r := Receive(l, before + [chunk] + after, removes);
            && r.outcome == Failed(Cancelled) && (removes ==> r.partial.None?)
            && r.fileBytes == l.fileBytes + |Content(before)| && r.dest == l.dest
  {
    ReceivesBefore(l, before, [chunk] + after, removes);
    assert before + ([chunk] + after) == before + [chunk] + after;
    assert ([chunk] + after)[0] == chunk;
  }

  /** A write that fails may leave part of its chunk behind, not counted. */
  lemma TornChunk(l: Local, before: seq<Chunk>, chunk: Chunk, after: seq<Chunk>, removes: bool)
    requires l.partial.Some? && l.outcome.Running? && Intact(before)
    requires !chunk.cancelled && chunk.written < |chunk.data|
    ensures var r := Receive(l, before + [chunk] + after, removes);
            && r.outcome == Failed(DiskError)
            && r.partial == Some(l.partial.value + Content(before) + chunk.data[..chunk.written])
            && r.fileBytes == l.fileBytes + |Content(before)| && r.dest == l.dest
  {
    ReceivesBefore(l, before, [chunk] + after, removes);
    assert before + ([chunk] + after) == before + [chunk] + after;
    assert ([chunk] + after)[0] == chunk;
  }

  /** What the file stands at when the chunks `before` have arrived. */
  function Received(l: Local, before: seq<Chunk>): Local
    requires l.partial.Some?
  {
    l.(partial := Some(l.partial.value + Content(before)), fileBytes := l.fileBytes + |Content(before)|,
       cumulative := l.cumulative + |Content(before)|)
  }

  lemma {:induction false} ReceivesBefore(l: Local, before: seq<Chunk>, rest: seq<Chunk>, removes: bool)
    requires l.partial.Some? && l.outcome.Running? && Intact(before)
    ensures Receive(l, before + rest, removes) == Receive(Received(l, before), rest, removes)
    decreases |before|
  {
    if before == [] {
      assert before + rest == rest;
      assert Received(l, before) == l.(partial := Some(l.partial.value + []));
      assert l.partial.value + [] == l.partial.value;
    } else {
      assert (before + rest)[1..] == before[1..] + rest;
      ReceivesBefore(Append(l, before[0].data), before[1..], rest, removes);
      assert l.partial.value + (before[0].data + Content(before[1..])) == l.partial.value + before[0].data + Content(before[1..]);
    }
  }

  /** A cancel during the wait before a retry ends the download and keeps the bytes. */
  lemma CancelDuringWait(l: Local, a: Attempt)
    requires l.outcome.Running? && l.retries < 10 && !a.cancelled && a.reply.NoResponse? && !a.slept
    ensures Turn(l, a).outcome == Failed(Cancelled) && Turn(l, a).partial == l.partial && Turn(l, a).fileBytes == l.fileBytes
  {}

  // ----- the disk -------------------------------------------------------------------

  /** A partial file whose size cannot be read ends the download before the first request. */
  lemma UnreadableSizeFails(partial: Option<Bytes>, dest: Option<Bytes>, cumulative: nat, start: Start)
    requires partial.Some? && !start.measures
    ensures var l := Begin(partial, dest, cumulative, start);
            l.outcome == Failed(DiskError) && l.partial == partial && l.dest == dest && l.cumulative == cumulative
  {}

  /** A file that cannot be opened, flushed or renamed fails the turn, and is not promoted. */
  lemma DiskFailureFails(l: Local, a: Attempt)
    requires l.outcome.Running? && Accepted(a) && Intact(a.reply.body)
    requires !a.opens || !a.flushes || (a.reply.ending.Complete? && !a.renames)
    ensures Turn(l, a).outcome == Failed(DiskError) && Turn(l, a).dest == l.dest
    ensures a.opens ==> Turn(l, a).partial.Some?
  {
    var o := Open(Accept(l.(requests := l.requests + 1), a.reply, a.removes));
    ReceivesAll(o, a.reply.body, a.removes);
    ReceiveAppends(o, a.reply.body, a.removes);
  }

  // ----- retries ----------------------------------------------------------------------

  /** When no retry is left, a missing answer or a cut stream is reported as that, and an
      error status as its status; the bytes that arrived stay. */
  lemma LastBreakIsReported(l: Local, a: Attempt)
    requires l.outcome.Running? && l.retries == 10 && Smooth(a) && Breaks(a.reply)
    ensures Turn(l, a).outcome == if a.reply.Response? && !(200 <= a.reply.status <= 299) then Failed(BadStatus)
                                  else Failed(RetriesExhausted)
    ensures !Accepted(a) ==> Turn(l, a).partial == l.partial
  {
    if Accepted(a) {
      var o := Open(Accept(l.(requests := l.requests + 1), a.reply, a.removes));
      ReceivesAll(o, a.reply.body, a.removes);
      ReceiveAppends(o, a.reply.body, a.removes);
    }
  }

  // ----- the size, and 416 --------------------------------------------------------------

  /** A size that HEAD did not give is learned from the first success: from Content-Range
      when bytes were kept, else from Content-Length. Once known it stays. */
  lemma SizeIsLearnedOnce(l: Local, a: Attempt)
    requires l.outcome.Running? && Accepted(a)
    ensures var kept := l.fileBytes > 0 && a.reply.status != 200;
            Turn(l, a).fileTotal == if l.fileTotal > 0 then l.fileTotal
                                    else if kept then a.reply.rangeTotal.Or(0) else a.reply.contentLength.Or(0)
  {
    var l1 := Accept(l.(requests := l.requests + 1), a.reply, a.removes);
    ReceiveAppends(Open(l1), a.reply.body, a.removes);
    ReceiveKeepsTotal(Open(l1), a.reply.body, a.removes);
  }

  lemma {:induction false} ReceiveKeepsTotal(l: Local, body: seq<Chunk>, removes: bool)
    requires l.partial.Some?
    ensures Receive(l, body, removes).fileTotal == l.fileTotal
    decreases |body|
  {
    if body != [] && l.outcome.Running? && !body[0].cancelled && Writes(body[0]) {
      ReceiveKeepsTotal(Append(l, body[0].data), body[1..], removes);
    }
  }

  /** 416 completes a file that has reached its known size, and otherwise makes the loop
      start the file again. */
  lemma RefusalCompletesOrRestarts(l: Local, a: Attempt)
    requires l.outcome.Running? && !a.cancelled && a.reply.Response? && a.reply.status == 416
    ensures if l.fileTotal > 0 && l.fileBytes == l.fileTotal then
              (a.renames && l.partial.Some? ==> Turn(l, a).outcome.Done? && Turn(l, a).dest == l.partial && Turn(l, a).partial.None?)
              && (!a.renames ==> Turn(l, a).outcome == Failed(DiskError) && Turn(l, a).partial == l.partial)
            else
              Turn(l, a).outcome.Running? && Turn(l, a).fileBytes == 0 && Turn(l, a).retries == l.retries
              && (a.removes ==> Turn(l, a).partial.None?)
  {}
}
