/** One resumable file download (download_one_file in
    desktop/crates/goose-download-manager/src/lib.rs, 425-658), as a function of what the
    server, the disk and the cancel button answer. `Downloader` runs it as the source
    does, on files updated in place. */
module Transfer {
  import opened Wrappers
  import opened Numbers

  type Byte = b: int | 0 <= b < 256
  type Bytes = seq<Byte>

  const MAX_RETRIES: nat := 10
  const RETRY_BASE_DELAY: nat := 2
  const RETRY_MAX_DELAY: nat := 60

  // ----- the environment ------------------------------------------------------

  /** One chunk of a body, whether a cancel is seen when it arrives (577) and how much of
      it reaches the partial file (582); the write works if that is all of it. */
  datatype Chunk = Chunk(data: Bytes, cancelled: bool, written: nat)

  predicate Writes(chunk: Chunk) {
    chunk.written >= |chunk.data|
  }

  /** The first and last position of a Content-Range. */
  datatype ByteRange = ByteRange(first: nat, last: nat)

  datatype Ending = Complete | Interrupted

  /** Of a Content-Range the source reads the complete length, `rangeTotal`, but never the
      range itself. */
  datatype Reply =
    | NoResponse
    | Response(status: nat, contentLength: Option<nat>, range: Option<ByteRange>, rangeTotal: Option<nat>,
               body: seq<Chunk>, ending: Ending)

  /** Everything one turn of the loop learns from outside: the cancel flag at 469, the
      reply, whether deleting, opening, flushing and renaming work, and whether the
      back-off sleep ends without a cancel. */
  datatype Attempt = Attempt(
    cancelled: bool,
    reply: Reply,
    removes: bool,
    opens: bool,
    flushes: bool,
    renames: bool,
    slept: bool)

  /** What is known before the loop: whether the size of the partial file can be read
      (440), the size from HEAD, 0 when absent (446-451), and whether renaming (455) and
      deleting (465) work. */
  datatype Start = Start(measures: bool, headTotal: nat, renames: bool, removes: bool)

  /** The attempt answering request number `i`, which asks for the bytes from `offset`
      on; an offset of 0 sends no Range header (475). */
  type World = (nat, nat) -> Attempt

  // ----- the state of one download --------------------------------------------

  datatype Failure = Cancelled | RetriesExhausted | BadStatus | DiskError

  datatype Outcome = Running | Done | Failed(why: Failure)

  datatype Local = Local(
    partial: Option<Bytes>,
    dest: Option<Bytes>,
    fileBytes: nat,
    fileTotal: nat,
    cumulative: nat,
    retries: nat,
    requests: nat,
    backoff: nat,
    outcome: Outcome)

  function SaturatingSub(a: nat, b: nat): nat {
    if a < b then 0 else a - b
  }

  function Size(partial: Option<Bytes>): nat {
    |partial.Or([])|
  }

  function Pow2(n: nat): nat {
    if n == 0 then 1 else 2 * Pow2(n - 1)
  }

  /** The delay before the `retry`-th retry, in seconds, 486-489. */
  function Delay(retry: nat): nat
    requires retry > 0
  {
    Min(RETRY_BASE_DELAY * Pow2(retry - 1), RETRY_MAX_DELAY)
  }

  /** `set_len`: cut off or pad with zeros. */
  function SetLen(b: Bytes, n: nat): Bytes {
    if n <= |b| then b[..n] else b + seq(n - |b|, _ => 0)
  }

  function Remove(l: Local, removes: bool): Local {
    if removes then l.(partial := None) else l
  }

  function Fail(l: Local, why: Failure): Local {
    l.(outcome := Failed(why))
  }

  /** Forget the partial bytes; a failed deletion is ignored, 501-503 and 528-530. */
  function Reset(l: Local, removes: bool): Local {
    Remove(l.(cumulative := SaturatingSub(l.cumulative, l.fileBytes), fileBytes := 0), removes)
  }

  /** Rename the partial file onto the destination, 455 and 656. */
  function Promote(l: Local, renames: bool): Local {
    if renames && l.partial.Some? then l.(dest := l.partial, partial := None, outcome := Done)
    else Fail(l, DiskError)
  }

  /** Count a retry and sleep, 482-492 and 637-650. */
  function Backoff(l: Local, slept: bool): Local {
    if l.retries >= MAX_RETRIES then Fail(l, RetriesExhausted)
    else
      var l1 := l.(retries := l.retries + 1, backoff := l.backoff + Delay(l.retries + 1));
      if slept then l1 else Fail(l1, Cancelled)
  }

  predicate IsSuccess(status: nat) {
    200 <= status < 300
  }

  predicate IsTransient(status: nat) {
    500 <= status < 600 || status == 408 || status == 429
  }

  /** Append the chunks in order, 573-631. */
  function Receive(l: Local, body: seq<Chunk>, removes: bool): Local
    requires l.partial.Some?
    decreases |body|
  {
    if body == [] || l.outcome != Running then l
    else if body[0].cancelled then Fail(Remove(l, removes), Cancelled)
    else if !Writes(body[0]) then Fail(Tear(l, body[0]), DiskError)
    else Receive(Append(l, body[0].data), body[1..], removes)
  }

  /** A write that fails may have written part of the chunk. */
  function Tear(l: Local, chunk: Chunk): Local
    requires l.partial.Some? && !Writes(chunk)
  {
    l.(partial := Some(l.partial.value + chunk.data[..chunk.written]))
  }

  function Append(l: Local, data: Bytes): Local
    requires l.partial.Some?
  {
    l.(partial := Some(l.partial.value + data),
       fileBytes := l.fileBytes + |data|,
       cumulative := l.cumulative + |data|)
  }

  /** What a successful reply to `l`'s request does before the body is read, 525-568. */
  function Accept(l: Local, reply: Reply, removes: bool): Local
    requires reply.Response?
  {
    var l1 := if l.fileBytes > 0 && reply.status == 200 then Reset(l, removes) else l;
    var learned := if l1.fileBytes > 0 then reply.rangeTotal else reply.contentLength;
    l1.(fileTotal := if l1.fileTotal == 0 then learned.Or(0) else l1.fileTotal)
  }

  function Open(l: Local): Local {
    l.(partial := Some(SetLen(l.partial.Or([]), l.fileBytes)))
  }

  /** After the body, 633-656. */
  function Close(l: Local, ending: Ending, a: Attempt): Local {
    if l.outcome != Running then l
    else if !a.flushes then Fail(l, DiskError)
    else if ending.Interrupted? then Backoff(l, a.slept)
    else Promote(l, a.renames)
  }

  /** One turn of the outer loop, 468-654. */
  function Turn(l: Local, a: Attempt): Local {
    if a.cancelled then Fail(Remove(l, a.removes), Cancelled)
    else
      var l1 := l.(requests := l.requests + 1);
      match a.reply
      case NoResponse => Backoff(l1, a.slept)
      case Response(status, _, _, _, body, ending) =>
        if status == 416 then
          if l1.fileTotal > 0 && l1.fileBytes == l1.fileTotal then Promote(l1, a.renames)
          else Reset(l1, a.removes)
        else if !IsSuccess(status) then
          if IsTransient(status) && l1.retries < MAX_RETRIES then Backoff(l1, a.slept) else Fail(l1, BadStatus)
        else if !a.opens then Fail(Accept(l1, a.reply, a.removes), DiskError)
        else Close(Receive(Open(Accept(l1, a.reply, a.removes)), body, a.removes), ending, a)
  }

  /** Before the loop, 436-466. */
  function Begin(partial: Option<Bytes>, dest: Option<Bytes>, cumulative: nat, start: Start): Local {
    var size := Size(partial);
    var l := Local(partial, dest, size, start.headTotal, cumulative, 0, 0, 0, Running);
    if partial.Some? && !start.measures then Fail(l, DiskError)
    else if start.headTotal > 0 && size == start.headTotal then Promote(l, start.renames)
    else if start.headTotal > 0 && size > start.headTotal then Reset(l, start.removes)
    else l
  }

  /** At most `limit` turns of the loop. */
  function Run(l: Local, world: World, limit: nat): Local
    decreases limit
  {
    if l.outcome != Running || limit == 0 then l
    else Run(Turn(l, world(l.requests, l.fileBytes)), world, limit - 1)
  }

  function Download(partial: Option<Bytes>, dest: Option<Bytes>, cumulative: nat, start: Start, world: World, limit: nat): Local {
    Run(Begin(partial, dest, cumulative, start), world, limit)
  }
}
