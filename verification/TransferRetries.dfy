/** What is retried, how long it is waited, and that a server which recovers in time is
    downloaded from (download_one_file in desktop/crates/goose-download-manager/src/lib.rs,
    425-658). */
module TransferRetries {
  import opened Wrappers
  import opened Transfer
  import opened TransferCorrect
  import opened TransferBounds

  // ----- one turn ----------------------------------------------------------------

  /** With retries left and no cancel, an error status counts a retry if and only if it is
      a server error, 408 or 429; any other ends the download at once. */
  lemma StatusIsRetriedExactly(l: Local, a: Attempt)
    requires l.outcome.Running? && l.retries < 10 && !a.cancelled && a.reply.Response?
    requires !(200 <= a.reply.status <= 299) && a.reply.status != 416
    ensures var r, status := Turn(l, a), a.reply.status;
            && (r.retries == l.retries + 1 <==> 500 <= status <= 599 || status == 408 || status == 429)
            && (r.retries == l.retries + 1 ==> r.outcome == if a.slept then Running else Failed(Cancelled))
            && (r.retries != l.retries + 1 ==> r.retries == l.retries && r.outcome == Failed(BadStatus))
            && r.partial == l.partial && r.fileBytes == l.fileBytes && r.dest == l.dest
  {}

  /** The wait before each retry, in seconds. */
  lemma Delays(retry: nat)
    requires 0 < retry
    ensures Delay(retry) == if retry == 1 then 2 else if retry == 2 then 4 else if retry == 3 then 8
                            else if retry == 4 then 16 else if retry == 5 then 32 else 60
  {
    Powers();
    if retry > 5 { PowersGrow(retry - 1); }
  }

  lemma {:induction false} PowersGrow(n: nat)
    requires n >= 5
    ensures Pow2(n) >= 32
  {
    Powers();
    if n > 5 { PowersGrow(n - 1); }
  }

  /** No answer, or a success that is cut off, counts a retry as well, if one is left. */
  lemma BreakIsRetried(l: Local, a: Attempt)
    requires l.outcome.Running? && l.retries <= 10 && Smooth(a) && Breaks(a.reply)
    ensures var r := Turn(l, a);
            if l.retries < 10 then r.outcome.Running? && r.retries == l.retries + 1 && r.backoff == l.backoff + Delay(l.retries + 1)
            else r.outcome == Failed(RetriesExhausted) || r.outcome == Failed(BadStatus)
  {
    if Accepted(a) {
      var o := Open(Accept(l.(requests := l.requests + 1), a.reply, a.removes));
      ReceivesAll(o, a.reply.body, a.removes);
      ReceiveAppends(o, a.reply.body, a.removes);
    }
  }

  // ----- servers that recover -------------------------------------------------------

  predicate Intact(body: seq<Chunk>) {
    forall i :: 0 <= i < |body| ==> !body[i].cancelled && Writes(body[i])
  }

  /** Nothing goes wrong on this side: no cancel, and the disk works. */
  predicate Smooth(a: Attempt) {
    && !a.cancelled && a.removes && a.opens && a.flushes && a.renames && a.slept
    && (a.reply.Response? ==> Intact(a.reply.body))
  }

  /** No answer, a transient error, or a success that is cut off. */
  predicate Breaks(reply: Reply) {
    match reply
    case NoResponse => true
    case Response(status, _, _, _, _, ending) =>
      500 <= status <= 599 || status == 408 || status == 429 || (200 <= status <= 299 && ending.Interrupted?)
  }

  /** A success that arrives whole. */
  predicate Arrives(reply: Reply) {
    reply.Response? && 200 <= reply.status <= 299 && reply.ending.Complete?
  }

  /** The answer is one of these, or refuses to resume. */
  predicate Recovers(offset: nat, reply: Reply) {
    Breaks(reply) || Arrives(reply) || (reply.Response? && reply.status == 416 && offset > 0)
  }

  ghost predicate RecoveringWorld(world: World) {
    forall i, offset :: Smooth(world(i, offset)) && Recovers(offset, world(i, offset).reply)
  }

  /** How many turns of a run break. */
  function Broken(l: Local, world: World, limit: nat): nat
    decreases limit
  {
    if !l.outcome.Running? || limit == 0 then 0
    else
      var a := world(l.requests, l.fileBytes);
      (if Breaks(a.reply) then 1 else 0) + Broken(Turn(l, a), world, limit - 1)
  }

  lemma {:induction false} ReceivesAll(l: Local, body: seq<Chunk>, removes: bool)
    requires l.partial.Some? && l.outcome.Running? && Intact(body)
    ensures Receive(l, body, removes).outcome.Running?
    decreases |body|
  {
    if body != [] { ReceivesAll(Append(l, body[0].data), body[1..], removes); }
  }

  lemma ArrivalEnds(l: Local, a: Attempt)
    requires l.outcome.Running? && Smooth(a) && Arrives(a.reply)
    ensures Turn(l, a).outcome.Done?
  {
    var o := Open(Accept(l.(requests := l.requests + 1), a.reply, a.removes));
    ReceivesAll(o, a.reply.body, a.removes);
    ReceiveAppends(o, a.reply.body, a.removes);
  }

  lemma RefusalGoesOn(l: Local, a: Attempt)
    requires l.outcome.Running? && Smooth(a) && a.reply.Response? && a.reply.status == 416
    requires l.fileTotal > 0 && l.fileBytes == l.fileTotal ==> l.partial.Some?
    ensures Turn(l, a).outcome.Running? || Turn(l, a).outcome.Done?
    ensures Turn(l, a).retries == l.retries
  {}

  /** With retries left for all that still breaks, a run goes on or succeeds; without, it
      fails as soon as it is not over. */
  lemma {:induction false} RunSucceedsExactly(l: Local, world: World, limit: nat, remote: Bytes)
    requires Good(l, remote) && CompliantWorld(remote, world) && AnswersInFull(remote, world) && RecoveringWorld(world)
    requires l.outcome.Running? && l.retries <= 10
    ensures var r := Run(l, world, limit);
            if l.retries + Broken(l, world, limit) <= 10 then r.outcome.Running? || r.outcome.Done?
            else r.outcome.Failed?
    decreases limit
  {
    if limit > 0 {
      var a := world(l.requests, l.fileBytes);
      var r := Turn(l, a);
      assert Smooth(a) && Recovers(l.fileBytes, a.reply) && InFull(remote, l.fileBytes, a.reply);
      GoesOn(l, a, remote);
      RunStep(l, world, limit);
      assert Broken(l, world, limit) == (if Breaks(a.reply) then 1 else 0) + Broken(r, world, limit - 1);
      if r.outcome.Running? {
        TurnIsExact(l, a, remote);
        RunSucceedsExactly(r, world, limit - 1, remote);
      } else {
        RunStops(r, world, limit - 1);
      }
    }
  }

  /** One turn of such a run. */
  lemma GoesOn(l: Local, a: Attempt, remote: Bytes)
    requires Good(l, remote) && l.outcome.Running? && l.retries <= 10
    requires Smooth(a) && Recovers(l.fileBytes, a.reply) && Compliant(remote, l.fileBytes, a.reply)
    ensures var r := Turn(l, a);
            && (Breaks(a.reply) && l.retries == 10 ==> r.outcome.Failed?)
            && (Breaks(a.reply) && l.retries < 10 ==> r.outcome.Running? && r.retries == l.retries + 1)
            && (!Breaks(a.reply) ==> (r.outcome.Running? || r.outcome.Done?) && (r.outcome.Running? ==> r.retries == l.retries))
  {
    if Breaks(a.reply) {
      BreakIsRetried(l, a);
    } else if Arrives(a.reply) {
      ArrivalEnds(l, a);
    } else {
      RefusalGoesOn(l, a);
    }
  }

  lemma {:induction false} NoneBare(l: Local, world: World, limit: nat)
    requires RecoveringWorld(world)
    ensures Bare(l, world, limit) == 0
    decreases limit
  {
    if l.outcome.Running? && limit > 0 {
      var a := world(l.requests, l.fileBytes);
      assert Recovers(l.fileBytes, a.reply);
      NoneBare(Turn(l, a), world, limit - 1);
    }
  }

  lemma BeginRuns(partial: Option<Bytes>, dest: Option<Bytes>, cumulative: nat, start: Start)
    requires start.measures && start.renames
    ensures var l := Begin(partial, dest, cumulative, start);
            (l.outcome.Running? || l.outcome.Done?) && l.retries == 0
  {}

  /** From a safe start, with a disk that works and no cancel, a server that sends all it is
      asked for whenever it answers is downloaded from within 22 turns if and only if at
      most ten of its answers break; and what is downloaded is the remote file. */
  lemma DownloadSucceedsExactly(partial: Option<Bytes>, dest: Option<Bytes>, cumulative: nat, start: Start,
                                world: World, limit: nat, remote: Bytes)
    requires SafeStart(partial, start.headTotal, remote) && AnswersInFull(remote, world) && RecoveringWorld(world)
    requires start.measures && start.renames && limit >= 22
    ensures var l := Download(partial, dest, cumulative, start, world, limit);
            && (l.outcome.Done? <==> Broken(Begin(partial, dest, cumulative, start), world, limit) <= 10)
            && (l.outcome.Done? ==> l.dest == Some(remote))
  {
    var l := Begin(partial, dest, cumulative, start);
    BeginRuns(partial, dest, cumulative, start);
    BeginIsGood(partial, dest, cumulative, start, remote);
    NoneBare(l, world, limit);
    DownloadIsBounded(partial, dest, cumulative, start, world, limit);
    if l.outcome.Running? {
      RunSucceedsExactly(l, world, limit, remote);
    } else {
      RunStops(l, world, limit);
    }
    if Download(partial, dest, cumulative, start, world, limit).outcome.Done? {
      PromotedIsRemote(partial, dest, cumulative, start, world, limit, remote);
    }
  }
}
