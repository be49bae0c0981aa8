/** How long a download can go on, and what it counts. */
module TransferBounds {
  import opened Wrappers
  import opened Transfer
  import opened TransferCorrect

  // ----- termination ----------------------------------------------------------

  /** A request without a Range that is answered 416. */
  predicate IsBare(offset: nat, a: Attempt) {
    offset == 0 && !a.cancelled && a.reply.Response? && a.reply.status == 416
  }

  /** How many requests of a run are. */
  function Bare(l: Local, world: World, limit: nat): nat
    decreases limit
  {
    if !l.outcome.Running? || limit == 0 then 0
    else
      var a := world(l.requests, l.fileBytes);
      (if IsBare(l.fileBytes, a) then 1 else 0) + Bare(Turn(l, a), world, limit - 1)
  }

  /** Turns left: two for each retry left, one more while partial bytes are held, and the
      turn that ends the loop. */
  function TurnsLeft(l: Local): nat
    requires l.retries <= MAX_RETRIES
  {
    2 * (MAX_RETRIES - l.retries) + (if l.fileBytes > 0 then 1 else 0) + 1
  }

  /** Total back-off after `n` retries. */
  function BackoffSum(n: nat): nat {
    if n == 0 then 0 else BackoffSum(n - 1) + Delay(n)
  }

  predicate Counted(l: Local) {
    l.retries <= MAX_RETRIES && l.backoff == BackoffSum(l.retries)
  }

  lemma AcceptedTurnCounts(l: Local, a: Attempt)
    requires l.outcome.Running? && Counted(l) && Accepted(a)
    ensures Counted(Turn(l, a)) && Turn(l, a).requests == l.requests + 1
    ensures Turn(l, a).outcome.Running? ==> TurnsLeft(Turn(l, a)) < TurnsLeft(l)
  {
    var l1 := Accept(l.(requests := l.requests + 1), a.reply, a.removes);
    ReceiveAppends(Open(l1), a.reply.body, a.removes);
    var r := Receive(Open(l1), a.reply.body, a.removes);
    CloseCounts(r, a.reply.ending, a);
    assert Turn(l, a) == if a.opens then Close(r, a.reply.ending, a) else Fail(l1, DiskError);
  }

  lemma CloseCounts(l: Local, ending: Ending, a: Attempt)
    requires Counted(l) && !l.outcome.Done?
    ensures Counted(Close(l, ending, a)) && Close(l, ending, a).requests == l.requests
    ensures Close(l, ending, a).outcome.Running? ==> Close(l, ending, a).retries == l.retries + 1
  {}

  lemma OtherTurnCounts(l: Local, a: Attempt)
    requires l.outcome.Running? && Counted(l) && !Accepted(a)
    ensures Counted(Turn(l, a)) && Turn(l, a).requests <= l.requests + 1
    ensures Turn(l, a).outcome.Running? && !IsBare(l.fileBytes, a) ==>
              TurnsLeft(Turn(l, a)) < TurnsLeft(l)
  {}

  lemma TurnCounts(l: Local, a: Attempt)
    requires l.outcome.Running? && Counted(l)
    ensures Counted(Turn(l, a)) && Turn(l, a).requests <= l.requests + 1
    ensures Turn(l, a).outcome.Running? && !IsBare(l.fileBytes, a) ==>
              TurnsLeft(Turn(l, a)) < TurnsLeft(l)
  {
    if Accepted(a) { AcceptedTurnCounts(l, a); } else { OtherTurnCounts(l, a); }
  }

  lemma BareTurn(l: Local, a: Attempt)
    requires l.outcome.Running? && Counted(l) && IsBare(l.fileBytes, a)
    ensures Turn(l, a).outcome.Running? && Turn(l, a).fileBytes == 0 && Turn(l, a).retries == l.retries
  {}

  lemma {:induction false} RunCounts(l: Local, world: World, limit: nat)
    requires Counted(l)
    ensures Counted(Run(l, world, limit))
    ensures Run(l, world, limit).requests <= l.requests + (if l.outcome.Running? then TurnsLeft(l) else 0) + Bare(l, world, limit)
    ensures limit >= TurnsLeft(l) + Bare(l, world, limit) ==> !Run(l, world, limit).outcome.Running?
    decreases limit
  {
    if l.outcome.Running? && limit > 0 {
      var a := world(l.requests, l.fileBytes);
      TurnCounts(l, a);
      if IsBare(l.fileBytes, a) { BareTurn(l, a); }
      RunCounts(Turn(l, a), world, limit - 1);
    }
  }

  lemma Powers()
    ensures Pow2(0) == 1 && Pow2(1) == 2 && Pow2(2) == 4 && Pow2(3) == 8 && Pow2(4) == 16 && Pow2(5) == 32
    ensures Pow2(6) == 64 && Pow2(7) == 128 && Pow2(8) == 256 && Pow2(9) == 512
  {
    assert Pow2(4) == 16;
    assert Pow2(6) == 64;
    assert Pow2(8) == 256;
  }

  lemma BackoffTotal(n: nat)
    requires n <= MAX_RETRIES
    ensures BackoffSum(n) <= BackoffSum(MAX_RETRIES) == 362
  {
    Powers();
    assert BackoffSum(0) == 0 && BackoffSum(1) == 2 && BackoffSum(2) == 6;
    assert BackoffSum(3) == 14 && BackoffSum(4) == 30;
    assert BackoffSum(5) == 62 && BackoffSum(6) == 122;
    assert BackoffSum(7) == 182 && BackoffSum(8) == 242;
    assert BackoffSum(9) == 302 && BackoffSum(10) == 362;
  }

  lemma BeginCounts(partial: Option<Bytes>, dest: Option<Bytes>, cumulative: nat, start: Start)
    ensures var l := Begin(partial, dest, cumulative, start);
            Counted(l) && l.requests == 0 && TurnsLeft(l) <= 22
  {}

  /** Ten retries and 362 seconds of requested back-off at most, always; and 22 requests
      beside those without a Range that are answered 416. */
  lemma DownloadIsBounded(partial: Option<Bytes>, dest: Option<Bytes>, cumulative: nat, start: Start,
                          world: World, limit: nat)
    ensures var l := Download(partial, dest, cumulative, start, world, limit);
            var bare := Bare(Begin(partial, dest, cumulative, start), world, limit);
            && l.retries <= 10
            && l.backoff <= 362
            && l.requests <= 22 + bare
            && (limit >= 22 + bare ==> !l.outcome.Running?)
  {
    var b := Begin(partial, dest, cumulative, start);
    BeginCounts(partial, dest, cumulative, start);
    RunCounts(b, world, limit);
    BackoffTotal(Run(b, world, limit).retries);
  }

  // ----- exactly when the loop ends ------------------------------------------

  ghost predicate Ends(l: Local, world: World) {
    exists limit: nat :: !Run(l, world, limit).outcome.Running?
  }

  /** Only finitely many requests without a Range are answered 416. */
  ghost predicate FinitelyBare(l: Local, world: World) {
    exists bound: nat :: BareAtMost(l, world, bound)
  }

  ghost predicate BareAtMost(l: Local, world: World, bound: nat) {
    forall limit: nat :: Bare(l, world, limit) <= bound
  }

  /** A run that has ended receives nothing more. */
  lemma {:induction false} BareStops(l: Local, world: World, stop: nat, limit: nat)
    requires !Run(l, world, stop).outcome.Running?
    ensures Bare(l, world, limit) <= stop
    decreases limit
  {
    if l.outcome.Running? && limit > 0 {
      BareStops(Turn(l, world(l.requests, l.fileBytes)), world, stop - 1, limit - 1);
    }
  }

  /** The request loop ends if and only if finitely many of its requests without a Range
      are answered 416. */
  lemma EndsExactly(l: Local, world: World)
    requires Counted(l)
    ensures Ends(l, world) <==> FinitelyBare(l, world)
  {
    if stop: nat :| !Run(l, world, stop).outcome.Running? {
      forall limit: nat ensures Bare(l, world, limit) <= stop { BareStops(l, world, stop, limit); }
      assert BareAtMost(l, world, stop);
    }
    if bound: nat :| BareAtMost(l, world, bound) {
      var limit := TurnsLeft(l) + bound;
      assert Bare(l, world, limit) <= bound;
      RunCounts(l, world, limit);
    }
  }

  /** So does every download. */
  lemma DownloadEndsExactly(partial: Option<Bytes>, dest: Option<Bytes>, cumulative: nat, start: Start, world: World)
    ensures var l := Begin(partial, dest, cumulative, start);
            (exists limit: nat :: !Download(partial, dest, cumulative, start, world, limit).outcome.Running?)
            <==> FinitelyBare(l, world)
  {
    var l := Begin(partial, dest, cumulative, start);
    BeginCounts(partial, dest, cumulative, start);
    EndsExactly(l, world);
    assert forall limit: nat :: Download(partial, dest, cumulative, start, world, limit) == Run(l, world, limit);
  }

  // ----- the bounds are met -------------------------------------------------------

  /** A server that answers 416 to everything. */
  function StubbornServer(): World {
    (i: nat, offset: nat) => Attempt(false, Response(416, None, None, None, [], Complete), true, true, true, true, true)
  }

  lemma {:induction false} StubbornRun(l: Local, limit: nat)
    requires l.outcome.Running? && l.fileTotal == 0
    ensures Run(l, StubbornServer(), limit).outcome.Running?
    decreases limit
  {
    if limit > 0 {
      StubbornRun(Turn(l, StubbornServer()(l.requests, l.fileBytes)), limit - 1);
    }
  }

  /** 416 without a Range is retried for ever: no retry is counted and no bound applies. */
  lemma StubbornServerNeverEnds(limit: nat)
    ensures Download(None, None, 0, Start(true, 0, true, true), StubbornServer(), limit).outcome.Running?
  {
    StubbornRun(Begin(None, None, 0, Start(true, 0, true, true)), limit);
  }

  /** Refuses every resume, and cuts every fresh body after one byte. */
  function FlakyServer(): World {
    (i: nat, offset: nat) =>
      Attempt(false,
              if offset > 0 then Response(416, None, None, None, [], Complete)
              else Response(200, None, None, None, [Chunk([0], false, 1)], Interrupted),
              true, true, true, true, true)
  }

  function OneByteHeld(retries: nat, requests: nat): Local {
    Local(Some([0]), None, 1, 0, 1, retries, requests, BackoffSum(retries), Running)
  }

  lemma FlakyPair(retries: nat, requests: nat)
    ensures var l := OneByteHeld(retries, requests);
            var r := Turn(l, FlakyServer()(requests, 1));
            && r == l.(partial := None, fileBytes := 0, cumulative := 0, requests := requests + 1)
            && Turn(r, FlakyServer()(requests + 1, 0)) ==
                 if retries >= MAX_RETRIES then Fail(OneByteHeld(retries, requests + 2), RetriesExhausted)
                 else OneByteHeld(retries + 1, requests + 2)
  {
    var l := OneByteHeld(retries, requests);
    var r := Turn(l, FlakyServer()(requests, 1));
    var body := [Chunk([0], false, 1)];
    assert body[1..] == [];
    var o := Open(Accept(r.(requests := r.requests + 1), FlakyServer()(requests + 1, 0).reply, true));
    assert o.partial.value == [] && [] + [0] == [0];
    assert Receive(o, body, true) == Receive(Append(o, [0]), [], true) == Append(o, [0]);
  }

  lemma FlakyPairRuns(retries: nat, requests: nat, n: nat)
    ensures Run(OneByteHeld(retries, requests), FlakyServer(), n + 2)
            == Run(if retries >= MAX_RETRIES then Fail(OneByteHeld(retries, requests + 2), RetriesExhausted)
                   else OneByteHeld(retries + 1, requests + 2), FlakyServer(), n)
  {
    var l := OneByteHeld(retries, requests);
    FlakyPair(retries, requests);
    RunStep(l, FlakyServer(), n + 2);
    RunStep(Turn(l, FlakyServer()(requests, 1)), FlakyServer(), n + 1);
  }

  predicate FlakyEnds(retries: nat, requests: nat, n: nat)
    requires retries <= MAX_RETRIES
  {
    Run(OneByteHeld(retries, requests), FlakyServer(), n + 2)
    == Fail(OneByteHeld(MAX_RETRIES, requests + 2 * (MAX_RETRIES - retries) + 2), RetriesExhausted)
  }

  lemma FlakyLast(requests: nat, n: nat)
    ensures FlakyEnds(MAX_RETRIES, requests, n)
  {
    FlakyPairRuns(MAX_RETRIES, requests, n);
    RunStops(Fail(OneByteHeld(MAX_RETRIES, requests + 2), RetriesExhausted), FlakyServer(), n);
  }

  lemma FlakyNext(retries: nat, requests: nat, n: nat)
    requires retries < MAX_RETRIES && n >= 2 && FlakyEnds(retries + 1, requests + 2, n - 2)
    ensures FlakyEnds(retries, requests, n)
  {
    FlakyPairRuns(retries, requests, n);
  }

  lemma {:induction false} FlakyRun(retries: nat, requests: nat, n: nat)
    requires retries <= MAX_RETRIES && n >= 2 * (MAX_RETRIES - retries)
    ensures FlakyEnds(retries, requests, n)
    decreases MAX_RETRIES - retries
  {
    if retries == MAX_RETRIES {
      FlakyLast(requests, n);
    } else {
      FlakyRun(retries + 1, requests + 2, n - 2);
      FlakyNext(retries, requests, n);
    }
  }

  /** The three bounds of `DownloadIsBounded` cannot be improved. */
  lemma BoundsAreMet(limit: nat)
    requires limit >= 22
    ensures forall i, offset :: !IsBare(offset, FlakyServer()(i, offset))
    ensures var l := Download(Some([0]), None, 1, Start(true, 0, true, true), FlakyServer(), limit);
            l.outcome == Failed(RetriesExhausted) && l.requests == 22 && l.retries == 10 && l.backoff == 362
  {
    assert Begin(Some([0]), None, 1, Start(true, 0, true, true)) == OneByteHeld(0, 0);
    FlakyRun(0, 0, limit - 2);
    BackoffTotal(MAX_RETRIES);
  }

  // ----- byte accounting ------------------------------------------------------

  /** `others` is what the counter owes to the other shards. While the loop runs, the
      counter is that plus `fileBytes`, and `fileBytes` is the size of the partial file
      unless a reset failed to delete it. Once the file is promoted, the counter is the
      rest plus the size of the destination. */
  predicate Balanced(l: Local, others: nat) {
    match l.outcome
    case Running =>
      && l.cumulative == others + l.fileBytes
      && (l.fileBytes > 0 ==> Size(l.partial) == l.fileBytes)
    case Done => l.dest.Some? && l.partial.None? && l.cumulative == others + |l.dest.value|
    case Failed(_) => l.cumulative >= others
  }

  lemma AcceptedTurnIsBalanced(l: Local, a: Attempt, others: nat)
    requires l.outcome.Running? && Balanced(l, others) && Accepted(a)
    ensures Balanced(Turn(l, a), others)
  {
    var l1 := l.(requests := l.requests + 1);
    var o := Open(Accept(l1, a.reply, a.removes));
    assert o.fileBytes > 0 ==> SetLen(l.partial.value, l.fileBytes) == l.partial.value;
    ReceiveAppends(o, a.reply.body, a.removes);
    ReceiveKeepsFloor(o, a.reply.body, a.removes, others);
    var r := Receive(o, a.reply.body, a.removes);
    assert Turn(l, a) == if a.opens then Close(r, a.reply.ending, a) else Fail(Accept(l1, a.reply, a.removes), DiskError);
  }

  lemma OtherTurnIsBalanced(l: Local, a: Attempt, others: nat)
    requires l.outcome.Running? && Balanced(l, others) && !Accepted(a)
    ensures Balanced(Turn(l, a), others)
  {}

  lemma TurnIsBalanced(l: Local, a: Attempt, others: nat)
    requires l.outcome.Running? && Balanced(l, others)
    ensures Balanced(Turn(l, a), others)
  {
    if Accepted(a) { AcceptedTurnIsBalanced(l, a, others); } else { OtherTurnIsBalanced(l, a, others); }
  }

  lemma {:induction false} ReceiveKeepsFloor(l: Local, body: seq<Chunk>, removes: bool, others: nat)
    requires l.partial.Some? && l.cumulative >= others
    ensures Receive(l, body, removes).cumulative >= others
    decreases |body|
  {
    if body != [] && l.outcome.Running? && !body[0].cancelled && Writes(body[0]) {
      ReceiveKeepsFloor(Append(l, body[0].data), body[1..], removes, others);
    }
  }

  lemma {:induction false} RunIsBalanced(l: Local, world: World, limit: nat, others: nat)
    requires Balanced(l, others)
    ensures Balanced(Run(l, world, limit), others)
    decreases limit
  {
    if l.outcome.Running? && limit > 0 {
      TurnIsBalanced(l, world(l.requests, l.fileBytes), others);
      RunIsBalanced(Turn(l, world(l.requests, l.fileBytes)), world, limit - 1, others);
    }
  }

  /** At every loop head the counter covers the other shards and this file's bytes, so
      none of the saturating subtractions (463, 501, 528) ever saturates. */
  lemma DownloadIsBalanced(partial: Option<Bytes>, dest: Option<Bytes>, cumulative: nat, start: Start,
                           world: World, limit: nat)
    requires cumulative >= Size(partial)
    ensures Balanced(Download(partial, dest, cumulative, start, world, limit), cumulative - Size(partial))
    ensures var l := Download(partial, dest, cumulative, start, world, limit);
            l.outcome.Running? ==> SaturatingSub(l.cumulative, l.fileBytes) == cumulative - Size(partial)
  {
    RunIsBalanced(Begin(partial, dest, cumulative, start), world, limit, cumulative - Size(partial));
  }

  /** Deleting works whenever it is tried. */
  ghost predicate Deletes(start: Start, world: World) {
    start.removes && forall i, offset :: world(i, offset).removes
  }

  lemma {:induction false} RunHoldsPartial(l: Local, world: World, limit: nat)
    requires (l.outcome.Running? ==> Size(l.partial) == l.fileBytes) && forall i, offset :: world(i, offset).removes
    ensures Run(l, world, limit).outcome.Running? ==> Size(Run(l, world, limit).partial) == Run(l, world, limit).fileBytes
    decreases limit
  {
    if l.outcome.Running? && limit > 0 {
      var a := world(l.requests, l.fileBytes);
      if Accepted(a) {
        ReceiveAppends(Open(Accept(l.(requests := l.requests + 1), a.reply, a.removes)), a.reply.body, a.removes);
      }
      RunHoldsPartial(Turn(l, a), world, limit - 1);
    }
  }

  /** Then `fileBytes` is the size of the partial file at every loop head. */
  lemma DownloadHoldsPartial(partial: Option<Bytes>, dest: Option<Bytes>, cumulative: nat, start: Start,
                             world: World, limit: nat)
    requires Deletes(start, world)
    ensures var l := Download(partial, dest, cumulative, start, world, limit);
            l.outcome.Running? ==> Size(l.partial) == l.fileBytes
  {
    RunHoldsPartial(Begin(partial, dest, cumulative, start), world, limit);
  }
}
