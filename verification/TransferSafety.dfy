/** Exactly when a download can be trusted, whatever else happens. */
module TransferSafety {
  import opened Wrappers
  import opened Transfer
  import opened TransferCorrect

  /** From this leftover and this size from HEAD, a download that succeeds leaves the
      remote file, for every server that sends all it is asked for. */
  ghost predicate Safe(partial: Option<Bytes>, headTotal: nat, remote: Bytes) {
    forall start: Start, world: World, limit: nat ::
      start.headTotal == headTotal && AnswersInFull(remote, world)
      && Download(partial, None, Size(partial), start, world, limit).outcome.Done? ==>
        Download(partial, None, Size(partial), start, world, limit).dest == Some(remote)
  }

  /** The same for every compliant server. */
  ghost predicate SafeFromAnyServer(partial: Option<Bytes>, headTotal: nat, remote: Bytes) {
    forall start: Start, world: World, limit: nat ::
      start.headTotal == headTotal && CompliantWorld(remote, world)
      && Download(partial, None, Size(partial), start, world, limit).outcome.Done? ==>
        Download(partial, None, Size(partial), start, world, limit).dest == Some(remote)
  }

  // ----- servers ---------------------------------------------------------------

  function Works(reply: Reply): Attempt {
    Attempt(false, reply, true, true, true, true, true)
  }

  function Body(data: Bytes): seq<Chunk> {
    [Chunk(data, false, |data|)]
  }

  lemma BodyContent(data: Bytes)
    ensures Content(Body(data)) == data
  {
    assert Body(data)[1..] == [];
    assert Content(Body(data)) == data + Content(Body(data)[1..]);
  }

  lemma ReceiveBody(l: Local, data: Bytes)
    requires l.partial.Some? && l.outcome.Running?
    ensures Receive(l, Body(data), true) == Append(l, data)
  {
    assert Body(data)[1..] == [];
    assert Receive(l, Body(data), true) == Receive(Append(l, data), Body(data)[1..], true);
  }

  /** `size` bytes of the file without a Range, and then the stream is cut. */
  function CutFile(remote: Bytes, size: nat): Reply
    requires size <= |remote|
  {
    Response(200, None, None, None, Body(remote[..size]), Interrupted)
  }

  /** The bytes from `first` to before `stop` of a range that goes to `last`. */
  function RangeOf(remote: Bytes, first: nat, stop: nat, last: nat, ending: Ending): Reply
    requires first <= stop <= |remote|
  {
    Response(206, None, Some(ByteRange(first, last)), None, Body(remote[first..stop]), ending)
  }

  function Unsatisfiable(): Reply {
    Response(416, None, None, None, [], Complete)
  }

  lemma CutFileComplies(remote: Bytes, size: nat)
    requires size <= |remote|
    ensures Compliant(remote, 0, CutFile(remote, size)) && InFull(remote, 0, CutFile(remote, size))
  {
    BodyContent(remote[..size]);
    assert remote[..size] <= remote;
  }

  lemma RangeComplies(remote: Bytes, first: nat, stop: nat, last: nat, ending: Ending)
    requires 0 < first <= last < |remote| && first <= stop <= last + 1
    requires ending.Complete? ==> stop == last + 1
    ensures Compliant(remote, first, RangeOf(remote, first, stop, last, ending))
  {
    BodyContent(remote[first..stop]);
    assert remote[first..stop] <= remote[first..last + 1];
  }

  /** Sends all it is asked for. */
  function RangeServer(remote: Bytes): World {
    (i: nat, offset: nat) =>
      Works(if 0 < offset < |remote| then RangeOf(remote, offset, |remote|, |remote| - 1, Complete) else NoResponse)
  }

  lemma RangeServerAnswers(remote: Bytes)
    ensures AnswersInFull(remote, RangeServer(remote))
  {
    forall i: nat, offset: nat
      ensures Compliant(remote, offset, RangeServer(remote)(i, offset).reply)
      ensures InFull(remote, offset, RangeServer(remote)(i, offset).reply)
    {
      if 0 < offset < |remote| { RangeComplies(remote, offset, |remote|, |remote| - 1, Complete); }
    }
  }

  /** Is cut off whenever `size` bytes have been sent, and then refuses to go on. */
  function CuttingServer(remote: Bytes, size: nat): World
    requires size < |remote|
  {
    (i: nat, offset: nat) =>
      Works(if offset == 0 then CutFile(remote, size)
            else if offset < size then RangeOf(remote, offset, size, |remote| - 1, Interrupted)
            else Unsatisfiable())
  }

  lemma CuttingServerAnswers(remote: Bytes, size: nat)
    requires size < |remote|
    ensures AnswersInFull(remote, CuttingServer(remote, size))
  {
    forall i: nat, offset: nat
      ensures Compliant(remote, offset, CuttingServer(remote, size)(i, offset).reply)
      ensures InFull(remote, offset, CuttingServer(remote, size)(i, offset).reply)
    {
      if offset == 0 {
        CutFileComplies(remote, size);
        assert CuttingServer(remote, size)(i, offset) == Works(CutFile(remote, size));
      } else if offset < size {
        RangeComplies(remote, offset, size, |remote| - 1, Interrupted);
      } else {
        assert CuttingServer(remote, size)(i, offset) == Works(Unsatisfiable());
      }
    }
  }

  /** Is cut off after one byte, and then sends one byte at a time. */
  function MiserlyServer(remote: Bytes): World
    requires |remote| >= 3
  {
    (i: nat, offset: nat) =>
      Works(if offset == 0 then CutFile(remote, 1)
            else if offset == 1 then RangeOf(remote, 1, 2, 1, Complete)
            else Unsatisfiable())
  }

  lemma MiserlyServerComplies(remote: Bytes)
    requires |remote| >= 3
    ensures CompliantWorld(remote, MiserlyServer(remote))
  {
    forall i: nat, offset: nat
      ensures Compliant(remote, offset, MiserlyServer(remote)(i, offset).reply)
    {
      if offset == 0 {
        CutFileComplies(remote, 1);
        assert MiserlyServer(remote)(i, offset) == Works(CutFile(remote, 1));
      } else if offset == 1 {
        RangeComplies(remote, 1, 2, 1, Complete);
        assert MiserlyServer(remote)(i, offset) == Works(RangeOf(remote, 1, 2, 1, Complete));
      } else {
        assert MiserlyServer(remote)(i, offset) == Works(Unsatisfiable());
      }
    }
  }

  // ----- single turns ------------------------------------------------------------

  /** Between turns: the file holds the bytes that were counted. */
  predicate Held(l: Local, size: nat) {
    l.outcome.Running? && l.fileBytes == size && l.retries < MAX_RETRIES && (size > 0 ==> l.partial.Some? && |l.partial.value| == size)
  }

  lemma CutFileTurn(l: Local, remote: Bytes, size: nat)
    requires Held(l, 0) && 0 < size <= |remote|
    ensures var r := Turn(l, Works(CutFile(remote, size)));
            Held(r.(retries := l.retries), size) && r.retries == l.retries + 1 && r.fileTotal == l.fileTotal
  {
    var l1 := Accept(l.(requests := l.requests + 1), CutFile(remote, size), true);
    ReceiveBody(Open(l1), remote[..size]);
    assert SetLen(l1.partial.Or([]), 0) == [];
  }

  /** The held bytes and those that were sent, and nothing looked at. */
  lemma RangeTurn(l: Local, remote: Bytes, first: nat, stop: nat, last: nat, ending: Ending)
    requires Held(l, first) && 0 < first <= stop <= |remote|
    ensures var r := Turn(l, Works(RangeOf(remote, first, stop, last, ending)));
            var all := l.partial.value + remote[first..stop];
            && r.fileTotal == l.fileTotal
            && (ending.Complete? ==> r.outcome.Done? && r.dest == Some(all))
            && (ending.Interrupted? ==> r.outcome.Running? && r.fileBytes == stop && r.partial == Some(all))
  {
    var reply := RangeOf(remote, first, stop, last, ending);
    var l1 := Accept(l.(requests := l.requests + 1), reply, true);
    ReceiveBody(Open(l1), remote[first..stop]);
    assert SetLen(l.partial.value, first) == l.partial.value;
    assert Turn(l, Works(reply)) == Close(Append(Open(l1), remote[first..stop]), ending, Works(reply));
  }

  lemma RefusedTurn(l: Local)
    requires l.outcome.Running? && (l.fileTotal == 0 || l.fileBytes != l.fileTotal)
    ensures Turn(l, Works(Unsatisfiable())) == Reset(l.(requests := l.requests + 1), true)
  {}

  // ----- unsafe starts, against a server that answers in full -------------------------

  function StartWith(headTotal: nat): Start {
    Start(true, headTotal, true, true)
  }

  lemma Refute(partial: Option<Bytes>, headTotal: nat, remote: Bytes, world: World, limit: nat)
    requires AnswersInFull(remote, world)
    requires var l := Download(partial, None, Size(partial), StartWith(headTotal), world, limit);
             l.outcome.Done? && l.dest != Some(remote)
    ensures !Safe(partial, headTotal, remote)
  {
    assert StartWith(headTotal).headTotal == headTotal;
  }

  lemma SizeIsNotProof(partial: Option<Bytes>, headTotal: nat, remote: Bytes)
    requires headTotal > 0 && Size(partial) == headTotal && partial != Some(remote)
    ensures !Safe(partial, headTotal, remote)
  {
    RangeServerAnswers(remote);
    RunStops(Begin(partial, None, Size(partial), StartWith(headTotal)), RangeServer(remote), 0);
    Refute(partial, headTotal, remote, RangeServer(remote), 0);
  }

  lemma CorruptionStays(held: Bytes, headTotal: nat, remote: Bytes)
    requires 0 < |held| < |remote| && !(held <= remote) && (headTotal == 0 || |held| < headTotal)
    ensures !Safe(Some(held), headTotal, remote)
  {
    var l, world := Begin(Some(held), None, |held|, StartWith(headTotal)), RangeServer(remote);
    RangeServerAnswers(remote);
    RangeTurn(l, remote, |held|, |remote|, |remote| - 1, Complete);
    RunStep(l, world, 1);
    RunStops(Turn(l, world(l.requests, l.fileBytes)), world, 0);
    var all := held + remote[|held|..];
    assert all[..|held|] == held;
    Refute(Some(held), headTotal, remote, world, 1);
  }

  /** Once the counted size reaches a size that is too small, 416 promotes the file. */
  lemma SmallTotalPromotes(l: Local, remote: Bytes, size: nat, limit: nat)
    requires 0 < size < |remote| && l.outcome.Running? && l.fileTotal == size && limit >= 1
    requires l.fileBytes == size && l.partial.Some? && |l.partial.value| == size
    ensures Run(l, CuttingServer(remote, size), limit).outcome.Done?
    ensures Run(l, CuttingServer(remote, size), limit).dest == l.partial
  {
    var world := CuttingServer(remote, size);
    assert world(l.requests, size) == Works(Unsatisfiable());
    RunStep(l, world, limit);
    RunStops(Turn(l, world(l.requests, l.fileBytes)), world, limit - 1);
  }

  lemma SmallTotalTruncates(partial: Option<Bytes>, headTotal: nat, remote: Bytes)
    requires 0 < headTotal < |remote| && Size(partial) != headTotal
    ensures !Safe(partial, headTotal, remote)
  {
    var l, world := Begin(partial, None, Size(partial), StartWith(headTotal)), CuttingServer(remote, headTotal);
    CuttingServerAnswers(remote, headTotal);
    RunStep(l, world, 2);
    var r := Turn(l, world(l.requests, l.fileBytes));
    if l.fileBytes == 0 {
      CutFileTurn(l, remote, headTotal);
    } else {
      RangeTurn(l, remote, l.fileBytes, headTotal, |remote| - 1, Interrupted);
    }
    SmallTotalPromotes(r, remote, headTotal, 1);
    Refute(partial, headTotal, remote, world, 2);
  }

  /** Exactly the leftovers and HEAD sizes from which a server that sends all it is asked
      for can do no harm. */
  lemma SafeExactly(partial: Option<Bytes>, headTotal: nat, remote: Bytes)
    ensures Safe(partial, headTotal, remote) <==> SafeStart(partial, headTotal, remote)
  {
    if SafeStart(partial, headTotal, remote) {
      forall start: Start, world: World, limit: nat |
        start.headTotal == headTotal && AnswersInFull(remote, world)
        && Download(partial, None, Size(partial), start, world, limit).outcome.Done?
        ensures Download(partial, None, Size(partial), start, world, limit).dest == Some(remote)
      {
        PromotedIsRemote(partial, None, Size(partial), start, world, limit, remote);
      }
    } else if headTotal > 0 && Size(partial) == headTotal {
      SizeIsNotProof(partial, headTotal, remote);
    } else if 0 < headTotal < |remote| {
      SmallTotalTruncates(partial, headTotal, remote);
    } else {
      CorruptionStays(partial.value, headTotal, remote);
    }
  }

  // ----- against every compliant server ------------------------------------------------

  lemma MiserFromOne(l: Local, remote: Bytes, limit: nat)
    requires |remote| >= 3 && l.outcome.Running? && l.fileBytes == 1 && l.partial.Some? && |l.partial.value| == 1
    requires l.retries < MAX_RETRIES && limit >= 1
    ensures var r := Run(l, MiserlyServer(remote), limit); r.outcome.Done? && r.dest.Some? && |r.dest.value| == 2
  {
    var world := MiserlyServer(remote);
    RangeTurn(l, remote, 1, 2, 1, Complete);
    RunStep(l, world, limit);
    RunStops(Turn(l, world(l.requests, 1)), world, limit - 1);
  }

  lemma MiserFromNone(l: Local, remote: Bytes, limit: nat)
    requires |remote| >= 3 && Held(l, 0) && l.retries == 0 && limit >= 2
    ensures var r := Run(l, MiserlyServer(remote), limit); r.outcome.Done? && r.dest.Some? && |r.dest.value| == 2
  {
    var world := MiserlyServer(remote);
    CutFileTurn(l, remote, 1);
    RunStep(l, world, limit);
    MiserFromOne(Turn(l, world(l.requests, 0)), remote, limit - 1);
  }

  lemma MiserTruncates(partial: Option<Bytes>, headTotal: nat, remote: Bytes)
    requires |remote| >= 3 && (headTotal == 0 || Size(partial) != headTotal)
    ensures var r := Download(partial, None, Size(partial), StartWith(headTotal), MiserlyServer(remote), 3);
            r.outcome.Done? && r.dest != Some(remote)
  {
    var l, world := Begin(partial, None, Size(partial), StartWith(headTotal)), MiserlyServer(remote);
    if l.fileBytes == 0 {
      MiserFromNone(l, remote, 3);
    } else if l.fileBytes == 1 {
      MiserFromOne(l, remote, 3);
    } else {
      RunStep(l, world, 3);
      RefusedTurn(l);
      assert world(l.requests, l.fileBytes) == Works(Unsatisfiable());
      MiserFromNone(Turn(l, world(l.requests, l.fileBytes)), remote, 2);
    }
  }

  /** A file of at most two bytes leaves a server no room to send less than it was asked. */
  lemma NoRoomToStopShort(remote: Bytes, world: World)
    requires |remote| <= 2 && CompliantWorld(remote, world)
    ensures AnswersInFull(remote, world)
  {
    forall i, offset ensures InFull(remote, offset, world(i, offset).reply) {
      assert Compliant(remote, offset, world(i, offset).reply);
    }
  }

  /** What it takes to be safe from every compliant server: the file is there already, in
      full and under its right size, or it has at most two bytes. */
  predicate NothingToAskFor(partial: Option<Bytes>, headTotal: nat, remote: Bytes) {
    if headTotal > 0 && Size(partial) == headTotal then partial == Some(remote)
    else |remote| <= 2 && SafeStart(partial, headTotal, remote)
  }

  lemma SafeFromAnyServerExactly(partial: Option<Bytes>, headTotal: nat, remote: Bytes)
    ensures SafeFromAnyServer(partial, headTotal, remote) <==> NothingToAskFor(partial, headTotal, remote)
  {
    if NothingToAskFor(partial, headTotal, remote) {
      forall start: Start, world: World, limit: nat |
        start.headTotal == headTotal && CompliantWorld(remote, world)
        && Download(partial, None, Size(partial), start, world, limit).outcome.Done?
        ensures Download(partial, None, Size(partial), start, world, limit).dest == Some(remote)
      {
        if headTotal > 0 && Size(partial) == headTotal {
          RunStops(Begin(partial, None, Size(partial), start), world, limit);
        } else {
          NoRoomToStopShort(remote, world);
          PromotedIsRemote(partial, None, Size(partial), start, world, limit, remote);
        }
      }
    } else if |remote| >= 3 && (headTotal == 0 || Size(partial) != headTotal) {
      MiserlyServerComplies(remote);
      MiserTruncates(partial, headTotal, remote);
      assert StartWith(headTotal).headTotal == headTotal;
    } else {
      SafeExactly(partial, headTotal, remote);
      var start: Start, world: World, limit: nat :|
        start.headTotal == headTotal && AnswersInFull(remote, world)
        && Download(partial, None, Size(partial), start, world, limit).outcome.Done?
        && Download(partial, None, Size(partial), start, world, limit).dest != Some(remote);
      assert CompliantWorld(remote, world);
    }
  }
}
