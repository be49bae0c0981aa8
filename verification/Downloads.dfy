/** The download loops as the source runs them: files and the byte counter are updated in
    place. Each method is proved to do what the functions of `Transfer` and `Shards` say. */
module Downloads {
  import opened Wrappers
  import opened Numbers
  import opened Transfer
  import opened Shards
  import opened TransferCorrect

  class Downloader {
    var files: Files
    /** `cumulative_bytes`, shared by all shards. */
    var cumulative: nat

    constructor (files: Files)
      ensures this.files == files && cumulative == 0
    {
      this.files := files;
      cumulative := 0;
    }

    /** How far the download of `destination` has come. */
    ghost function Here(destination: string, fileBytes: nat, fileTotal: nat, retries: nat, requests: nat,
                        backoff: nat, outcome: Outcome): Local
      reads this
    {
      Local(Lookup(files, PartialPath(destination)), Lookup(files, destination),
            fileBytes, fileTotal, cumulative, retries, requests, backoff, outcome)
    }

    twostate predicate OnlyTouches(destination: string)
      reads this
    {
      forall p :: p != destination && p != PartialPath(destination) ==> Lookup(files, p) == old(Lookup(files, p))
    }

    method RemoveFile(path: string, removes: bool)
      modifies this`files
      ensures files == if removes then old(files) - {path} else old(files)
    {
      if removes {
        files := files - {path};
      }
    }

    /** 656: the outcome of the final rename. */
    method Rename(destination: string, renames: bool) returns (outcome: Outcome)
      modifies this`files
      ensures OnlyTouches(destination)
      ensures forall b, t, r, q, k ::
                Here(destination, b, t, r, q, k, outcome) == Promote(old(Here(destination, b, t, r, q, k, Running)), renames)
    {
      var path := PartialPath(destination);
      assert path != destination;
      if renames && path in files {
        files := (files - {path})[destination := files[path]];
        outcome := Done;
      } else {
        outcome := Failed(DiskError);
      }
    }

    /** 573-631: append the chunks of one body. */
    method ReceiveBody(destination: string, body: seq<Chunk>, removes: bool, fileBytes: nat)
      returns (received: nat, outcome: Outcome)
      requires PartialPath(destination) in files
      modifies this
      ensures OnlyTouches(destination)
      ensures forall t, r, q, k ::
                Here(destination, received, t, r, q, k, outcome)
                == Receive(old(Here(destination, fileBytes, t, r, q, k, Running)), body, removes)
    {
      var path := PartialPath(destination);
      received, outcome := fileBytes, Running;
      ghost var start := Here(destination, fileBytes, 0, 0, 0, 0, Running);
      var i := 0;
      while i < |body|
        invariant 0 <= i <= |body| && path in files
        invariant OnlyTouches(destination)
        invariant forall t, r, q, k ::
                    Receive(Here(destination, received, t, r, q, k, Running), body[i..], removes)
                    == Receive(old(Here(destination, fileBytes, t, r, q, k, Running)), body, removes)
      {
        var chunk := body[i];
        assert body[i..][0] == chunk && body[i..][1..] == body[i + 1..];
        if chunk.cancelled {
          RemoveFile(path, removes);
          outcome := Failed(Cancelled);
          return;
        }
        if !Writes(chunk) {
          files := files[path := files[path] + chunk.data[..chunk.written]];
          outcome := Failed(DiskError);
          return;
        }
        files := files[path := files[path] + chunk.data];
        received := received + |chunk.data|;
        cumulative := cumulative + |chunk.data|;
        i := i + 1;
      }
    }

    /** 525-568: what a successful reply changes before its body is read. */
    method OpenPartial(destination: string, reply: Reply, a: Attempt, fileBytes: nat, fileTotal: nat)
      returns (bytes: nat, total: nat, outcome: Outcome)
      requires reply.Response?
      modifies this
      ensures OnlyTouches(destination)
      ensures outcome.Running? ==> PartialPath(destination) in files
      ensures forall r, q, k ::
                Here(destination, bytes, total, r, q, k, outcome)
                == var l := Accept(old(Here(destination, fileBytes, fileTotal, r, q, k, Running)), reply, a.removes);
                   if a.opens then Open(l) else Fail(l, DiskError)
    {
      var path := PartialPath(destination);
      bytes, total, outcome := fileBytes, fileTotal, Running;
      if bytes > 0 && reply.status == 200 {
        cumulative := SaturatingSub(cumulative, bytes);
        bytes := 0;
        RemoveFile(path, a.removes);
      }
      if total == 0 {
        var learned := if bytes > 0 then reply.rangeTotal else reply.contentLength;
        if learned.Some? {
          total := learned.value;
        }
      }
      if !a.opens {
        outcome := Failed(DiskError);
        return;
      }
      if path !in files {
        files := files[path := []];
      }
      assert |files[path]| == bytes ==> SetLen(files[path], bytes) == files[path];
      if |files[path]| != bytes {
        files := files[path := SetLen(files[path], bytes)];
      }
    }

    /** 482-492, 512-522, 637-650: count a retry and sleep, unless none is left. */
    method Retry(retries: nat, backoff: nat, slept: bool, exhausted: Failure)
      returns (retries': nat, backoff': nat, outcome: Outcome)
      ensures if retries >= MAX_RETRIES then retries' == retries && backoff' == backoff && outcome == Failed(exhausted)
              else retries' == retries + 1 && backoff' == backoff + Delay(retries + 1)
                   && outcome == if slept then Running else Failed(Cancelled)
    {
      retries', backoff' := retries, backoff;
      if retries >= MAX_RETRIES {
        outcome := Failed(exhausted);
        return;
      }
      retries' := retries + 1;
      backoff' := backoff + Min(RETRY_BASE_DELAY * Pow2(retries' - 1), RETRY_MAX_DELAY);
      outcome := if slept then Running else Failed(Cancelled);
    }

    /** 525-656: the rest of a turn whose request was answered with success. */
    method TakeBody(destination: string, a: Attempt, fileBytes: nat, fileTotal: nat, retries: nat, ghost requests: nat,
                    backoff: nat)
      returns (bytes: nat, total: nat, retries': nat, backoff': nat, outcome: Outcome)
      requires a.reply.Response? && IsSuccess(a.reply.status) && !a.cancelled
      modifies this
      ensures OnlyTouches(destination)
      ensures Here(destination, bytes, total, retries', requests, backoff', outcome)
              == var l := Accept(old(Here(destination, fileBytes, fileTotal, retries, requests, backoff, Running)), a.reply, a.removes);
                 if a.opens then Close(Receive(Open(l), a.reply.body, a.removes), a.reply.ending, a)
                 else Fail(l, DiskError)
    {
      retries', backoff' := retries, backoff;
      bytes, total, outcome := OpenPartial(destination, a.reply, a, fileBytes, fileTotal);
      if !outcome.Running? {
        return;
      }
      bytes, outcome := ReceiveBody(destination, a.reply.body, a.removes, bytes);
      if !outcome.Running? {
        return;
      }
      if !a.flushes {
        outcome := Failed(DiskError);
        return;
      }
      if a.reply.ending.Interrupted? {
        retries', backoff', outcome := Retry(retries, backoff, a.slept, RetriesExhausted);
        return;
      }
      outcome := Rename(destination, a.renames);
    }

    /** 468-654: one turn of the loop. */
    method TakeTurn(destination: string, a: Attempt, fileBytes: nat, fileTotal: nat, retries: nat, requests: nat, backoff: nat)
      returns (bytes: nat, total: nat, retries': nat, requests': nat, backoff': nat, outcome: Outcome)
      modifies this
      ensures OnlyTouches(destination)
      ensures Here(destination, bytes, total, retries', requests', backoff', outcome)
              == Turn(old(Here(destination, fileBytes, fileTotal, retries, requests, backoff, Running)), a)
    {
      var path := PartialPath(destination);
      bytes, total, retries', requests', backoff', outcome := fileBytes, fileTotal, retries, requests, backoff, Running;
      if a.cancelled {
        RemoveFile(path, a.removes);
        outcome := Failed(Cancelled);
        return;
      }
      requests' := requests + 1;
      match a.reply
      case NoResponse =>
        retries', backoff', outcome := Retry(retries, backoff, a.slept, RetriesExhausted);
      case Response(status, _, _, _, _, _) =>
        if status == 416 {
          if total > 0 && bytes == total {
            outcome := Rename(destination, a.renames);
            return;
          }
          cumulative := SaturatingSub(cumulative, bytes);
          bytes := 0;
          RemoveFile(path, a.removes);
        } else if !IsSuccess(status) {
          if !IsTransient(status) {
            outcome := Failed(BadStatus);
            return;
          }
          retries', backoff', outcome := Retry(retries, backoff, a.slept, BadStatus);
        } else {
          bytes, total, retries', backoff', outcome :=
            TakeBody(destination, a, fileBytes, fileTotal, retries, requests', backoff);
        }
    }

    /** 436-466: before the loop. */
    method BeginFile(destination: string, start: Start) returns (bytes: nat, total: nat, outcome: Outcome)
      modifies this
      ensures OnlyTouches(destination)
      ensures Here(destination, bytes, total, 0, 0, 0, outcome)
              == Begin(old(Lookup(files, PartialPath(destination))), old(Lookup(files, destination)), old(cumulative), start)
    {
      var path := PartialPath(destination);
      bytes, total, outcome := if path in files then |files[path]| else 0, start.headTotal, Running;
      if path in files && !start.measures {
        outcome := Failed(DiskError);
        return;
      }
      if total > 0 && bytes == total {
        outcome := Rename(destination, start.renames);
        return;
      }
      if total > 0 && bytes > total {
        cumulative := SaturatingSub(cumulative, bytes);
        bytes := 0;
        RemoveFile(path, start.removes);
      }
    }

    /** 425-658. `limit` bounds how many turns are looked at; `Running` means it was hit. */
    method DownloadOneFile(destination: string, start: Start, world: World, limit: nat)
      returns (outcome: Outcome, requests: nat, retries: nat, backoff: nat)
      modifies this
      ensures OnlyTouches(destination)
      ensures var l := Download1(old(Disk(files, cumulative)), destination, start, world, limit);
              && outcome == l.outcome && requests == l.requests && retries == l.retries && backoff == l.backoff
              && cumulative == l.cumulative
              && Lookup(files, PartialPath(destination)) == l.partial && Lookup(files, destination) == l.dest
    {
      var fileBytes, fileTotal;
      fileBytes, fileTotal, outcome := BeginFile(destination, start);
      outcome, requests, retries, backoff := TakeTurns(destination, world, limit, fileBytes, fileTotal, outcome);
    }

    /** 468-656: the loop. */
    method TakeTurns(destination: string, world: World, limit: nat, bytes: nat, total: nat, begun: Outcome)
      returns (outcome: Outcome, requests: nat, retries: nat, backoff: nat)
      modifies this
      ensures OnlyTouches(destination)
      ensures var l := Run(old(Here(destination, bytes, total, 0, 0, 0, begun)), world, limit);
              && outcome == l.outcome && requests == l.requests && retries == l.retries && backoff == l.backoff
              && cumulative == l.cumulative
              && Lookup(files, PartialPath(destination)) == l.partial && Lookup(files, destination) == l.dest
    {
      ghost var first := Here(destination, bytes, total, 0, 0, 0, begun);
      requests, retries, backoff, outcome := 0, 0, 0, begun;
      var fileBytes, fileTotal, turns := bytes, total, 0;
      while turns < limit && outcome.Running?
        invariant turns <= limit
        invariant OnlyTouches(destination)
        invariant GoesOn(first, world, limit,
                         Here(destination, fileBytes, fileTotal, retries, requests, backoff, outcome), limit - turns)
      {
        ghost var l := Here(destination, fileBytes, fileTotal, retries, requests, backoff, outcome);
        fileBytes, fileTotal, retries, requests, backoff, outcome :=
          TakeTurn(destination, world(requests, fileBytes), fileBytes, fileTotal, retries, requests, backoff);
        GoesOnStep(first, world, limit, l,
                   Here(destination, fileBytes, fileTotal, retries, requests, backoff, outcome), limit - turns);
        turns := turns + 1;
      }
      RunStops(Here(destination, fileBytes, fileTotal, retries, requests, backoff, outcome), world, limit - turns);
    }

    /** 381-394: what is already on disk. */
    method ScanShards(dests: seq<string>)
      modifies this`cumulative
      ensures cumulative == ShardBytes(files, dests)
    {
      cumulative := 0;
      var i := 0;
      while i < |dests|
        invariant 0 <= i <= |dests|
        invariant cumulative == ShardBytes(files, dests[..i])
      {
        var path := PartialPath(dests[i]);
        if dests[i] in files {
          cumulative := cumulative + |files[dests[i]]|;
        } else if path in files {
          cumulative := cumulative + |files[path]|;
        }
        assert dests[..i + 1][..i] == dests[..i];
        i := i + 1;
      }
      assert dests[..|dests|] == dests;
    }

    /** 345-422. */
    method DownloadSequentially(dests: seq<string>, session: Session, limit: nat) returns (outcome: Outcome)
      modifies this
      ensures (Disk(files, cumulative), outcome)
              == Upto(Disk(old(files), ShardBytes(old(files), dests)), dests, session, limit, |dests|)
    {
      ScanShards(dests);
      ghost var d := Disk(files, cumulative);
      outcome := Done;
      var i := 0;
      while i < |dests| && outcome.Done?
        invariant 0 <= i <= |dests|
        invariant (Disk(files, cumulative), outcome) == Upto(d, dests, session, limit, i)
      {
        ghost var before := Disk(files, cumulative);
        var w := session(i);
        if w.cancelled {
          outcome := Failed(Cancelled);
        } else if dests[i] !in files {
          var requests, retries, backoff;
          outcome, requests, retries, backoff := DownloadOneFile(dests[i], w.start, w.world, limit);
          ghost var l := Download1(before, dests[i], w.start, w.world, limit);
          SameFiles(files, DiskAt(before, dests[i], l).files, before, dests[i], l);
        }
        i := i + 1;
      }
      StaysStopped(d, dests, session, limit, i, |dests|);
    }
  }

  /** What is left of a run when it has come to `l`. */
  predicate GoesOn(first: Local, world: World, limit: nat, l: Local, left: nat) {
    Run(first, world, limit) == Run(l, world, left)
  }

  lemma GoesOnStep(first: Local, world: World, limit: nat, l: Local, next: Local, left: nat)
    requires GoesOn(first, world, limit, l, left) && l.outcome.Running? && left > 0
    requires next == Turn(l, world(l.requests, l.fileBytes))
    ensures GoesOn(first, world, limit, next, left - 1)
  {
    RunStep(l, world, left);
  }

  lemma SameFiles(files: Files, other: Files, d: Disk, destination: string, l: Local)
    requires other == DiskAt(d, destination, l).files
    requires Lookup(files, destination) == l.dest && Lookup(files, PartialPath(destination)) == l.partial
    requires forall p :: p != destination && p != PartialPath(destination) ==> Lookup(files, p) == Lookup(d.files, p)
    ensures files == other
  {
    forall p
      ensures Lookup(files, p) == Lookup(other, p)
    {
      DiskAtLookup(d, destination, l, p);
    }
    assert forall p :: p in files <==> Lookup(files, p).Some?;
    assert forall p :: p in other <==> Lookup(other, p).Some?;
    assert forall p :: p in files ==> Lookup(files, p) == Some(files[p]);
    assert forall p :: p in other ==> Lookup(other, p) == Some(other[p]);
  }

  /** A session that stopped early stays where it is. */
  lemma {:induction false} StaysStopped(d: Disk, dests: seq<string>, session: Session, limit: nat, i: nat, n: nat)
    requires i <= n <= |dests| && (i < n ==> Upto(d, dests, session, limit, i).1 != Done)
    ensures Upto(d, dests, session, limit, n) == Upto(d, dests, session, limit, i)
  {
    if i < n { StaysStopped(d, dests, session, limit, i, n - 1); }
  }
}
