/** Downloading the shards of one model in order
    (download_files_sequentially in desktop/crates/goose-download-manager/src/lib.rs, 345-422). */
module Shards {
  import opened Wrappers
  import opened Transfer
  import opened TransferCorrect
  import opened TransferBounds

  type Files = map<string, Bytes>

  /** `partial_path_for`, 9-16, for a path that ends in a file name. */
  function PartialPath(destination: string): string {
    destination + ".part"
  }

  function Lookup(files: Files, path: string): Option<Bytes> {
    if path in files then Some(files[path]) else None
  }

  function Store(files: Files, path: string, content: Option<Bytes>): Files {
    match content
    case Some(b) => files[path := b]
    case None => files - {path}
  }

  datatype Disk = Disk(files: Files, cumulative: nat)

  /** What the environment answers for one shard: the cancel flag at 398, and the rest. */
  datatype ShardWorld = ShardWorld(cancelled: bool, start: Start, world: World)

  type Session = nat -> ShardWorld

  function Download1(d: Disk, destination: string, start: Start, world: World, limit: nat): Local {
    Download(Lookup(d.files, PartialPath(destination)), Lookup(d.files, destination), d.cumulative, start, world, limit)
  }

  /** The disk when the download of one shard stands at `l`. */
  function DiskAt(d: Disk, destination: string, l: Local): Disk {
    Disk(Store(Store(d.files, PartialPath(destination), l.partial), destination, l.dest), l.cumulative)
  }

  /** The first `n` shards, 397-421. Stops at the first that is not done. */
  function Upto(d: Disk, dests: seq<string>, session: Session, limit: nat, n: nat): (r: (Disk, Outcome))
    requires n <= |dests|
  {
    if n == 0 then (d, Done)
    else
      var (d1, outcome) := Upto(d, dests, session, limit, n - 1);
      if outcome != Done then (d1, outcome)
      else NextShard(d1, dests[n - 1], session(n - 1), limit)
  }

  function NextShard(d: Disk, destination: string, w: ShardWorld, limit: nat): (Disk, Outcome) {
    if w.cancelled then (d, Failed(Cancelled))
    else if destination in d.files then (d, Done)
    else
      var l := Download1(d, destination, w.start, w.world, limit);
      (DiskAt(d, destination, l), l.outcome)
  }

  // ----- accounting -----------------------------------------------------------

  /** A shard counts with its destination if that exists, else with its partial file. */
  function ShardSize(files: Files, destination: string): nat {
    if destination in files then |files[destination]| else Size(Lookup(files, PartialPath(destination)))
  }

  function ShardBytes(files: Files, dests: seq<string>): nat {
    if dests == [] then 0 else ShardBytes(files, dests[..|dests| - 1]) + ShardSize(files, dests[|dests| - 1])
  }

  /** The destinations are distinct and none is the partial path of another. */
  predicate Separate(dests: seq<string>) {
    && (forall i, j :: 0 <= i < j < |dests| ==> dests[i] != dests[j])
    && (forall i, j :: 0 <= i < |dests| && 0 <= j < |dests| ==> dests[i] != PartialPath(dests[j]))
  }

  /** The partial file stands beside its destination, under its name and five characters
      more. */
  lemma PartialPathExtends(destination: string)
    ensures destination < PartialPath(destination) && PartialPath(destination)[|destination|..] == ".part"
  {}

  lemma PartialPathInjective(a: string, b: string)
    requires PartialPath(a) == PartialPath(b)
    ensures a == b
  {
    assert PartialPath(a)[..|a|] == a && PartialPath(b)[..|b|] == b;
  }

  lemma DiskAtLookup(d: Disk, destination: string, l: Local, path: string)
    ensures Lookup(DiskAt(d, destination, l).files, path) ==
              if path == destination then l.dest
              else if path == PartialPath(destination) then l.partial
              else Lookup(d.files, path)
  {}

  /** Changing one shard leaves the others' share. */
  lemma {:induction false} OnlyOneShardChanges(d: Disk, dests: seq<string>, i: nat, l: Local, n: nat)
    requires i < |dests| && n <= |dests| && Separate(dests)
    ensures var d' := DiskAt(d, dests[i], l);
            ShardBytes(d'.files, dests[..n]) + (if i < n then ShardSize(d.files, dests[i]) else 0)
            == ShardBytes(d.files, dests[..n]) + (if i < n then ShardSize(d'.files, dests[i]) else 0)
  {
    if n > 0 {
      OnlyOneShardChanges(d, dests, i, l, n - 1);
      assert dests[..n][..n - 1] == dests[..n - 1];
      if i != n - 1 {
        if PartialPath(dests[n - 1]) == PartialPath(dests[i]) { PartialPathInjective(dests[n - 1], dests[i]); }
        DiskAtLookup(d, dests[i], l, dests[n - 1]);
        DiskAtLookup(d, dests[i], l, PartialPath(dests[n - 1]));
      }
    }
  }

  lemma WholeShardBytes(d: Disk, dests: seq<string>, i: nat, l: Local)
    requires i < |dests| && Separate(dests)
    ensures var d' := DiskAt(d, dests[i], l);
            ShardBytes(d'.files, dests) + ShardSize(d.files, dests[i])
            == ShardBytes(d.files, dests) + ShardSize(d'.files, dests[i])
  {
    OnlyOneShardChanges(d, dests, i, l, |dests|);
    assert dests[..|dests|] == dests;
  }

  lemma {:induction false} ShardWithinTotal(files: Files, dests: seq<string>, i: nat)
    requires i < |dests|
    ensures ShardSize(files, dests[i]) <= ShardBytes(files, dests)
  {
    if i < |dests| - 1 { ShardWithinTotal(files, dests[..|dests| - 1], i); }
  }

  predicate Accounted(d: Disk, dests: seq<string>) {
    d.cumulative == ShardBytes(d.files, dests)
  }

  /** Inside a shard, at every head of the request loop: the counter is the size of every
      shard on disk, except that a partial file whose deletion failed is still there. */
  lemma LoopHeadAccounted(d: Disk, dests: seq<string>, i: nat, start: Start, world: World, limit: nat)
    requires i < |dests| && Separate(dests) && Accounted(d, dests) && dests[i] !in d.files
    ensures var l := Download1(d, dests[i], start, world, limit);
            && (l.outcome.Running? ==>
                  l.cumulative + Size(l.partial) == ShardBytes(DiskAt(d, dests[i], l).files, dests) + l.fileBytes)
            && (l.outcome.Running? && Deletes(start, world) ==> Accounted(DiskAt(d, dests[i], l), dests))
            && (l.outcome.Done? ==> Accounted(DiskAt(d, dests[i], l), dests))
  {
    var partial := Lookup(d.files, PartialPath(dests[i]));
    ShardWithinTotal(d.files, dests, i);
    DownloadIsBalanced(partial, None, d.cumulative, start, world, limit);
    var l := Download1(d, dests[i], start, world, limit);
    WholeShardBytes(d, dests, i, l);
    assert dests[i] != PartialPath(dests[i]);
    DiskAtLookup(d, dests[i], l, dests[i]);
    DiskAtLookup(d, dests[i], l, PartialPath(dests[i]));
    if l.outcome.Running? {
      DestUntouched(partial, d.cumulative, start, world, limit);
      if Deletes(start, world) { DownloadHoldsPartial(partial, None, d.cumulative, start, world, limit); }
    }
  }

  /** So at a head of the request loop the counter is exactly the bytes on disk if and only
      if no partial file is left that is no longer counted, after a deletion that failed. */
  lemma AccountedExactly(d: Disk, dests: seq<string>, i: nat, start: Start, world: World, limit: nat)
    requires i < |dests| && Separate(dests) && Accounted(d, dests) && dests[i] !in d.files
    requires Download1(d, dests[i], start, world, limit).outcome.Running?
    ensures var l := Download1(d, dests[i], start, world, limit);
            Accounted(DiskAt(d, dests[i], l), dests) <==> (l.fileBytes == 0 ==> Size(l.partial) == 0)
  {
    ShardWithinTotal(d.files, dests, i);
    DownloadIsBalanced(Lookup(d.files, PartialPath(dests[i])), None, d.cumulative, start, world, limit);
    LoopHeadAccounted(d, dests, i, start, world, limit);
  }

  /** The partial file is larger than HEAD says, and cannot be deleted. */
  lemma FailedDeletionIsNotCounted()
    ensures var d := Disk(map[PartialPath("m") := [1, 2]], 2);
            var start := Start(true, 1, true, false);
            forall world :: Accounted(d, ["m"])
              && Download1(d, "m", start, world, 0).outcome.Running?
              && !Accounted(DiskAt(d, "m", Download1(d, "m", start, world, 0)), ["m"])
  {
    var d, start := Disk(map[PartialPath("m") := [1, 2]], 2), Start(true, 1, true, false);
    var dests := ["m"];
    assert dests[..0] == [];
    assert PartialPath("m") != "m";
    forall world: World
      ensures Accounted(d, dests) && Download1(d, "m", start, world, 0).outcome.Running?
      ensures !Accounted(DiskAt(d, "m", Download1(d, "m", start, world, 0)), dests)
    {
      assert Lookup(d.files, PartialPath("m")) == Some([1, 2]);
      assert ShardBytes(d.files, dests) == ShardBytes(d.files, []) + ShardSize(d.files, "m");
      var l := Download1(d, "m", start, world, 0);
      assert l == Begin(Some([1, 2]), None, 2, start);
      AccountedExactly(d, dests, 0, start, world, 0);
    }
  }

  lemma {:induction false} RunKeepsDest(l: Local, world: World, limit: nat)
    ensures Run(l, world, limit).outcome.Running? ==> Run(l, world, limit).dest == l.dest
    decreases limit
  {
    if l.outcome.Running? && limit > 0 {
      var a := world(l.requests, l.fileBytes);
      if Accepted(a) {
        ReceiveAppends(Open(Accept(l.(requests := l.requests + 1), a.reply, a.removes)), a.reply.body, a.removes);
      }
      RunKeepsDest(Turn(l, a), world, limit - 1);
    }
  }

  lemma DestUntouched(partial: Option<Bytes>, cumulative: nat, start: Start, world: World, limit: nat)
    ensures var l := Download(partial, None, cumulative, start, world, limit); l.outcome.Running? ==> l.dest.None?
  {
    RunKeepsDest(Begin(partial, None, cumulative, start), world, limit);
  }

  /** At every head of the shard loop the counter is exactly the bytes on disk. */
  lemma {:induction false} ShardLoopAccounted(d: Disk, dests: seq<string>, session: Session, limit: nat, n: nat)
    requires n <= |dests| && Separate(dests) && Accounted(d, dests)
    ensures Upto(d, dests, session, limit, n).1 == Done ==> Accounted(Upto(d, dests, session, limit, n).0, dests)
  {
    if n > 0 {
      ShardLoopAccounted(d, dests, session, limit, n - 1);
      var (d1, outcome) := Upto(d, dests, session, limit, n - 1);
      var w := session(n - 1);
      if outcome.Done? && !w.cancelled && dests[n - 1] !in d1.files {
        LoopHeadAccounted(d1, dests, n - 1, w.start, w.world, limit);
      }
    }
  }

  // ----- what a finished download leaves --------------------------------------

  ghost predicate CompliantSession(remotes: seq<Bytes>, session: Session) {
    forall i :: 0 <= i < |remotes| ==> CompliantWorld(remotes[i], session(i).world)
  }

  predicate SafeShards(files: Files, dests: seq<string>, remotes: seq<Bytes>, session: Session)
    requires |dests| == |remotes|
  {
    forall i :: 0 <= i < |dests| && dests[i] !in files ==>
      SafeStart(Lookup(files, PartialPath(dests[i])), session(i).start.headTotal, remotes[i])
  }

  /** Where the request loop of shard `i` begins. */
  function ShardStart(d: Disk, dests: seq<string>, session: Session, limit: nat, i: nat): Local
    requires i < |dests|
  {
    var (di, _) := Upto(d, dests, session, limit, i);
    Begin(Lookup(di.files, PartialPath(dests[i])), Lookup(di.files, dests[i]), di.cumulative, session(i).start)
  }

  predicate ShardsInPlace(d: Disk, dests: seq<string>, session: Session, limit: nat) {
    forall i :: 0 <= i < |dests| && dests[i] !in d.files ==>
      AllInPlace(ShardStart(d, dests, session, limit, i), session(i).world, limit)
  }

  predicate ShardInFull(d: Disk, dests: seq<string>, session: Session, limit: nat, i: nat, remote: Bytes)
    requires i < |dests|
  {
    NoneStopsShort(ShardStart(d, dests, session, limit, i), session(i).world, limit, remote)
  }

  /** Shard `i` is as it was, if it was there, and else holds the remote file exactly when
      no range of its download stopped short. */
  predicate ShardIsExact(d: Disk, after: Files, dests: seq<string>, remotes: seq<Bytes>, session: Session, limit: nat, i: nat)
    requires i < |dests| == |remotes|
  {
    if dests[i] in d.files then Lookup(after, dests[i]) == Lookup(d.files, dests[i])
    else Lookup(after, dests[i]) == Some(remotes[i]) <==> ShardInFull(d, dests, session, limit, i, remotes[i])
  }

  predicate Untouched(before: Files, after: Files, path: string) {
    Lookup(after, path) == Lookup(before, path)
  }

  /** Downloading one shard leaves the paths of all others alone. */
  lemma OtherShardsUntouched(d: Disk, dests: seq<string>, n: nat, l: Local)
    requires n < |dests| && Separate(dests)
    ensures forall i :: 0 <= i < |dests| && i != n ==>
              && Untouched(d.files, DiskAt(d, dests[n], l).files, dests[i])
              && Untouched(d.files, DiskAt(d, dests[n], l).files, PartialPath(dests[i]))
  {
    forall i | 0 <= i < |dests| && i != n
      ensures Untouched(d.files, DiskAt(d, dests[n], l).files, dests[i])
      ensures Untouched(d.files, DiskAt(d, dests[n], l).files, PartialPath(dests[i]))
    {
      if PartialPath(dests[i]) == PartialPath(dests[n]) { PartialPathInjective(dests[i], dests[n]); }
      DiskAtLookup(d, dests[n], l, dests[i]);
      DiskAtLookup(d, dests[n], l, PartialPath(dests[i]));
    }
  }

  /** Shard `i` alone, between its turn and the others'. */
  lemma NextKeepsOthers(d: Disk, dests: seq<string>, w: ShardWorld, limit: nat, n: nat, i: nat)
    requires n < |dests| && i < |dests| && i != n && Separate(dests)
    ensures var after := NextShard(d, dests[n], w, limit).0.files;
            Untouched(d.files, after, dests[i]) && Untouched(d.files, after, PartialPath(dests[i]))
  {
    OtherShardsUntouched(d, dests, n, Download1(d, dests[n], w.start, w.world, limit));
  }

  lemma EarlierDone(d: Disk, dests: seq<string>, session: Session, limit: nat, n: nat)
    requires 0 < n <= |dests| && Upto(d, dests, session, limit, n).1.Done?
    ensures Upto(d, dests, session, limit, n - 1).1.Done?
    ensures Upto(d, dests, session, limit, n)
            == NextShard(Upto(d, dests, session, limit, n - 1).0, dests[n - 1], session(n - 1), limit)
  {}

  /** Both paths of shard `i` are as they were. */
  predicate BothUntouched(before: Files, after: Files, destination: string) {
    Untouched(before, after, destination) && Untouched(before, after, PartialPath(destination))
  }

  lemma UntouchedNext(d: Disk, dests: seq<string>, session: Session, limit: nat, n: nat, i: nat)
    requires 0 < n <= |dests| && i < |dests| && i != n - 1 && Separate(dests)
    requires Upto(d, dests, session, limit, n).1.Done?
    ensures Upto(d, dests, session, limit, n - 1).1.Done?
    ensures BothUntouched(Upto(d, dests, session, limit, n - 1).0.files, Upto(d, dests, session, limit, n).0.files, dests[i])
  {
    EarlierDone(d, dests, session, limit, n);
    var d1, w := Upto(d, dests, session, limit, n - 1).0, session(n - 1);
    assert Upto(d, dests, session, limit, n).0 == NextShard(d1, dests[n - 1], w, limit).0;
    NextKeepsOthers(d1, dests, w, limit, n - 1, i);
  }

  /** The paths of shard `i` are untouched while the shards from `m` to before `n` are
      downloaded, unless `i` is one of them. */
  lemma {:induction false} UntouchedBetween(d: Disk, dests: seq<string>, session: Session, limit: nat, m: nat, n: nat, i: nat)
    requires m <= n <= |dests| && i < |dests| && (i < m || n <= i) && Separate(dests)
    requires Upto(d, dests, session, limit, n).1.Done?
    ensures Upto(d, dests, session, limit, m).1.Done?
    ensures BothUntouched(Upto(d, dests, session, limit, m).0.files, Upto(d, dests, session, limit, n).0.files, dests[i])
    decreases n
  {
    if m < n {
      UntouchedNext(d, dests, session, limit, n, i);
      UntouchedBetween(d, dests, session, limit, m, n - 1, i);
    }
  }

  lemma OwnShardExact(d1: Disk, destination: string, w: ShardWorld, limit: nat, remote: Bytes)
    requires destination !in d1.files && NextShard(d1, destination, w, limit).1.Done?
    requires SafeStart(Lookup(d1.files, PartialPath(destination)), w.start.headTotal, remote)
    requires CompliantWorld(remote, w.world)
    requires AllInPlace(Begin(Lookup(d1.files, PartialPath(destination)), None, d1.cumulative, w.start), w.world, limit)
    ensures Lookup(NextShard(d1, destination, w, limit).0.files, destination) == Some(remote)
            <==> NoneStopsShort(Begin(Lookup(d1.files, PartialPath(destination)), None, d1.cumulative, w.start),
                                w.world, limit, remote)
  {
    var partial := Lookup(d1.files, PartialPath(destination));
    PromotedExactly(partial, None, d1.cumulative, w.start, w.world, limit, remote);
    DiskAtLookup(d1, destination, Download1(d1, destination, w.start, w.world, limit), destination);
  }

  lemma ShardExact(d: Disk, dests: seq<string>, remotes: seq<Bytes>, session: Session, limit: nat, i: nat)
    requires i < |dests| == |remotes| && Separate(dests) && Upto(d, dests, session, limit, |dests|).1.Done?
    requires SafeShards(d.files, dests, remotes, session) && CompliantSession(remotes, session)
    requires ShardsInPlace(d, dests, session, limit)
    ensures ShardIsExact(d, Upto(d, dests, session, limit, |dests|).0.files, dests, remotes, session, limit, i)
  {
    UntouchedBetween(d, dests, session, limit, i + 1, |dests|, i);
    EarlierDone(d, dests, session, limit, i + 1);
    UntouchedBetween(d, dests, session, limit, 0, i, i);
    if dests[i] !in d.files {
      assert CompliantWorld(remotes[i], session(i).world);
      OwnShardExact(Upto(d, dests, session, limit, i).0, dests[i], session(i), limit, remotes[i]);
    }
  }

  /** When the shards are done: each destination that was missing holds its remote file
      exactly when no range of its download stopped short, and the others are as before. */
  lemma AllShardsExact(d: Disk, dests: seq<string>, remotes: seq<Bytes>, session: Session, limit: nat)
    requires |dests| == |remotes| && Separate(dests) && Upto(d, dests, session, limit, |dests|).1.Done?
    requires SafeShards(d.files, dests, remotes, session) && CompliantSession(remotes, session)
    requires ShardsInPlace(d, dests, session, limit)
    ensures forall i :: 0 <= i < |dests| ==>
              ShardIsExact(d, Upto(d, dests, session, limit, |dests|).0.files, dests, remotes, session, limit, i)
  {
    forall i | 0 <= i < |dests|
      ensures ShardIsExact(d, Upto(d, dests, session, limit, |dests|).0.files, dests, remotes, session, limit, i)
    {
      ShardExact(d, dests, remotes, session, limit, i);
    }
  }

  /** From servers that send all they are asked for, a finished download leaves the remote
      file at every destination that was missing. */
  lemma AllShardsRemote(d: Disk, dests: seq<string>, remotes: seq<Bytes>, session: Session, limit: nat)
    requires |dests| == |remotes| && Separate(dests) && SafeShards(d.files, dests, remotes, session)
    requires forall i :: 0 <= i < |remotes| ==> AnswersInFull(remotes[i], session(i).world)
    requires Upto(d, dests, session, limit, |dests|).1.Done?
    ensures var after := Upto(d, dests, session, limit, |dests|).0.files;
            forall i :: 0 <= i < |dests| ==>
              Lookup(after, dests[i]) == if dests[i] in d.files then Lookup(d.files, dests[i]) else Some(remotes[i])
  {
    forall i | 0 <= i < |dests|
      ensures AllInPlace(ShardStart(d, dests, session, limit, i), session(i).world, limit)
      ensures ShardInFull(d, dests, session, limit, i, remotes[i])
    {
      FullAnswers(ShardStart(d, dests, session, limit, i), session(i).world, limit, remotes[i]);
    }
    AllShardsExact(d, dests, remotes, session, limit);
    var after := Upto(d, dests, session, limit, |dests|).0.files;
    forall i | 0 <= i < |dests|
      ensures Lookup(after, dests[i]) == if dests[i] in d.files then Lookup(d.files, dests[i]) else Some(remotes[i])
    {
      assert ShardIsExact(d, after, dests, remotes, session, limit, i);
      assert ShardInFull(d, dests, session, limit, i, remotes[i]);
    }
  }
}
