/** The download records that gate restarts (DownloadManager in
    desktop/crates/goose-download-manager/src/lib.rs), and the background tasks behind them. */
module Ledger {
  import opened Wrappers

  datatype Status = Downloading | Completed | Failed | Cancelled

  datatype Progress = Progress(
    modelId: string,
    status: Status,
    bytesDownloaded: nat,
    totalBytes: nat,
    error: Option<string>,
    taskExited: bool)

  type Records = map<string, Progress>

  datatype BeginResult = Started | InProgress | BeingCancelled

  /** A record that refuses a restart, 132-137 and 227-236. */
  predicate Blocked(records: Records, id: string) {
    id in records &&
    (records[id].status == Downloading || (records[id].status == Cancelled && !records[id].taskExited))
  }

  predicate IsTerminal(status: Status) {
    status != Downloading
  }

  function Fresh(id: string, hint: nat): Progress {
    Progress(id, Downloading, 0, hint, None, false)
  }

  function Reserved(records: Records, progress: Progress): Records {
    if Blocked(records, progress.modelId) then records else records[progress.modelId := progress]
  }

  function CancelledIn(records: Records, id: string): Records {
    if id in records then records[id := records[id].(status := Cancelled)] else records
  }

  function Begun(records: Records, id: string, hint: nat): Records {
    if Blocked(records, id) then records else records[id := Fresh(id, hint)]
  }

  /** The task's last write, 276-307; `None` is success. */
  function Exited(records: Records, id: string, error: Option<string>): Records {
    if id !in records then records
    else match error
      case None => records[id := records[id].(status := Completed, taskExited := true)]
      case Some(_) =>
        records[id := records[id].(status := if records[id].status == Cancelled then Cancelled else Failed,
                                   error := error, taskExited := true)]
  }

  function Cleared(records: Records, id: string): Records {
    if id in records && IsTerminal(records[id].status) && records[id].taskExited then records - {id} else records
  }

  function Ticked(records: Records, id: string, bytes: nat): Records {
    if id in records then records[id := records[id].(bytesDownloaded := bytes)] else records
  }

  /** `update_progress`, 144-150; the caller's closure may make anything of the record. */
  function Updated(records: Records, id: string, becomes: Progress): Records {
    if id in records then records[id := becomes] else records
  }

  /** The manager itself: one map, updated in place under its mutex. */
  class DownloadManager {
    var downloads: Records

    constructor ()
      ensures downloads == map[]
    {
      downloads := map[];
    }

    /** 120-124. */
    method SetProgress(progress: Progress)
      modifies this
      ensures downloads == old(downloads)[progress.modelId := progress]
    {
      downloads := downloads[progress.modelId := progress];
    }

    /** 144-150. */
    method UpdateProgress(id: string, update: Progress -> Progress)
      modifies this
      ensures downloads == if id in old(downloads) then Updated(old(downloads), id, update(old(downloads)[id])) else old(downloads)
    {
      if id in downloads {
        downloads := downloads[id := update(downloads[id])];
      }
    }

    /** 126-142. */
    method ReserveDownload(progress: Progress) returns (reserved: bool)
      modifies this
      ensures reserved == !Blocked(old(downloads), progress.modelId)
      ensures downloads == Reserved(old(downloads), progress)
    {
      if progress.modelId in downloads {
        var existing := downloads[progress.modelId];
        if existing.status == Downloading || (existing.status == Cancelled && !existing.taskExited) {
          return false;
        }
      }
      downloads := downloads[progress.modelId := progress];
      return true;
    }

    /** 152-164; false when there is no such download. */
    method CancelDownload(id: string) returns (found: bool)
      modifies this
      ensures found == (id in old(downloads))
      ensures downloads == CancelledIn(old(downloads), id)
    {
      if id !in downloads {
        return false;
      }
      downloads := downloads[id := downloads[id].(status := Cancelled)];
      return true;
    }

    /** 221-252: the part of starting a download that decides whether it may start. */
    method BeginDownload(id: string, hint: nat) returns (result: BeginResult)
      modifies this
      ensures result.Started? <==> !Blocked(old(downloads), id)
      ensures result.InProgress? <==> id in old(downloads) && old(downloads)[id].status == Downloading
      ensures downloads == Begun(old(downloads), id, hint)
    {
      if id in downloads {
        var existing := downloads[id];
        if existing.status == Downloading {
          return InProgress;
        }
        if existing.status == Cancelled && !existing.taskExited {
          return BeingCancelled;
        }
      }
      downloads := downloads[id := Progress(id, Downloading, 0, hint, None, false)];
      return Started;
    }

    /** 276-307: what the background task records when it ends. */
    method RecordExit(id: string, error: Option<string>)
      modifies this
      ensures downloads == Exited(old(downloads), id, error)
    {
      if id in downloads {
        var progress := downloads[id];
        if error.None? {
          progress := progress.(status := Completed);
        } else {
          if progress.status != Cancelled {
            progress := progress.(status := Failed);
          }
          progress := progress.(error := error);
        }
        downloads := downloads[id := progress.(taskExited := true)];
      }
    }

    /** 660-671. */
    method ClearCompleted(id: string)
      modifies this
      ensures downloads == Cleared(old(downloads), id)
    {
      if id in downloads {
        var progress := downloads[id];
        var isTerminal := progress.status == Completed || progress.status == Failed || progress.status == Cancelled;
        if isTerminal && progress.taskExited {
          downloads := downloads - {id};
        }
      }
    }
  }

  // ----- records and tasks over whole runs ------------------------------------

  /** `starting` are calls that inserted their record and are creating directories
      (254-261); `live` are spawned background tasks. */
  datatype State = State(records: Records, starting: multiset<string>, live: multiset<string>)

  /** `Tick` is the task's own progress. The last two are writes by a caller, who may
      write anything. */
  datatype Event =
    | Start(id: string, hint: nat)
    | DirectoriesReady(id: string)
    | DirectoryFailed(id: string)
    | Reserve(progress: Progress)
    | Cancel(id: string)
    | Clear(id: string)
    | Tick(id: string, bytes: nat)
    | Exit(id: string, error: Option<string>)
    | SetRecord(progress: Progress)
    | UpdateRecord(id: string, becomes: Progress)

  predicate Possible(s: State, e: Event) {
    match e
    case DirectoriesReady(id) => id in s.starting
    case DirectoryFailed(id) => id in s.starting
    case Tick(id, _) => id in s.live
    case Exit(id, _) => id in s.live
    case _ => true
  }

  function Apply(s: State, e: Event): State
    requires Possible(s, e)
  {
    match e
    case Start(id, hint) =>
      if Blocked(s.records, id) then s
      else s.(records := Begun(s.records, id, hint), starting := s.starting + multiset{id})
    case DirectoriesReady(id) => s.(starting := s.starting - multiset{id}, live := s.live + multiset{id})
    case DirectoryFailed(id) => s.(starting := s.starting - multiset{id})
    case Reserve(progress) => s.(records := Reserved(s.records, progress))
    case Cancel(id) => s.(records := CancelledIn(s.records, id))
    case Clear(id) => s.(records := Cleared(s.records, id))
    case Tick(id, bytes) => s.(records := Ticked(s.records, id, bytes))
    case SetRecord(progress) => s.(records := s.records[progress.modelId := progress])
    case UpdateRecord(id, becomes) => s.(records := Updated(s.records, id, becomes))
    case Exit(id, error) => s.(records := Exited(s.records, id, error), live := s.live - multiset{id})
  }

  /** How many calls or tasks may still write the record of `id`. */
  function Writers(s: State, id: string): nat {
    s.starting[id] + s.live[id]
  }

  /** Whoever may still write a record finds it blocked and not yet exited. */
  ghost predicate Gated(s: State, id: string) {
    Writers(s, id) > 0 ==> Writers(s, id) == 1 && Blocked(s.records, id) && !s.records[id].taskExited
  }

  /** A caller's write to the record of `id`. */
  predicate Writes(e: Event, id: string) {
    (e.SetRecord? && e.progress.modelId == id) || (e.UpdateRecord? && e.id == id)
  }

  /** Refuses a restart, and no exit is recorded. */
  predicate Stuck(p: Progress) {
    !p.taskExited && (p.status == Downloading || p.status == Cancelled)
  }

  /** A caller's write after which the record is not stuck: it carries the exit flag, or a
      status that lets the id be started again. */
  predicate Frees(e: Event, id: string) {
    Writes(e, id) && !Stuck(if e.SetRecord? then e.progress else e.becomes)
  }

  ghost predicate Unfreed(events: seq<Event>, id: string) {
    forall e :: e in events ==> !Frees(e, id)
  }

  ghost predicate Valid(s: State, events: seq<Event>)
    decreases |events|
  {
    events == [] || (Possible(s, events[0]) && Valid(Apply(s, events[0]), events[1..]))
  }

  function After(s: State, events: seq<Event>): State
    requires Valid(s, events)
    decreases |events|
  {
    if events == [] then s else After(Apply(s, events[0]), events[1..])
  }

  const Initial: State := State(map[], multiset{}, multiset{})

  lemma GatedStep(s: State, e: Event, id: string)
    requires Gated(s, id) && Possible(s, e) && !Frees(e, id)
    ensures Gated(Apply(s, e), id)
  {}

  lemma {:induction false} GatedRun(s: State, events: seq<Event>, id: string)
    requires Gated(s, id) && Valid(s, events) && Unfreed(events, id)
    ensures Gated(After(s, events), id)
    decreases |events|
  {
    if events != [] {
      GatedStep(s, events[0], id);
      GatedRun(Apply(s, events[0]), events[1..], id);
    }
  }

  /** Over every run in which no caller's write frees the record of the id, at most one
      background task is live for it; and while there is one, cancelled or not, the id cannot be
      started or reserved again and its record is not removed. */
  lemma OneTaskPerModel(events: seq<Event>, id: string)
    requires Valid(Initial, events) && Unfreed(events, id)
    ensures var s := After(Initial, events);
            && s.live[id] <= 1
            && (id in s.live ==>
                  && (forall hint :: Apply(s, Start(id, hint)) == s)
                  && (forall p: Progress :: p.modelId == id ==> Apply(s, Reserve(p)) == s)
                  && Apply(s, Clear(id)) == s)
  {
    GatedRun(Initial, events, id);
  }

  lemma Unfolds(s: State, e: Event, rest: seq<Event>)
    requires Possible(s, e) && Valid(Apply(s, e), rest)
    ensures Valid(s, [e] + rest) && After(s, [e] + rest) == After(Apply(s, e), rest)
  {
    assert ([e] + rest)[1..] == rest;
  }

  /** Calls that are creating directories may all become tasks. */
  function Readies(id: string, n: nat): seq<Event> {
    if n == 0 then [] else [DirectoriesReady(id)] + Readies(id, n - 1)
  }

  lemma {:induction false} AllReady(s: State, id: string, n: nat)
    requires n <= s.starting[id]
    ensures Valid(s, Readies(id, n)) && Unfreed(Readies(id, n), id)
    ensures After(s, Readies(id, n)).live[id] == s.live[id] + n
    decreases n
  {
    if n > 0 {
      var s1 := Apply(s, DirectoriesReady(id));
      AllReady(s1, id, n - 1);
      Unfolds(s, DirectoriesReady(id), Readies(id, n - 1));
    }
  }

  /** These events, none of which frees the record, make two tasks live at once. */
  ghost predicate SecondTask(s: State, events: seq<Event>, id: string) {
    Valid(s, events) && Unfreed(events, id) && After(s, events).live[id] > 1
  }

  lemma SecondStarts(s: State, id: string)
    requires Writers(s, id) > 0 && !Blocked(s.records, id)
    ensures exists events :: SecondTask(s, events, id)
  {
    var s1 := Apply(s, Start(id, 0));
    var ready := Readies(id, s1.starting[id]);
    AllReady(s1, id, s1.starting[id]);
    Unfolds(s, Start(id, 0), ready);
    assert SecondTask(s, [Start(id, 0)] + ready, id);
  }

  lemma SecondStartsOnceCancelled(s: State, id: string)
    requires Writers(s, id) > 0 && id in s.records && s.records[id].taskExited
    ensures exists events :: SecondTask(s, events, id)
  {
    var s1 := Apply(s, Cancel(id));
    SecondStarts(s1, id);
    var events :| SecondTask(s1, events, id);
    Unfolds(s, Cancel(id), events);
    assert SecondTask(s, [Cancel(id)] + events, id);
  }

  /** While a call or task for the id is under way, a caller's write opens the way to a
      second task beside it exactly when it frees the record; a write that only reports
      progress, or that cancels, does not. */
  lemma SecondTaskExactly(s: State, e: Event, id: string)
    requires Gated(s, id) && Writers(s, id) > 0 && Writes(e, id)
    ensures (exists events :: SecondTask(Apply(s, e), events, id)) <==> Frees(e, id)
  {
    var s1 := Apply(s, e);
    if Frees(e, id) {
      if Blocked(s1.records, id) { SecondStartsOnceCancelled(s1, id); } else { SecondStarts(s1, id); }
    } else {
      GatedStep(s, e, id);
      forall events | Valid(s1, events) && Unfreed(events, id)
        ensures After(s1, events).live[id] <= 1
      {
        GatedRun(s1, events, id);
      }
    }
  }

  /** Recording the exit is what frees the id. */
  lemma ExitFrees(events: seq<Event>, id: string, error: Option<string>)
    requires Valid(Initial, events) && Unfreed(events, id) && id in After(Initial, events).live
    ensures var s := Apply(After(Initial, events), Exit(id, error));
            && Writers(s, id) == 0
            && !Blocked(s.records, id)
            && id in Apply(s, Start(id, 0)).starting
            && id !in Apply(s, Clear(id)).records
  {
    GatedRun(Initial, events, id);
    assert Writers(After(Initial, events), id) == 1;
  }

  // ----- records without a task -----------------------------------------------

  /** Blocked with no task behind it. */
  predicate Orphaned(s: State, id: string) {
    id in s.records && Stuck(s.records[id]) && Writers(s, id) == 0
  }

  lemma OrphanStep(s: State, e: Event, id: string)
    requires Orphaned(s, id) && Possible(s, e)
    ensures !Orphaned(Apply(s, e), id) <==> Frees(e, id)
  {}

  /** Somewhere along the run the id is no longer blocked without a task. */
  ghost predicate EverFreed(s: State, events: seq<Event>, id: string)
    requires Valid(s, events)
    decreases |events|
  {
    !Orphaned(s, id) || (events != [] && EverFreed(Apply(s, events[0]), events[1..], id))
  }

  /** A record blocked with no task behind it is freed, over any continuation, if and only
      if a caller's write frees it. */
  lemma {:induction false} OrphanFreedExactly(s: State, events: seq<Event>, id: string)
    requires Orphaned(s, id) && Valid(s, events)
    ensures EverFreed(s, events, id) <==> exists e :: e in events && Frees(e, id)
    decreases |events|
  {
    if events != [] {
      OrphanStep(s, events[0], id);
      assert events == [events[0]] + events[1..];
      if !Frees(events[0], id) { OrphanFreedExactly(Apply(s, events[0]), events[1..], id); }
    }
  }

  lemma {:induction false} OrphansStay(s: State, events: seq<Event>, id: string)
    requires Orphaned(s, id) && Valid(s, events) && Unfreed(events, id)
    ensures Orphaned(After(s, events), id)
    decreases |events|
  {
    if events != [] {
      assert events[0] in events;
      OrphanStep(s, events[0], id);
      OrphansStay(Apply(s, events[0]), events[1..], id);
    }
  }

  /** Some continuation without a freeing write frees the id. */
  ghost predicate Recoverable(s: State, id: string) {
    exists events :: Recovers(s, events, id)
  }

  ghost predicate Recovers(s: State, events: seq<Event>, id: string) {
    Valid(s, events) && Unfreed(events, id) && !Blocked(After(s, events).records, id)
  }

  /** As long as no caller's write frees its record, an id can become free exactly when it
      is not orphaned: it is free already, its record carries the exit flag, or a call or
      task that will still write the record is under way. */
  lemma RecoverableExactly(events: seq<Event>, id: string)
    requires Valid(Initial, events) && Unfreed(events, id)
    ensures Recoverable(After(Initial, events), id) <==> !Orphaned(After(Initial, events), id)
  {
    GatedRun(Initial, events, id);
    var s := After(Initial, events);
    if Orphaned(s, id) {
      forall more | Valid(s, more) && Unfreed(more, id)
        ensures Blocked(After(s, more).records, id)
      {
        OrphansStay(s, more, id);
      }
    } else if !Blocked(s.records, id) {
      assert Recovers(s, [], id);
    } else if Writers(s, id) == 0 {
      var cancel := [Cancel(id)];
      assert cancel[1..] == [];
      assert Valid(Apply(s, cancel[0]), cancel[1..]);
      assert Recovers(s, cancel, id);
    } else if id in s.live {
      ExitRecovers(s, id);
    } else {
      ReadyRecovers(s, id);
    }
  }

  lemma ExitRecovers(s: State, id: string)
    requires id in s.live && id in s.records
    ensures Recovers(s, [Exit(id, None)], id)
  {
    var exit := [Exit(id, None)];
    assert exit[1..] == [];
    assert Valid(Apply(s, exit[0]), exit[1..]);
  }

  lemma ReadyRecovers(s: State, id: string)
    requires id in s.starting && id in s.records
    ensures Recovers(s, [DirectoriesReady(id), Exit(id, None)], id)
  {
    var s1 := Apply(s, DirectoriesReady(id));
    ExitRecovers(s1, id);
    var more := [DirectoriesReady(id), Exit(id, None)];
    assert more[1..] == [Exit(id, None)];
    assert Valid(s, more) && After(s, more) == After(s1, more[1..]);
  }

  /** A failure to create directories (255-261) leaves such a record: nothing but a
      freeing write by a caller ever frees the id again. */
  lemma DirectoryFailureOrphans(events: seq<Event>, id: string)
    requires Valid(Initial, events) && Unfreed(events, id) && id in After(Initial, events).starting
    ensures Orphaned(Apply(After(Initial, events), DirectoryFailed(id)), id)
  {
    GatedRun(Initial, events, id);
    assert Writers(After(Initial, events), id) == 1;
  }

  /** So does every reservation of a record that is downloading: its owner must write the
      exit flag into it. */
  lemma ReservationOrphans(events: seq<Event>, progress: Progress)
    requires Valid(Initial, events) && Unfreed(events, progress.modelId)
    requires !Blocked(After(Initial, events).records, progress.modelId) && Stuck(progress)
    ensures Orphaned(Apply(After(Initial, events), Reserve(progress)), progress.modelId)
  {
    GatedRun(Initial, events, progress.modelId);
  }

  // ----- what each call leaves ---------------------------------------------------

  /** A start that is not refused writes a record that is downloading, with nothing received,
      no error, no exit, and the size it was given. */
  lemma StartIsFresh(s: State, id: string, hint: nat)
    requires !Blocked(s.records, id)
    ensures var after := Apply(s, Start(id, hint));
            && id in after.records && after.starting[id] == s.starting[id] + 1
            && after.records[id].modelId == id && after.records[id].status == Downloading
            && after.records[id].bytesDownloaded == 0 && after.records[id].totalBytes == hint
            && after.records[id].error.None? && !after.records[id].taskExited
  {}

  /** A record refuses a start exactly while it is downloading, or cancelled by a task that
      has not exited. */
  lemma RefusedExactly(s: State, id: string, hint: nat)
    ensures Apply(s, Start(id, hint)) == s <==>
            id in s.records && (s.records[id].status == Downloading
                                || (s.records[id].status == Cancelled && !s.records[id].taskExited))
  {
    if !Blocked(s.records, id) { StartIsFresh(s, id, hint); }
  }

  /** A task's report of progress changes the bytes received and nothing else. */
  lemma TickReports(s: State, id: string, bytes: nat)
    requires id in s.live && id in s.records
    ensures var after := Apply(s, Tick(id, bytes));
            && after.records.Keys == s.records.Keys && after.live == s.live && after.starting == s.starting
            && after.records[id] == s.records[id].(bytesDownloaded := bytes)
            && forall other :: other in s.records && other != id ==> after.records[other] == s.records[other]
  {}

  /** A record is removed exactly when it is completed, failed or cancelled, and its task has
      exited; no other is. */
  lemma ClearedExactly(s: State, id: string)
    ensures var after := Apply(s, Clear(id));
            && (id !in after.records <==>
                  id in s.records ==> s.records[id].taskExited
                                      && (s.records[id].status == Completed || s.records[id].status == Status.Failed
                                          || s.records[id].status == Cancelled))
            && forall other :: other in s.records && other != id ==> other in after.records && after.records[other] == s.records[other]
  {}

  // ----- what a status tells ----------------------------------------------------

  /** The last write of a task: completed after a success, else failed, unless it was
      cancelled; with the error, and marked as exited. */
  lemma ExitStatus(s: State, id: string, error: Option<string>)
    requires id in s.live && id in s.records
    ensures var before, after := s.records[id], Apply(s, Exit(id, error)).records;
            && id in after && after[id].taskExited
            && (error.None? ==> after[id].status == Completed && after[id].error == before.error)
            && (error.Some? ==> after[id].error == error
                                && after[id].status == (if before.status == Cancelled then Cancelled else Failed))
            && forall other :: other in s.records && other != id ==> other in after && after[other] == s.records[other]
  {}

  /** The event brings in a record of the caller's own. */
  predicate Brings(e: Event, id: string) {
    Writes(e, id) || (e.Reserve? && e.progress.modelId == id)
  }

  ghost predicate Tells(s: State, events: seq<Event>, id: string) {
    id in s.records ==>
      && (s.records[id].status == Completed ==> exists e :: e in events && e == Exit(id, None))
      && (s.records[id].status == Failed ==> exists e :: e in events && e.Exit? && e.id == id && e.error.Some?)
      && (s.records[id].status == Cancelled ==> exists e :: e in events && e == Cancel(id))
  }

  lemma TellsNext(s: State, before: seq<Event>, e: Event, id: string)
    requires Tells(s, before, id) && Possible(s, e) && !Brings(e, id)
    ensures Tells(Apply(s, e), before + [e], id)
  {
    assert e in before + [e];
    assert forall f :: f in before ==> f in before + [e];
  }

  lemma {:induction false} TellsRun(s: State, before: seq<Event>, events: seq<Event>, id: string)
    requires Tells(s, before, id) && Valid(s, events) && forall e :: e in events ==> !Brings(e, id)
    ensures Tells(After(s, events), before + events, id)
    decreases |events|
  {
    if events == [] {
      assert before + events == before;
    } else {
      assert events[0] in events;
      TellsNext(s, before, events[0], id);
      TellsRun(Apply(s, events[0]), before + [events[0]], events[1..], id);
      assert before + events == (before + [events[0]]) + events[1..];
    }
  }

  /** A record that no caller brought in is completed only if a task for it succeeded,
      failed only if one failed, and cancelled only if it was cancelled. */
  lemma StatusTells(events: seq<Event>, id: string)
    requires Valid(Initial, events) && forall e :: e in events ==> !Brings(e, id)
    ensures Tells(After(Initial, events), events, id)
  {
    TellsRun(Initial, [], events, id);
    assert [] + events == events;
  }
}
