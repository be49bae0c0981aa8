/** The model-slot protocol of the local inference runtime
    (desktop/crates/goose-local-inference/src/lib.rs).

    Any number of streaming requests and evictions share one slot per cached model,
    one asynchronous lock per slot, one cold-load lock for the whole runtime, and a
    notify/wait handshake. A state holds the slots, the owner of every lock, and the
    program counter of every task. A step moves one task from one lock operation,
    await point or critical section to the next. Which step runs is unconstrained, so
    a run of this machine is an arbitrary interleaving. */
module Slots {
  import opened Wrappers

  datatype ModelCacheKey = ModelCacheKey(backendId: string, modelId: string, chatTemplate: string)

  type TaskId = nat

  /** `Loaded` remembers the key whose model the backend was asked to load. */
  datatype SlotState = Empty | Loading | Loaded(model: ModelCacheKey)

  datatype Slot = Slot(state: SlotState, holder: Option<TaskId>)

  datatype Abort = Disconnected | LoadFailed

  datatype Outcome = Generated | NotLoaded | Aborted(why: Abort)

  /** Where a streaming request stands. "Want" counters wait for a lock, "Locked"
      counters hold the slot lock, and the comment gives the source lines. */
  datatype RequestPc =
    | Top                             // 727, wants its slot lock
    | TopLocked                       // 728-735
    | Waiting(notified: bool)         // 733, no lock held
    | ColdWant                        // 738, wants the cold-load lock
    | RecheckWant                     // 739, holds the cold-load lock
    | RecheckLocked                   // 740-751
    | RecheckBreak                    // 741, slot lock dropped, cold-load lock next
    | RecheckWait(notified: bool)     // 743-745
    | Announce                        // 754-758
    | Snapshot                        // 765
    | Sweep(rest: seq<ModelCacheKey>) // 766-767
    | SweepLocked(rest: seq<ModelCacheKey>) // 768-771
    | LoadRunning                     // 779-787
    | StoreWant                       // 826
    | StoreLocked                     // 827-828
    | StoreDropCold                   // 829
    | StoreDropSlot                   // 830
    | AbortWant(why: Abort)           // 759, 790, 798
    | AbortLocked(why: Abort)         // 760-761, 791-792, 799-800
    | AbortReport(why: Abort)         // 793-794, 801-803, both locks held
    | AbortDropCold(why: Abort)       // return, slot lock already dropped
    | GenWant                         // 851
    | GenLocked                       // 852-859
    | Generating                      // 880
    | GenReport                       // 882-890, slot lock held
    | GenRefuse                       // 855, slot lock held while the error is sent
    | Done(outcome: Outcome)

  /** An eviction walks the slots it snapshotted; it is finished when none is left. */
  datatype Task =
    | Request(key: ModelCacheKey, pc: RequestPc)
    | Eviction(rest: seq<ModelCacheKey>, locked: bool, evicted: bool)

  datatype State = State(
    slots: map<ModelCacheKey, Slot>,
    cold: Option<TaskId>,
    tasks: seq<Task>)

  /** What the environment decides: whether a send or a load succeeds, and the order
      in which a hash map is iterated. */
  datatype Choice = Choice(ok: bool, order: seq<ModelCacheKey>)

  // ----- building blocks ------------------------------------------------------

  predicate Distinct(keys: seq<ModelCacheKey>) {
    forall i, j :: 0 <= i < j < |keys| ==> keys[i] != keys[j]
  }

  /** `order` is one possible iteration of the slot map restricted to `chosen`. */
  predicate Iterates(order: seq<ModelCacheKey>, chosen: set<ModelCacheKey>) {
    Distinct(order) && (set k | k in order) == chosen
  }

  function SetPc(s: State, t: TaskId, pc: RequestPc): State
    requires t < |s.tasks| && s.tasks[t].Request?
  {
    s.(tasks := s.tasks[t := s.tasks[t].(pc := pc)])
  }

  function Lock(s: State, k: ModelCacheKey, t: TaskId): State
    requires k in s.slots
  {
    s.(slots := s.slots[k := s.slots[k].(holder := Some(t))])
  }

  function Unlock(s: State, k: ModelCacheKey): State
    requires k in s.slots
  {
    s.(slots := s.slots[k := s.slots[k].(holder := None)])
  }

  function Put(s: State, k: ModelCacheKey, state: SlotState): State
    requires k in s.slots
  {
    s.(slots := s.slots[k := s.slots[k].(state := state)])
  }

  function Wake(task: Task, k: ModelCacheKey): Task {
    if task.Request? && task.key == k && task.pc.Waiting? then task.(pc := Waiting(true))
    else if task.Request? && task.key == k && task.pc.RecheckWait? then task.(pc := RecheckWait(true))
    else task
  }

  /** `notify_waiters`: wakes every `Notified` future that already exists for the slot. */
  function NotifyWaiters(s: State, k: ModelCacheKey): State {
    s.(tasks := seq(|s.tasks|, i requires 0 <= i < |s.tasks| => Wake(s.tasks[i], k)))
  }

  // ----- the step relation ----------------------------------------------------

  predicate Finished(task: Task) {
    match task
    case Request(_, pc) => pc.Done?
    case Eviction(rest, _, _) => rest == []
  }

  /** The slot lock a task is asking for, if any. */
  function WantsSlot(task: Task): Option<ModelCacheKey> {
    match task
    case Request(key, pc) =>
      if pc.Top? || pc.RecheckWant? || pc.StoreWant? || pc.AbortWant? || pc.GenWant? then Some(key)
      else if pc.Sweep? && pc.rest != [] then Some(pc.rest[0])
      else None
    case Eviction(rest, locked, _) => if rest != [] && !locked then Some(rest[0]) else None
  }

  predicate WantsCold(task: Task) {
    task.Request? && task.pc.ColdWant?
  }

  predicate IsWaiting(task: Task) {
    task.Request? && task.pc.Waiting? && !task.pc.notified
  }

  /** A task can move unless it is finished, waits for a lock somebody holds, or waits
      for a notification. */
  predicate Enabled(s: State, t: TaskId) {
    && t < |s.tasks|
    && var task := s.tasks[t];
    && !Finished(task)
    && !IsWaiting(task)
    && (task.Request? ==> task.key in s.slots)
    && (WantsSlot(task).Some? ==>
          WantsSlot(task).value in s.slots && s.slots[WantsSlot(task).value].holder.None?)
    && (WantsCold(task) ==> s.cold.None?)
    && (task.Request? && task.pc.SweepLocked? ==> task.pc.rest != [] && task.pc.rest[0] in s.slots)
    && (task.Eviction? ==> task.rest[0] in s.slots)
  }

  /** The choice only matters where the source leaves something open: the snapshot at 765
      must list every slot but the request's own. */
  predicate Allowed(s: State, t: TaskId, c: Choice)
    requires Enabled(s, t)
  {
    s.tasks[t].Request? && s.tasks[t].pc.Snapshot? ==>
      Iterates(c.order, s.slots.Keys - {s.tasks[t].key})
  }

  function Advance(s: State, t: TaskId, c: Choice): State
    requires Enabled(s, t)
  {
    match s.tasks[t]
    case Request(key, pc) => AdvanceRequest(s, t, key, pc, c)
    case Eviction(rest, locked, evicted) => AdvanceEviction(s, t, rest, locked, evicted)
  }

  /** One step of `evict_model`, 226-235: the critical section empties a loaded slot and
      notifies, then the guard is dropped. */
  function AdvanceEviction(s: State, t: TaskId, rest: seq<ModelCacheKey>, locked: bool, evicted: bool): State
    requires Enabled(s, t) && s.tasks[t] == Eviction(rest, locked, evicted)
  {
    var k := rest[0];
    if !locked then
      var s1 := Lock(s, k, t);
      s1.(tasks := s1.tasks[t := Eviction(rest, true, evicted)])
    else if s.slots[k].state.Loaded? then
      var s1 := Unlock(NotifyWaiters(Put(s, k, Empty), k), k);
      s1.(tasks := s1.tasks[t := Eviction(rest[1..], false, true)])
    else
      var s1 := Unlock(s, k);
      s1.(tasks := s1.tasks[t := Eviction(rest[1..], false, evicted)])
  }

  function AdvanceRequest(s: State, t: TaskId, key: ModelCacheKey, pc: RequestPc, c: Choice): State
    requires Enabled(s, t) && s.tasks[t] == Request(key, pc)
  {
    match pc
    case Top => SetPc(Lock(s, key, t), t, TopLocked)
    case TopLocked =>
      (match s.slots[key].state
       case Loaded(_) => SetPc(Unlock(s, key), t, GenWant)
       case Loading => SetPc(Unlock(s, key), t, Waiting(false))
       case Empty => SetPc(Unlock(s, key), t, ColdWant))
    case Waiting(_) => SetPc(s, t, Top)
    case ColdWant => SetPc(s.(cold := Some(t)), t, RecheckWant)
    case RecheckWant => SetPc(Lock(s, key, t), t, RecheckLocked)
    case RecheckLocked =>
      (match s.slots[key].state
       case Loaded(_) => SetPc(Unlock(s, key), t, RecheckBreak)
       case Loading => SetPc(Unlock(s, key), t, RecheckWait(false))
       case Empty => SetPc(Unlock(Put(s, key, Loading), key), t, Announce))
    case RecheckBreak => SetPc(s.(cold := None), t, GenWant)
    case RecheckWait(n) => SetPc(s.(cold := None), t, Waiting(n))
    case Announce => SetPc(s, t, if c.ok then Snapshot else AbortWant(Disconnected))
    case Snapshot => SetPc(s, t, Sweep(c.order))
    case Sweep(rest) =>
      if rest == [] then SetPc(s, t, LoadRunning)
      else SetPc(Lock(s, rest[0], t), t, SweepLocked(rest))
    case SweepLocked(rest) =>
      var s1 := if s.slots[rest[0]].state.Loaded? then Put(s, rest[0], Empty) else s;
      SetPc(Unlock(s1, rest[0]), t, Sweep(rest[1..]))
    case LoadRunning => SetPc(s, t, if c.ok then StoreWant else AbortWant(LoadFailed))
    case StoreWant => SetPc(Lock(s, key, t), t, StoreLocked)
    case StoreLocked => SetPc(NotifyWaiters(Put(s, key, Loaded(key)), key), t, StoreDropCold)
    case StoreDropCold => SetPc(s.(cold := None), t, StoreDropSlot)
    case StoreDropSlot => SetPc(Unlock(s, key), t, GenWant)
    case AbortWant(why) => SetPc(Lock(s, key, t), t, AbortLocked(why))
    case AbortLocked(why) => SetPc(NotifyWaiters(Put(s, key, Empty), key), t, AbortReport(why))
    case AbortReport(why) => SetPc(Unlock(s, key), t, AbortDropCold(why))
    case AbortDropCold(why) => SetPc(s.(cold := None), t, Done(Aborted(why)))
    case GenWant => SetPc(Lock(s, key, t), t, GenLocked)
    case GenLocked => SetPc(s, t, if s.slots[key].state.Loaded? then Generating else GenRefuse)
    case Generating => SetPc(s, t, GenReport)
    case GenReport => SetPc(Unlock(s, key), t, Done(Generated))
    case GenRefuse => SetPc(Unlock(s, key), t, Done(NotLoaded))
  }

  /** `stream` creates the slot if it is missing and spawns the task, 685 and 722. */
  function ArriveRequest(s: State, key: ModelCacheKey): State {
    s.(slots := if key in s.slots then s.slots else s.slots[key := Slot(Empty, None)],
       tasks := s.tasks + [Request(key, Top)])
  }

  /** `evict_model` snapshots the slots of one model id, 219-225. */
  function ArriveEviction(s: State, order: seq<ModelCacheKey>): State {
    s.(tasks := s.tasks + [Eviction(order, false, false)])
  }

  predicate SelectsModel(s: State, modelId: string, order: seq<ModelCacheKey>) {
    Iterates(order, set k | k in s.slots && k.modelId == modelId)
  }

  const Initial: State := State(map[], None, [])

  ghost predicate TaskStep(s: State, s': State) {
    exists t, c :: Enabled(s, t) && Allowed(s, t, c) && s' == Advance(s, t, c)
  }

  ghost predicate Arrival(s: State, s': State) {
    || (exists key :: s' == ArriveRequest(s, key))
    || (exists modelId, order :: SelectsModel(s, modelId, order) && s' == ArriveEviction(s, order))
  }

  ghost predicate Next(s: State, s': State) {
    TaskStep(s, s') || Arrival(s, s')
  }

  /** A finite run: every state follows from the one before. */
  ghost predicate IsRun(run: seq<State>) {
    && run != []
    && run[0] == Initial
    && forall i :: 0 <= i < |run| - 1 ==> Next(run[i], run[i + 1])
  }
}
