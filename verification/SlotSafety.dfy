/** Safety of the slot protocol over every run. */
module SlotSafety {
  import opened Wrappers
  import opened Slots
  import opened SlotClaims
  import opened SlotInvariant

  predicate Holds(s: State, t: TaskId, k: ModelCacheKey) {
    k in s.slots && s.slots[k].holder == Some(t)
  }

  predicate At(s: State, t: TaskId) {
    t < |s.tasks| && s.tasks[t].Request?
  }

  /** Between marking its slot Loading (751) and resolving it (760, 791, 799, 827). */
  predicate BringingIn(pc: RequestPc) {
    pc.Announce? || pc.Snapshot? || pc.Sweep? || pc.SweepLocked? || pc.LoadRunning?
    || pc.StoreWant? || pc.StoreLocked? || pc.AbortWant? || pc.AbortLocked?
  }

  /** At most one model is loaded, and each slot holds the model of its own key. */
  lemma AtMostOneModel(run: seq<State>, i: nat, j: ModelCacheKey, k: ModelCacheKey)
    requires IsRun(run) && i < |run|
    requires j in run[i].slots && run[i].slots[j].state.Loaded?
    requires k in run[i].slots && run[i].slots[k].state.Loaded?
    ensures j == k && run[i].slots[k].state == Loaded(k)
  {
    InvRun(run, i);
    assert IsLoaded(View(run[i]), j) && IsLoaded(View(run[i]), k);
  }

  /** While the backend loads a model, every other slot is Empty, whether or not it
      existed when the sweep took its snapshot. */
  lemma LoadRunsAlone(run: seq<State>, i: nat, t: TaskId, k: ModelCacheKey)
    requires IsRun(run) && i < |run| && At(run[i], t) && run[i].tasks[t].pc.LoadRunning?
    requires k in run[i].slots
    ensures run[i].slots[k].state == if k == run[i].tasks[t].key then Loading else Empty
  {
    InvRun(run, i);
    var b, key := View(run[i]), run[i].tasks[t].key;
    assert TaskShape(run[i], run[i].tasks[t]);
    assert b.claims[t].sweep == Some([]) && b.claims[t].mark == Some(key) && b.claims[t].cold;
    assert IsLoading(b, key);
    if k != key {
      assert !IsLoaded(b, k);
      assert !IsLoading(b, k);
    }
  }

  /** A slot is Loading exactly while one request is between marking it and resolving
      it, and that request holds the cold-load lock throughout. */
  lemma LoadingIffBringingIn(run: seq<State>, i: nat, k: ModelCacheKey)
    requires IsRun(run) && i < |run| && k in run[i].slots
    ensures run[i].slots[k].state.Loading? <==>
            exists t: TaskId :: At(run[i], t) && run[i].tasks[t].key == k && BringingIn(run[i].tasks[t].pc)
    ensures forall t: TaskId :: At(run[i], t) && BringingIn(run[i].tasks[t].pc) ==> run[i].cold == Some(t)
  {
    InvRun(run, i);
    var s, b := run[i], View(run[i]);
    forall t: TaskId | At(s, t) && BringingIn(s.tasks[t].pc)
      ensures s.cold == Some(t) && IsLoading(b, s.tasks[t].key)
    {
      assert b.claims[t].cold && b.claims[t].mark == Some(s.tasks[t].key);
    }
    if s.slots[k].state.Loading? {
      assert IsLoading(b, k);
      var t := s.cold.value;
      assert b.claims[t].mark == Some(k);
      assert At(s, t) && s.tasks[t].key == k && BringingIn(s.tasks[t].pc);
    }
  }

  /** At most one slot is Loading, and none is once the cold-load lock is free. */
  lemma AtMostOneLoading(run: seq<State>, i: nat, k: ModelCacheKey)
    requires IsRun(run) && i < |run| && k in run[i].slots && run[i].slots[k].state.Loading?
    ensures run[i].cold.Some?
    ensures forall j :: j in run[i].slots && run[i].slots[j].state.Loading? ==> j == k
  {
    InvRun(run, i);
    var b := View(run[i]);
    assert IsLoading(b, k);
    forall j | j in run[i].slots && run[i].slots[j].state.Loading?
      ensures j == k
    {
      assert IsLoading(b, j);
    }
  }

  /** The Loading branch of the re-check under the cold-load lock, 742-748, is dead. */
  lemma RecheckNeverWaits(run: seq<State>, i: nat, t: TaskId)
    requires IsRun(run) && i < |run| && At(run[i], t)
    ensures !run[i].tasks[t].pc.RecheckWait?
    ensures run[i].tasks[t].pc.RecheckLocked? ==>
              run[i].tasks[t].key in run[i].slots && !run[i].slots[run[i].tasks[t].key].state.Loading?
  {
    InvRun(run, i);
    assert TaskShape(run[i], run[i].tasks[t]);
    if run[i].tasks[t].pc.RecheckLocked? { RecheckNotLoading(run[i], t); }
  }

  /** No wake-up is lost: a request that waits without having been notified waits for a
      slot that is Loading, and some other request is still bound to resolve it. */
  lemma WaiterHasLoader(run: seq<State>, i: nat, t: TaskId)
    requires IsRun(run) && i < |run| && At(run[i], t) && IsWaiting(run[i].tasks[t])
    ensures run[i].tasks[t].key in run[i].slots && run[i].slots[run[i].tasks[t].key].state.Loading?
    ensures exists u: TaskId :: u != t && At(run[i], u) && run[i].tasks[u].key == run[i].tasks[t].key
                        && BringingIn(run[i].tasks[u].pc)
  {
    InvRun(run, i);
    var s, b := run[i], View(run[i]);
    assert b.claims[t].waits == Some(s.tasks[t].key);
    assert IsLoading(b, s.tasks[t].key);
    LoadingIffBringingIn(run, i, s.tasks[t].key);
  }

  /** No lock cycle: whoever holds a slot lock asks for no further lock and waits for
      nobody, so a request asking for the cold-load lock holds no slot lock. */
  lemma SlotHoldersAskForNothing(run: seq<State>, i: nat, t: TaskId, k: ModelCacheKey)
    requires IsRun(run) && i < |run| && t < |run[i].tasks| && Holds(run[i], t, k)
    ensures WantsSlot(run[i].tasks[t]).None? && !WantsCold(run[i].tasks[t]) && !IsWaiting(run[i].tasks[t])
    ensures Enabled(run[i], t)
  {
    InvRun(run, i);
    HolderMoves(run[i], t, k);
  }

  lemma HolderMoves(s: State, t: TaskId, k: ModelCacheKey)
    requires Inv(s) && t < |s.tasks| && Holds(s, t, k)
    ensures WantsSlot(s.tasks[t]).None? && !WantsCold(s.tasks[t]) && !IsWaiting(s.tasks[t]) && Enabled(s, t)
  {
    assert View(s).claims[t].slot == Some(k);
    assert ClaimOf(s.tasks[t]).slot == Some(k) && TaskShape(s, s.tasks[t]);
  }

  lemma StepTouchesClaimedSlots(s: State, t: TaskId, c: Choice, k: ModelCacheKey)
    requires Enabled(s, t) && TaskShape(s, s.tasks[t]) && k in s.slots && ClaimOf(s.tasks[t]).slot != Some(k)
    ensures k in Advance(s, t, c).slots && Advance(s, t, c).slots[k].state == s.slots[k].state
  {}

  /** Only the holder of a slot lock can change the slot's state. */
  lemma AdvanceTouchesHeldSlots(s: State, t: TaskId, c: Choice, k: ModelCacheKey)
    requires Inv(s) && Steps(s, t, c) && k in s.slots && s.slots[k].holder != Some(t)
    ensures k in Advance(s, t, c).slots && Advance(s, t, c).slots[k].state == s.slots[k].state
  {
    assert View(s).claims[t].slot == ClaimOf(s.tasks[t]).slot;
    StepTouchesClaimedSlots(s, t, c, k);
  }

  lemma GenerateStepKeepsSlots(s: State, t: TaskId, c: Choice)
    requires Enabled(s, t) && At(s, t) && s.tasks[t].pc.Generating?
    ensures Advance(s, t, c).slots == s.slots
  {}

  lemma NextKeepsGenerated(s: State, s': State, t: TaskId, key: ModelCacheKey)
    requires Inv(s) && Next(s, s') && Holds(s, t, key) && At(s, t) && s.tasks[t].pc.Generating?
    ensures key in s'.slots && s'.slots[key].state == s.slots[key].state
  {
    if TaskStep(s, s') {
      var u, c :| Enabled(s, u) && Allowed(s, u, c) && s' == Advance(s, u, c);
      if u == t {
        GenerateStepKeepsSlots(s, t, c);
      } else {
        AdvanceTouchesHeldSlots(s, u, c, key);
      }
    }
  }

  /** `generate` runs only on the request's own loaded model, and whatever happens next,
      eviction or load of another model included, leaves it loaded until it returns. */
  lemma GenerationIsProtected(run: seq<State>, i: nat, t: TaskId)
    requires IsRun(run) && i < |run| && At(run[i], t) && run[i].tasks[t].pc.Generating?
    ensures Holds(run[i], t, run[i].tasks[t].key)
    ensures run[i].slots[run[i].tasks[t].key].state == Loaded(run[i].tasks[t].key)
    ensures i + 1 < |run| ==> run[i].tasks[t].key in run[i + 1].slots
                              && run[i + 1].slots[run[i].tasks[t].key].state == Loaded(run[i].tasks[t].key)
  {
    InvRun(run, i);
    var s, key := run[i], run[i].tasks[t].key;
    assert View(s).claims[t].generates == Some(key) && View(s).claims[t].slot == Some(key);
    assert IsLoaded(View(s), key);
    if i + 1 < |run| {
      assert Next(run[i], run[i + 1]);
      NextKeepsGenerated(s, run[i + 1], t, key);
    }
  }

  // ----- how a request ended --------------------------------------------------

  predicate AfterGeneration(pc: RequestPc) {
    pc.GenReport? || pc == Done(Generated)
  }

  predicate AfterRefusal(pc: RequestPc) {
    pc.GenRefuse? || pc == Done(NotLoaded)
  }

  /** Under its slot lock the request found no loaded model, 854-858. */
  predicate FoundUnloaded(s: State, t: TaskId) {
    At(s, t) && s.tasks[t].pc.GenLocked? && Holds(s, t, s.tasks[t].key) && !s.slots[s.tasks[t].key].state.Loaded?
  }

  predicate RanGenerate(s: State, t: TaskId) {
    At(s, t) && s.tasks[t].pc.Generating?
  }

  /** What a task's state after a step says about its state before. */
  predicate CameFrom(s: State, pc: RequestPc, t: TaskId) {
    && At(s, t)
    && (AfterGeneration(pc) ==> AfterGeneration(s.tasks[t].pc) || s.tasks[t].pc.Generating?)
    && (AfterRefusal(pc) ==>
          AfterRefusal(s.tasks[t].pc)
          || (s.tasks[t].pc.GenLocked? && s.tasks[t].key in s.slots && !s.slots[s.tasks[t].key].state.Loaded?))
  }

  lemma EarlyPcBefore(s: State, t: TaskId, c: Choice)
    requires Enabled(s, t) && At(s, t) && At(Advance(s, t, c), t)
    requires !AfterGeneration(s.tasks[t].pc) && !AfterRefusal(s.tasks[t].pc) && !s.tasks[t].pc.GenLocked? && !s.tasks[t].pc.Generating?
    ensures !AfterGeneration(Advance(s, t, c).tasks[t].pc) && !AfterRefusal(Advance(s, t, c).tasks[t].pc)
  {}

  lemma LatePcBefore(s: State, t: TaskId, c: Choice)
    requires Enabled(s, t) && At(s, t) && At(Advance(s, t, c), t)
    requires AfterGeneration(s.tasks[t].pc) || AfterRefusal(s.tasks[t].pc) || s.tasks[t].pc.GenLocked? || s.tasks[t].pc.Generating?
    ensures CameFrom(s, Advance(s, t, c).tasks[t].pc, t)
  {}

  lemma OtherPcBefore(s: State, u: TaskId, c: Choice, t: TaskId)
    requires Enabled(s, u) && At(Advance(s, u, c), t) && t != u
    requires AfterGeneration(Advance(s, u, c).tasks[t].pc) || AfterRefusal(Advance(s, u, c).tasks[t].pc)
    ensures CameFrom(s, Advance(s, u, c).tasks[t].pc, t)
  {
    AdvanceKeepsSlots(s, u, c);
    AdvanceOthers(s, u, c, t);
  }

  lemma EvictionStays(s: State, u: TaskId, c: Choice)
    requires Enabled(s, u) && s.tasks[u].Eviction?
    ensures !At(Advance(s, u, c), u)
  {}

  lemma PcBefore(s: State, u: TaskId, c: Choice, t: TaskId)
    requires Enabled(s, u) && At(Advance(s, u, c), t)
    requires AfterGeneration(Advance(s, u, c).tasks[t].pc) || AfterRefusal(Advance(s, u, c).tasks[t].pc)
    ensures CameFrom(s, Advance(s, u, c).tasks[t].pc, t)
  {
    if u != t {
      OtherPcBefore(s, u, c, t);
    } else if s.tasks[u].Eviction? {
      EvictionStays(s, u, c);
    } else if AfterGeneration(s.tasks[t].pc) || AfterRefusal(s.tasks[t].pc) || s.tasks[t].pc.GenLocked? || s.tasks[t].pc.Generating? {
      LatePcBefore(s, t, c);
    } else {
      EarlyPcBefore(s, t, c);
    }
  }

  lemma ClaimHeld(s: State, t: TaskId, k: ModelCacheKey)
    requires Inv(s) && t < |s.tasks| && ClaimOf(s.tasks[t]).slot == Some(k)
    ensures Holds(s, t, k)
  {
    assert View(s).claims[t].slot == Some(k);
  }

  lemma StatusOf(s: State, pc: RequestPc, t: TaskId)
    requires Inv(s) && CameFrom(s, pc, t)
    ensures AfterGeneration(pc) ==> AfterGeneration(s.tasks[t].pc) || RanGenerate(s, t)
    ensures AfterRefusal(pc) ==> AfterRefusal(s.tasks[t].pc) || FoundUnloaded(s, t)
  {
    if s.tasks[t].pc.GenLocked? { ClaimHeld(s, t, s.tasks[t].key); }
  }

  lemma StatusBefore(s: State, s': State, t: TaskId)
    requires Inv(s) && Next(s, s') && At(s', t)
    requires AfterGeneration(s'.tasks[t].pc) || AfterRefusal(s'.tasks[t].pc)
    ensures At(s, t)
    ensures AfterGeneration(s'.tasks[t].pc) ==> AfterGeneration(s.tasks[t].pc) || RanGenerate(s, t)
    ensures AfterRefusal(s'.tasks[t].pc) ==> AfterRefusal(s.tasks[t].pc) || FoundUnloaded(s, t)
  {
    if TaskStep(s, s') {
      var u, c :| Enabled(s, u) && Allowed(s, u, c) && s' == Advance(s, u, c);
      PcBefore(s, u, c, t);
      StatusOf(s, s'.tasks[t].pc, t);
    } else {
      assert t < |s.tasks| ==> s'.tasks[t] == s.tasks[t];
    }
  }

  /** A request reports success only after its generation ran, and the not-loaded error
      only after it found its slot without a model while holding the slot lock. */
  lemma {:induction false} OutcomesAreEarned(run: seq<State>, i: nat, t: TaskId)
    requires IsRun(run) && i < |run| && At(run[i], t)
    requires AfterGeneration(run[i].tasks[t].pc) || AfterRefusal(run[i].tasks[t].pc)
    ensures AfterGeneration(run[i].tasks[t].pc) ==> exists j: nat :: j < i && RanGenerate(run[j], t)
    ensures AfterRefusal(run[i].tasks[t].pc) ==> exists j: nat :: j < i && FoundUnloaded(run[j], t)
  {
    if i > 0 {
      InvRun(run, i - 1);
      StatusBefore(run[i - 1], run[i], t);
      if AfterGeneration(run[i - 1].tasks[t].pc) || AfterRefusal(run[i - 1].tasks[t].pc) {
        OutcomesAreEarned(run, i - 1, t);
      }
    }
  }
}
