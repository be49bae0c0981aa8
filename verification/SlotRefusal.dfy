/** Why a request ends with the not-loaded error: its model was there when it left its
    loop, and an eviction or another request's sweep took it away. */
module SlotRefusal {
  import opened Wrappers
  import opened Slots
  import opened SlotClaims
  import opened SlotInvariant
  import opened SlotSafety

  /** Between leaving the loop (729, 741, 830) and looking at the slot again (852). */
  predicate LeftLoop(pc: RequestPc) {
    pc.StoreDropCold? || pc.StoreDropSlot? || pc.RecheckBreak? || pc.GenWant? || pc.GenLocked?
  }

  predicate OwnLoaded(s: State, t: TaskId) {
    At(s, t) && s.tasks[t].key in s.slots && s.slots[s.tasks[t].key].state.Loaded?
  }

  /** At 229-231 or at 767-770, holding the lock of `k`. */
  predicate Unloads(task: Task, k: ModelCacheKey) {
    match task
    case Request(_, pc) => pc.SweepLocked? && pc.rest != [] && pc.rest[0] == k
    case Eviction(rest, locked, _) => locked && rest != [] && rest[0] == k
  }

  /** After `t` left its loop, the step of another task empties its slot. */
  ghost predicate Emptied(s: State, s': State, t: TaskId) {
    && OwnLoaded(s, t) && LeftLoop(s.tasks[t].pc)
    && s.tasks[t].key in s'.slots && s'.slots[s.tasks[t].key].state.Empty?
    && exists u: TaskId, c: Choice :: u != t && Steps(s, u, c) && s' == Advance(s, u, c) && Unloads(s.tasks[u], s.tasks[t].key)
  }

  // ----- single steps ----------------------------------------------------------

  lemma OwnStepLeaves(s: State, t: TaskId, c: Choice)
    requires Enabled(s, t) && At(s, t) && At(Advance(s, t, c), t) && LeftLoop(Advance(s, t, c).tasks[t].pc)
    ensures LeftLoop(s.tasks[t].pc) || OwnLoaded(Advance(s, t, c), t)
  {
    if Looks(s.tasks[t].pc) { LookLeaves(s, t, c); } else { NoOtherLeaves(s, t, c); }
  }

  /** At one of the three places where the loop is left. */
  predicate Looks(pc: RequestPc) {
    pc.TopLocked? || pc.RecheckLocked? || pc.StoreLocked?
  }

  lemma LookLeaves(s: State, t: TaskId, c: Choice)
    requires Enabled(s, t) && At(s, t) && At(Advance(s, t, c), t) && Looks(s.tasks[t].pc)
    ensures LeftLoop(Advance(s, t, c).tasks[t].pc) ==> OwnLoaded(Advance(s, t, c), t)
  {}

  lemma NoOtherLeaves(s: State, t: TaskId, c: Choice)
    requires Enabled(s, t) && At(s, t) && At(Advance(s, t, c), t) && !Looks(s.tasks[t].pc)
    ensures LeftLoop(Advance(s, t, c).tasks[t].pc) ==> LeftLoop(s.tasks[t].pc)
  {}

  lemma OwnStepKeepsSlot(s: State, t: TaskId, c: Choice)
    requires Enabled(s, t) && OwnLoaded(s, t) && LeftLoop(s.tasks[t].pc)
    ensures OwnLoaded(Advance(s, t, c), t)
  {}

  lemma RequestUnloads(s: State, u: TaskId, c: Choice, k: ModelCacheKey)
    requires Enabled(s, u) && TaskShape(s, s.tasks[u]) && s.tasks[u].Request? && !s.tasks[u].pc.AbortLocked?
    requires IsLoaded(View(s), k) && !IsLoaded(View(Advance(s, u, c)), k)
    ensures Unloads(s.tasks[u], k) && k in Advance(s, u, c).slots && Advance(s, u, c).slots[k].state.Empty?
  {}

  lemma EvictionUnloads(s: State, u: TaskId, c: Choice, k: ModelCacheKey)
    requires Enabled(s, u) && TaskShape(s, s.tasks[u]) && s.tasks[u].Eviction?
    requires IsLoaded(View(s), k) && !IsLoaded(View(Advance(s, u, c)), k)
    ensures Unloads(s.tasks[u], k) && k in Advance(s, u, c).slots && Advance(s, u, c).slots[k].state.Empty?
  {}

  /** An aborting load gives up a slot that is Loading, and so no loaded one. */
  lemma AbortUnloadsNothing(s: State, u: TaskId, c: Choice, k: ModelCacheKey)
    requires Inv(s) && Enabled(s, u) && At(s, u) && s.tasks[u].pc.AbortLocked? && IsLoaded(View(s), k)
    ensures IsLoaded(View(Advance(s, u, c)), k)
  {
    assert View(s).claims[u].mark == Some(s.tasks[u].key);
    assert IsLoading(View(s), s.tasks[u].key);
  }

  /** Only evictions and sweeps unload. */
  lemma WhoUnloads(s: State, u: TaskId, c: Choice, k: ModelCacheKey)
    requires Inv(s) && Steps(s, u, c) && IsLoaded(View(s), k) && !IsLoaded(View(Advance(s, u, c)), k)
    ensures Unloads(s.tasks[u], k) && k in Advance(s, u, c).slots && Advance(s, u, c).slots[k].state.Empty?
  {
    assert TaskShape(s, s.tasks[u]);
    if s.tasks[u].Eviction? {
      EvictionUnloads(s, u, c, k);
    } else {
      if s.tasks[u].pc.AbortLocked? { AbortUnloadsNothing(s, u, c, k); }
      RequestUnloads(s, u, c, k);
    }
  }

  lemma LeftLoopBefore(s: State, s': State, t: TaskId)
    requires Inv(s) && Next(s, s') && At(s', t) && LeftLoop(s'.tasks[t].pc) && !OwnLoaded(s', t)
    ensures At(s, t) && LeftLoop(s.tasks[t].pc) && s.tasks[t].key == s'.tasks[t].key
  {
    if TaskStep(s, s') {
      var u, c :| Enabled(s, u) && Allowed(s, u, c) && s' == Advance(s, u, c);
      AdvanceKeepsSlots(s, u, c);
      if u == t { KeyStays(s, t, c); OwnStepLeaves(s, t, c); } else { AdvanceOthers(s, u, c, t); }
    }
  }

  lemma KeyStays(s: State, t: TaskId, c: Choice)
    requires Enabled(s, t) && At(Advance(s, t, c), t)
    ensures At(s, t) && Advance(s, t, c).tasks[t].key == s.tasks[t].key
  {}

  lemma StepEmpties(s: State, s': State, t: TaskId)
    requires Inv(s) && Next(s, s') && OwnLoaded(s, t) && LeftLoop(s.tasks[t].pc)
    requires At(s', t) && s'.tasks[t].key == s.tasks[t].key && !OwnLoaded(s', t) && s.tasks[t].key in s'.slots
    ensures Emptied(s, s', t)
  {
    var k := s.tasks[t].key;
    if TaskStep(s, s') {
      var u, c :| Enabled(s, u) && Allowed(s, u, c) && s' == Advance(s, u, c);
      if u == t { OwnStepKeepsSlot(s, t, c); }
      assert IsLoaded(View(s), k) && !IsLoaded(View(s'), k);
      WhoUnloads(s, u, c, k);
    }
  }

  // ----- whole runs ----------------------------------------------------------------

  lemma {:induction false} UnloadedMeansEmptied(run: seq<State>, i: nat, t: TaskId)
    requires IsRun(run) && i < |run| && At(run[i], t) && LeftLoop(run[i].tasks[t].pc) && !OwnLoaded(run[i], t)
    ensures exists k: nat :: k < i && Emptied(run[k], run[k + 1], t)
  {
    if i > 0 {
      InvRun(run, i - 1);
      InvRun(run, i);
      assert Next(run[i - 1], run[i - 1 + 1]);
      LeftLoopBefore(run[i - 1], run[i], t);
      if OwnLoaded(run[i - 1], t) {
        assert TaskShape(run[i], run[i].tasks[t]);
        StepEmpties(run[i - 1], run[i], t);
        assert Emptied(run[i - 1], run[i - 1 + 1], t);
      } else {
        UnloadedMeansEmptied(run, i - 1, t);
      }
    }
  }

  /** A request that ends with the not-loaded error left its loop with its model loaded,
      and then an eviction or another request's sweep emptied its slot. */
  lemma RefusedMeansEmptied(run: seq<State>, i: nat, t: TaskId)
    requires IsRun(run) && i < |run| && At(run[i], t) && AfterRefusal(run[i].tasks[t].pc)
    ensures exists k: nat :: k < i && Emptied(run[k], run[k + 1], t)
  {
    OutcomesAreEarned(run, i, t);
    var j: nat :| j < i && FoundUnloaded(run[j], t);
    UnloadedMeansEmptied(run, j, t);
  }
}
