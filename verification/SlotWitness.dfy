/** A concrete interleaving: a model is loaded, evicted before its request generates,
    and the request ends with the not-loaded error. */
module SlotWitness {
  import opened Wrappers
  import opened Slots

  const K: ModelCacheKey := ModelCacheKey("llamacpp", "m", "auto")

  const Any: Choice := Choice(true, [])

  /** One slot and one request. */
  function Alone(state: SlotState, holder: Option<TaskId>, cold: Option<TaskId>, pc: RequestPc): State {
    State(map[K := Slot(state, holder)], cold, [Request(K, pc)])
  }

  /** The same with an eviction beside the request. */
  function Beside(state: SlotState, holder: Option<TaskId>, pc: RequestPc, evict: Task): State {
    State(map[K := Slot(state, holder)], None, [Request(K, pc), evict])
  }

  ghost predicate Reaches(run: seq<State>, s: State) {
    IsRun(run) && run[|run| - 1] == s
  }

  lemma Extend(run: seq<State>, s: State, s': State) returns (longer: seq<State>)
    requires Reaches(run, s) && Next(s, s')
    ensures Reaches(longer, s')
  {
    longer := run + [s'];
  }

  lemma Step(run: seq<State>, s: State, t: TaskId, s': State) returns (longer: seq<State>)
    requires Reaches(run, s) && Enabled(s, t) && Allowed(s, t, Any) && Advance(s, t, Any) == s'
    ensures Reaches(longer, s')
  {
    assert TaskStep(s, s');
    longer := Extend(run, s, s');
  }

  lemma UpToColdWant() returns (run: seq<State>)
    ensures Reaches(run, Alone(Empty, None, None, ColdWant))
  {
    run := [Initial];
    assert Alone(Empty, None, None, Top) == ArriveRequest(Initial, K);
    run := Extend(run, Initial, Alone(Empty, None, None, Top));
    run := Step(run, Alone(Empty, None, None, Top), 0, Alone(Empty, Some(0), None, TopLocked));
    run := Step(run, Alone(Empty, Some(0), None, TopLocked), 0, Alone(Empty, None, None, ColdWant));
  }

  lemma UpToRecheck() returns (run: seq<State>)
    ensures Reaches(run, Alone(Empty, Some(0), Some(0), RecheckLocked))
  {
    run := UpToColdWant();
    run := Step(run, Alone(Empty, None, None, ColdWant), 0, Alone(Empty, None, Some(0), RecheckWant));
    run := Step(run, Alone(Empty, None, Some(0), RecheckWant), 0, Alone(Empty, Some(0), Some(0), RecheckLocked));
  }

  lemma UpToMark() returns (run: seq<State>)
    ensures Reaches(run, Alone(Loading, None, Some(0), Announce))
  {
    run := UpToRecheck();
    run := Step(run, Alone(Empty, Some(0), Some(0), RecheckLocked), 0, Alone(Loading, None, Some(0), Announce));
  }

  lemma UpToSnapshot() returns (run: seq<State>)
    ensures Reaches(run, Alone(Loading, None, Some(0), Snapshot))
  {
    run := UpToMark();
    run := Step(run, Alone(Loading, None, Some(0), Announce), 0, Alone(Loading, None, Some(0), Snapshot));
  }

  lemma UpToLoad() returns (run: seq<State>)
    ensures Reaches(run, Alone(Loading, None, Some(0), LoadRunning))
  {
    run := UpToSnapshot();
    assert Alone(Loading, None, Some(0), Snapshot).slots.Keys - {K} == {};
    run := Step(run, Alone(Loading, None, Some(0), Snapshot), 0, Alone(Loading, None, Some(0), Sweep([])));
    run := Step(run, Alone(Loading, None, Some(0), Sweep([])), 0, Alone(Loading, None, Some(0), LoadRunning));
  }

  lemma UpToStoreLocked() returns (run: seq<State>)
    ensures Reaches(run, Alone(Loading, Some(0), Some(0), StoreLocked))
  {
    run := UpToLoad();
    run := Step(run, Alone(Loading, None, Some(0), LoadRunning), 0, Alone(Loading, None, Some(0), StoreWant));
    run := Step(run, Alone(Loading, None, Some(0), StoreWant), 0, Alone(Loading, Some(0), Some(0), StoreLocked));
  }

  lemma UpToStored() returns (run: seq<State>)
    ensures Reaches(run, Alone(Loaded(K), Some(0), Some(0), StoreDropCold))
  {
    run := UpToStoreLocked();
    assert NotifyWaiters(Alone(Loaded(K), Some(0), Some(0), StoreLocked), K).tasks == [Request(K, StoreLocked)];
    run := Step(run, Alone(Loading, Some(0), Some(0), StoreLocked), 0, Alone(Loaded(K), Some(0), Some(0), StoreDropCold));
  }

  lemma UpToLoaded() returns (run: seq<State>)
    ensures Reaches(run, Alone(Loaded(K), None, None, GenWant))
  {
    run := UpToStored();
    run := Step(run, Alone(Loaded(K), Some(0), Some(0), StoreDropCold), 0, Alone(Loaded(K), Some(0), None, StoreDropSlot));
    run := Step(run, Alone(Loaded(K), Some(0), None, StoreDropSlot), 0, Alone(Loaded(K), None, None, GenWant));
  }

  lemma UpToEvicted() returns (run: seq<State>)
    ensures Reaches(run, Beside(Empty, None, GenWant, Eviction([], false, true)))
  {
    run := UpToLoaded();
    var s := Alone(Loaded(K), None, None, GenWant);
    assert (set k | k in [K]) == (set k | k in s.slots && k.modelId == "m");
    assert SelectsModel(s, "m", [K]);
    var before, held := Beside(Loaded(K), None, GenWant, Eviction([K], false, false)),
                        Beside(Loaded(K), Some(1), GenWant, Eviction([K], true, false));
    assert before == ArriveEviction(s, [K]);
    run := Extend(run, s, before);
    run := Step(run, before, 1, held);
    assert NotifyWaiters(Put(held, K, Empty), K).tasks == held.tasks && [K][1..] == [];
    run := Step(run, held, 1, Beside(Empty, None, GenWant, Eviction([], false, true)));
  }

  lemma UpToRefusal() returns (run: seq<State>)
    ensures Reaches(run, Beside(Empty, Some(0), GenRefuse, Eviction([], false, true)))
  {
    run := UpToEvicted();
    run := Step(run, Beside(Empty, None, GenWant, Eviction([], false, true)), 0,
                Beside(Empty, Some(0), GenLocked, Eviction([], false, true)));
    run := Step(run, Beside(Empty, Some(0), GenLocked, Eviction([], false, true)), 0,
                Beside(Empty, Some(0), GenRefuse, Eviction([], false, true)));
  }

  /** The race the not-loaded error at 854-858 exists for does happen. */
  lemma EvictedBeforeGeneration() returns (run: seq<State>)
    ensures IsRun(run)
    ensures run[|run| - 1].tasks == [Request(K, Done(NotLoaded)), Eviction([], false, true)]
  {
    run := UpToRefusal();
    run := Step(run, Beside(Empty, Some(0), GenRefuse, Eviction([], false, true)), 0,
                Beside(Empty, None, Done(NotLoaded), Eviction([], false, true)));
  }
}
