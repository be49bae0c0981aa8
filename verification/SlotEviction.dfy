/** What an eviction does, over whole runs: it empties the slots of its model id that it
    found, and no others (desktop/crates/goose-local-inference/src/lib.rs, 215-237). */
module SlotEviction {
  import opened Slots
  import opened SlotInvariant
  import opened SlotOutcomes

  /** Task `t` is the eviction that came with move `i`. */
  predicate Came(run: seq<State>, moves: seq<Move>, i: nat, t: TaskId)
    requires i < |moves| && i < |run|
  {
    moves[i].EvictionCame? && t == |run[i].tasks|
  }

  /** At its next step, `t` looks at a slot whose lock it holds. */
  predicate Visits(s: State, m: Move, t: TaskId, k: ModelCacheKey) {
    && m.Stepped? && m.t == t && t < |s.tasks| && s.tasks[t].Eviction? && s.tasks[t].locked
    && s.tasks[t].rest != [] && s.tasks[t].rest[0] == k && k in s.slots
  }

  /** It listed exactly the slots of its model id. */
  lemma EvictionListsItsModel(run: seq<State>, moves: seq<Move>, i: nat, t: TaskId, k: ModelCacheKey)
    requires IsTrace(run, moves) && i < |moves| && Came(run, moves, i, t)
    ensures t < |run[i + 1].tasks| && run[i + 1].tasks[t] == Eviction(moves[i].order, false, false)
    ensures k in moves[i].order <==> k in run[i].slots && k.modelId == moves[i].modelId
  {
    assert Makes(run[i], moves[i], run[i + 1]);
    var listed := set j | j in moves[i].order;
    var chosen := set j | j in run[i].slots && j.modelId == moves[i].modelId;
    assert listed == chosen;
    assert k in listed <==> k in moves[i].order;
    assert k in chosen <==> k in run[i].slots && k.modelId == moves[i].modelId;
  }

  // ----- single moves ------------------------------------------------------------------

  lemma OtherEviction(s: State, m: Move, s': State, t: TaskId)
    requires Makes(s, m, s') && t < |s.tasks| && s.tasks[t].Eviction? && !Own(m, t)
    ensures t < |s'.tasks| && s'.tasks[t] == s.tasks[t]
  {
    if m.Stepped? { AdvanceOthers(s, m.t, m.c, t); }
  }

  /** Its own step takes the lock of the next slot, or empties it if it is loaded, says so,
      and goes on. */
  lemma OwnEviction(s: State, t: TaskId, c: Choice)
    requires Steps(s, t, c) && s.tasks[t].Eviction?
    ensures t < |Advance(s, t, c).tasks| && s.tasks[t].rest != []
    ensures var task, after, k := s.tasks[t], Advance(s, t, c), s.tasks[t].rest[0];
            if !task.locked then after.tasks[t] == task.(locked := true) && after.slots.Keys == s.slots.Keys
            else
              && after.tasks[t] == Eviction(task.rest[1..], false, task.evicted || s.slots[k].state.Loaded?)
              && k in s.slots && k in after.slots && !after.slots[k].state.Loaded?
  {}

  lemma OwnTouches(s: State, t: TaskId, c: Choice, k: ModelCacheKey)
    requires Steps(s, t, c) && s.tasks[t].Eviction? && k in s.slots
    ensures k in Advance(s, t, c).slots
    ensures Advance(s, t, c).slots[k].state != s.slots[k].state ==>
              s.tasks[t].locked && s.tasks[t].rest[0] == k
              && s.slots[k].state.Loaded? && Advance(s, t, c).slots[k].state.Empty?
  {}

  // ----- whole runs -----------------------------------------------------------------------

  /** How far it has come: it has visited all before the rest, and reports an eviction
      exactly if one of them was loaded. */
  ghost predicate Progress(run: seq<State>, moves: seq<Move>, i: nat, j: nat, t: TaskId, order: seq<ModelCacheKey>)
    requires j < |run| && j <= |moves|
  {
    && t < |run[j].tasks| && run[j].tasks[t].Eviction? && |run[j].tasks[t].rest| <= |order|
    && (run[j].tasks[t].locked ==> run[j].tasks[t].rest != [])
    && var n := |order| - |run[j].tasks[t].rest|;
    && run[j].tasks[t].rest == order[n..]
    && (forall m :: 0 <= m < n ==> Visited(run, moves, i, j, t, order[m]))
    && (run[j].tasks[t].evicted <==> FoundLoaded(run, moves, i, j, t))
  }

  ghost predicate Visited(run: seq<State>, moves: seq<Move>, i: nat, j: nat, t: TaskId, k: ModelCacheKey)
    requires j < |run| && j <= |moves|
  {
    exists v: nat :: i < v < j && Visits(run[v], moves[v], t, k) && k in run[v + 1].slots && !run[v + 1].slots[k].state.Loaded?
  }

  ghost predicate FoundLoaded(run: seq<State>, moves: seq<Move>, i: nat, j: nat, t: TaskId)
    requires j < |run| && j <= |moves|
  {
    exists v: nat, k: ModelCacheKey :: i < v < j && Visits(run[v], moves[v], t, k) && run[v].slots[k].state.Loaded?
  }

  lemma VisitedLater(run: seq<State>, moves: seq<Move>, i: nat, j: nat, t: TaskId, k: ModelCacheKey)
    requires j + 1 < |run| && j + 1 <= |moves| && Visited(run, moves, i, j, t, k)
    ensures Visited(run, moves, i, j + 1, t, k)
  {}

  lemma NoVisitNothingFound(run: seq<State>, moves: seq<Move>, i: nat, j: nat, t: TaskId)
    requires i < j && j + 1 < |run| && j + 1 <= |moves|
    requires forall k :: !Visits(run[j], moves[j], t, k)
    ensures FoundLoaded(run, moves, i, j + 1, t) <==> FoundLoaded(run, moves, i, j, t)
  {}

  lemma VisitFinds(run: seq<State>, moves: seq<Move>, i: nat, j: nat, t: TaskId, k: ModelCacheKey)
    requires i < j && j + 1 < |run| && j + 1 <= |moves| && Visits(run[j], moves[j], t, k)
    ensures FoundLoaded(run, moves, i, j + 1, t) <==> FoundLoaded(run, moves, i, j, t) || run[j].slots[k].state.Loaded?
  {}

  lemma QuietProgress(run: seq<State>, moves: seq<Move>, i: nat, j: nat, t: TaskId, order: seq<ModelCacheKey>)
    requires i < j && j + 1 < |run| && j + 1 <= |moves| && Progress(run, moves, i, j, t, order)
    requires t < |run[j + 1].tasks| && (forall k :: !Visits(run[j], moves[j], t, k))
    requires run[j + 1].tasks[t].Eviction? && run[j + 1].tasks[t].rest == run[j].tasks[t].rest
    requires run[j + 1].tasks[t].evicted == run[j].tasks[t].evicted
    requires run[j + 1].tasks[t].locked ==> run[j + 1].tasks[t].rest != []
    ensures Progress(run, moves, i, j + 1, t, order)
  {
    NoVisitNothingFound(run, moves, i, j, t);
    var n := |order| - |run[j].tasks[t].rest|;
    forall m | 0 <= m < n ensures Visited(run, moves, i, j + 1, t, order[m]) {
      VisitedLater(run, moves, i, j, t, order[m]);
    }
  }

  lemma VisitProgress(run: seq<State>, moves: seq<Move>, i: nat, j: nat, t: TaskId, order: seq<ModelCacheKey>)
    requires i < j && j + 1 < |run| && j + 1 <= |moves| && Progress(run, moves, i, j, t, order)
    requires run[j].tasks[t].rest != [] && Visits(run[j], moves[j], t, run[j].tasks[t].rest[0])
    requires var k := run[j].tasks[t].rest[0];
             && t < |run[j + 1].tasks| && k in run[j + 1].slots && !run[j + 1].slots[k].state.Loaded?
             && run[j + 1].tasks[t] == Eviction(run[j].tasks[t].rest[1..], false,
                                                run[j].tasks[t].evicted || run[j].slots[k].state.Loaded?)
    ensures Progress(run, moves, i, j + 1, t, order)
  {
    var n := |order| - |run[j].tasks[t].rest|;
    var k := run[j].tasks[t].rest[0];
    assert order[n..][0] == order[n] && order[n..][1..] == order[n + 1..];
    VisitFinds(run, moves, i, j, t, k);
    assert Visited(run, moves, i, j + 1, t, k);
    forall m | 0 <= m < n + 1 ensures Visited(run, moves, i, j + 1, t, order[m]) {
      if m < n { VisitedLater(run, moves, i, j, t, order[m]); }
    }
  }

  lemma NextProgress(run: seq<State>, moves: seq<Move>, i: nat, j: nat, t: TaskId, order: seq<ModelCacheKey>)
    requires IsTrace(run, moves) && i < j && j + 1 < |run| && Progress(run, moves, i, j, t, order)
    ensures Progress(run, moves, i, j + 1, t, order)
  {
    assert Makes(run[j], moves[j], run[j + 1]);
    if !Own(moves[j], t) {
      OtherEviction(run[j], moves[j], run[j + 1], t);
      QuietProgress(run, moves, i, j, t, order);
    } else {
      OwnEviction(run[j], t, moves[j].c);
      if run[j].tasks[t].locked { VisitProgress(run, moves, i, j, t, order); } else { QuietProgress(run, moves, i, j, t, order); }
    }
  }

  lemma NothingVisited(run: seq<State>, moves: seq<Move>, i: nat, t: TaskId, order: seq<ModelCacheKey>)
    requires i + 1 < |run| && i + 1 <= |moves|
    requires t < |run[i + 1].tasks| && run[i + 1].tasks[t] == Eviction(order, false, false)
    ensures Progress(run, moves, i, i + 1, t, order)
  {
    assert order[0..] == order;
  }

  lemma ProgressStarts(run: seq<State>, moves: seq<Move>, i: nat, t: TaskId)
    requires IsTrace(run, moves) && i + 1 < |run| && Came(run, moves, i, t)
    ensures Progress(run, moves, i, i + 1, t, moves[i].order)
  {
    EvictionListsItsModel(run, moves, i, t, ModelCacheKey("", "", ""));
    NothingVisited(run, moves, i, t, moves[i].order);
  }

  lemma {:induction false} EvictionProgresses(run: seq<State>, moves: seq<Move>, i: nat, j: nat, t: TaskId)
    requires IsTrace(run, moves) && i < j < |run| && Came(run, moves, i, t)
    ensures Progress(run, moves, i, j, t, moves[i].order)
    decreases j
  {
    if j == i + 1 {
      ProgressStarts(run, moves, i, t);
    } else {
      EvictionProgresses(run, moves, i, j - 1, t);
      NextProgress(run, moves, i, j - 1, t, moves[i].order);
    }
  }

  /** A finished eviction has looked at every slot of its model id that existed when it
      came, left none of them loaded behind it, and reports an eviction exactly if it found
      one loaded. */
  lemma EvictionVisitsItsModel(run: seq<State>, moves: seq<Move>, i: nat, j: nat, t: TaskId)
    requires IsTrace(run, moves) && i < j < |run| && Came(run, moves, i, t)
    requires t < |run[j].tasks| && Finished(run[j].tasks[t])
    ensures forall k :: k in run[i].slots && k.modelId == moves[i].modelId ==> Visited(run, moves, i, j, t, k)
    ensures run[j].tasks[t].Eviction? && (run[j].tasks[t].evicted <==> FoundLoaded(run, moves, i, j, t))
  {
    EvictionProgresses(run, moves, i, j, t);
    forall k | k in run[i].slots && k.modelId == moves[i].modelId ensures Visited(run, moves, i, j, t, k) {
      EvictionListsItsModel(run, moves, i, t, k);
      var m :| 0 <= m < |moves[i].order| && moves[i].order[m] == k;
    }
  }

  /** An eviction changes a slot only to empty it, and only if it is loaded and belongs to
      its model id. */
  lemma EvictionEmptiesOnlyItsModel(run: seq<State>, moves: seq<Move>, i: nat, j: nat, t: TaskId, k: ModelCacheKey)
    requires IsTrace(run, moves) && i < j && j + 1 < |run| && Came(run, moves, i, t) && Own(moves[j], t)
    requires k in run[j].slots
    ensures k in run[j + 1].slots
    ensures run[j + 1].slots[k].state != run[j].slots[k].state ==>
              k.modelId == moves[i].modelId && run[j].slots[k].state.Loaded? && run[j + 1].slots[k].state.Empty?
  {
    EvictionProgresses(run, moves, i, j, t);
    assert Makes(run[j], moves[j], run[j + 1]);
    OwnTouches(run[j], t, moves[j].c, k);
    if run[j + 1].slots[k].state != run[j].slots[k].state {
      assert k in moves[i].order;
      EvictionListsItsModel(run, moves, i, t, k);
    }
  }
}
