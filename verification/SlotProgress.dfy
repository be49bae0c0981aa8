/** Progress of the slot protocol: no reachable state is stuck, and once requests stop
    arriving every interleaving finishes every task after a bounded number of steps. */
module SlotProgress {
  import opened Wrappers
  import opened Slots
  import opened SlotClaims
  import opened SlotInvariant

  // ----- no deadlock ----------------------------------------------------------

  lemma {:induction false} IterationExists(chosen: set<ModelCacheKey>) returns (order: seq<ModelCacheKey>)
    ensures Iterates(order, chosen)
    decreases |chosen|
  {
    if chosen == {} {
      order := [];
    } else {
      var k :| k in chosen;
      var rest := IterationExists(chosen - {k});
      assert forall j :: j in rest ==> j in (set i | i in rest);
      order := [k] + rest;
      assert (set i | i in order) == {k} + (set i | i in rest);
    }
  }

  lemma ChoiceExists(s: State, t: TaskId) returns (c: Choice)
    requires Enabled(s, t)
    ensures Allowed(s, t, c)
  {
    var order: seq<ModelCacheKey> := [];
    if s.tasks[t].Request? {
      order := IterationExists(s.slots.Keys - {s.tasks[t].key});
    }
    c := Choice(true, order);
  }

  /** Whoever holds a slot lock can move. */
  lemma SlotHolderMoves(s: State, k: ModelCacheKey)
    requires Inv(s) && k in s.slots && s.slots[k].holder.Some?
    ensures Enabled(s, s.slots[k].holder.value)
  {
    var t := s.slots[k].holder.value;
    assert View(s).claims[t].slot == Some(k);
    assert TaskShape(s, s.tasks[t]);
  }

  /** When every slot lock is free, the holder of the cold-load lock can move. */
  lemma ColdHolderMoves(s: State)
    requires Inv(s) && s.cold.Some?
    requires forall k :: k in s.slots ==> s.slots[k].holder.None?
    ensures Enabled(s, s.cold.value)
  {
    var t := s.cold.value;
    assert View(s).claims[t].cold;
    assert TaskShape(s, s.tasks[t]);
  }

  /** An un-notified waiter waits for a slot that the cold-load lock holder brings in. */
  lemma WaiterNeedsColdHolder(s: State, t: TaskId)
    requires Inv(s) && t < |s.tasks| && IsWaiting(s.tasks[t])
    ensures s.cold.Some? && s.tasks[t].key in s.slots && s.slots[s.tasks[t].key].state.Loading?
  {
    assert View(s).claims[t].waits == Some(s.tasks[t].key);
    assert IsLoading(View(s), s.tasks[t].key);
  }

  lemma FreeTaskMoves(s: State, t: TaskId)
    requires Inv(s) && t < |s.tasks| && !Finished(s.tasks[t]) && !IsWaiting(s.tasks[t]) && s.cold.None?
    requires forall k :: k in s.slots ==> s.slots[k].holder.None?
    ensures Enabled(s, t)
  {
    assert TaskShape(s, s.tasks[t]);
  }

  /** Every state of every run in which some task is unfinished has an enabled step. */
  lemma NeverStuck(run: seq<State>, i: nat, u: TaskId) returns (t: TaskId, c: Choice)
    requires IsRun(run) && i < |run| && u < |run[i].tasks| && !Finished(run[i].tasks[u])
    ensures Enabled(run[i], t) && Allowed(run[i], t, c)
  {
    InvRun(run, i);
    t, c := SoundStateMoves(run[i], u);
  }

  lemma SoundStateMoves(s: State, u: TaskId) returns (t: TaskId, c: Choice)
    requires Inv(s) && u < |s.tasks| && !Finished(s.tasks[u])
    ensures Enabled(s, t) && Allowed(s, t, c)
  {
    if k :| k in s.slots && s.slots[k].holder.Some? {
      SlotHolderMoves(s, k);
      t := s.slots[k].holder.value;
    } else if s.cold.Some? {
      ColdHolderMoves(s);
      t := s.cold.value;
    } else {
      if IsWaiting(s.tasks[u]) { WaiterNeedsColdHolder(s, u); }
      FreeTaskMoves(s, u);
      t := u;
    }
    c := ChoiceExists(s, t);
  }

  // ----- termination ----------------------------------------------------------

  /** How many steps a request can still take before it finishes or is next woken; `n` is
      the number of slots. */
  function PcRank(pc: RequestPc, n: nat): nat {
    match pc
    case Done(_) => 0
    case GenReport | GenRefuse | AbortDropCold(_) | Waiting(false) => 1
    case Generating | AbortReport(_) | RecheckWait(false) => 2
    case GenLocked | AbortLocked(_) => 3
    case GenWant | AbortWant(_) => 4
    case StoreDropSlot | RecheckBreak => 5
    case StoreDropCold => 6
    case StoreLocked => 7
    case StoreWant => 8
    case LoadRunning => 9
    case Sweep(rest) => 10 + 2 * |rest|
    case SweepLocked(rest) => 9 + 2 * |rest|
    case Snapshot => 11 + 2 * n
    case Announce => 12 + 2 * n
    case RecheckLocked => 13 + 2 * n
    case RecheckWant => 14 + 2 * n
    case ColdWant => 15 + 2 * n
    case TopLocked => 16 + 2 * n
    case Top => 17 + 2 * n
    case Waiting(true) => 18 + 2 * n
    case RecheckWait(true) => 19 + 2 * n
  }

  function Rank(task: Task, n: nat): nat {
    match task
    case Request(_, pc) => PcRank(pc, n)
    case Eviction(rest, locked, _) => 2 * |rest| + (if locked || rest == [] then 0 else 1)
  }

  /** A request that may still resolve a slot, and so may still wake others. */
  predicate Unresolved(task: Task) {
    task.Request? && !(task.pc.StoreDropCold? || task.pc.StoreDropSlot? || task.pc.AbortReport?
                       || task.pc.AbortDropCold? || task.pc.RecheckBreak? || task.pc.GenWant? || task.pc.GenLocked?
                       || task.pc.Generating? || task.pc.GenReport? || task.pc.GenRefuse? || task.pc.Done?)
  }

  /** What one wake-up of every task can add to the ranks. */
  function WakeCost(s: State): nat {
    |s.tasks| * (18 + 2 * |s.slots|)
  }

  function Weight(task: Task, n: nat, wake: nat): nat {
    Rank(task, n) + if Unresolved(task) then wake else 0
  }

  function Sum(xs: seq<nat>): nat {
    if xs == [] then 0 else xs[0] + Sum(xs[1..])
  }

  function Weights(s: State, n: nat, wake: nat): seq<nat> {
    seq(|s.tasks|, i requires 0 <= i < |s.tasks| => Weight(s.tasks[i], n, wake))
  }

  /** A bound on the number of steps left. */
  function Measure(s: State): nat {
    Sum(Weights(s, |s.slots|, WakeCost(s)))
  }

  lemma {:induction false} SumGrowth(a: seq<nat>, b: seq<nat>, d: nat)
    requires |a| == |b| && forall i :: 0 <= i < |a| ==> b[i] <= a[i] + d
    ensures Sum(b) <= Sum(a) + |a| * d
  {
    if a != [] {
      SumGrowth(a[1..], b[1..], d);
      assert |a| * d == |a[1..]| * d + d;
    }
  }

  /** One entry drops by `x`, the others grow by at most `d`. */
  lemma {:induction false} SumDrop(a: seq<nat>, b: seq<nat>, t: nat, x: nat, d: nat)
    requires t < |a| == |b| && b[t] + x <= a[t]
    requires forall i :: 0 <= i < |a| && i != t ==> b[i] <= a[i] + d
    ensures Sum(b) + x <= Sum(a) + |a| * d
  {
    assert |a| * d == |a[1..]| * d + d;
    if t == 0 {
      assert forall i :: 0 <= i < |a[1..]| ==> b[1..][i] <= a[1..][i] + d;
      SumGrowth(a[1..], b[1..], d);
    } else {
      assert forall i :: 0 <= i < |a[1..]| && i != t - 1 ==> b[1..][i] <= a[1..][i] + d;
      SumDrop(a[1..], b[1..], t - 1, x, d);
    }
  }

  lemma {:induction false} IterationLength(order: seq<ModelCacheKey>, chosen: set<ModelCacheKey>)
    requires Iterates(order, chosen)
    ensures |order| == |chosen|
  {
    if order == [] {
      assert chosen == {};
    } else {
      var rest := order[1..];
      assert (set k | k in rest) == chosen - {order[0]} by {
        assert order == [order[0]] + rest;
      }
      IterationLength(rest, chosen - {order[0]});
    }
  }

  predicate Resolves(task: Task) {
    task.Request? && (task.pc.StoreLocked? || task.pc.AbortLocked?)
  }

  lemma RankDropsEviction(s: State, t: TaskId, c: Choice)
    requires Enabled(s, t) && s.tasks[t].Eviction?
    ensures |Advance(s, t, c).tasks| == |s.tasks|
    ensures Rank(Advance(s, t, c).tasks[t], |s.slots|) < Rank(s.tasks[t], |s.slots|)
    ensures !Unresolved(Advance(s, t, c).tasks[t])
  {}

  lemma RankDropsSnapshot(s: State, t: TaskId, c: Choice)
    requires Enabled(s, t) && Allowed(s, t, c) && s.tasks[t].Request? && s.tasks[t].pc.Snapshot?
    ensures Advance(s, t, c).tasks == s.tasks[t := Request(s.tasks[t].key, Sweep(c.order))]
    ensures 2 * |c.order| <= 2 * |s.slots|
  {
    IterationLength(c.order, s.slots.Keys - {s.tasks[t].key});
    assert |s.slots.Keys - {s.tasks[t].key}| <= |s.slots.Keys| == |s.slots|;
  }

  lemma RankDropsRequest(s: State, t: TaskId, c: Choice)
    requires Enabled(s, t) && Allowed(s, t, c) && s.tasks[t].Request? && TaskShape(s, s.tasks[t])
    ensures |Advance(s, t, c).tasks| == |s.tasks|
    ensures Rank(Advance(s, t, c).tasks[t], |s.slots|) < Rank(s.tasks[t], |s.slots|)
    ensures Unresolved(Advance(s, t, c).tasks[t]) ==> Unresolved(s.tasks[t])
    ensures Resolves(s.tasks[t]) ==> Unresolved(s.tasks[t]) && !Unresolved(Advance(s, t, c).tasks[t])
  {
    UnresolvedShrinks(s, t, c);
    if s.tasks[t].pc.Snapshot? {
      RankDropsSnapshot(s, t, c);
    } else if BeforeSweep(s.tasks[t].pc) {
      RankDropsEarly(s, t, c);
    } else {
      RankDropsLate(s, t, c);
    }
  }

  predicate BeforeSweep(pc: RequestPc) {
    pc.Top? || pc.TopLocked? || pc.Waiting? || pc.ColdWant? || pc.RecheckWant? || pc.RecheckLocked?
    || pc.RecheckBreak? || pc.RecheckWait? || pc.Announce?
  }

  lemma RankDropsEarly(s: State, t: TaskId, c: Choice)
    requires Enabled(s, t) && s.tasks[t].Request? && TaskShape(s, s.tasks[t]) && BeforeSweep(s.tasks[t].pc)
    ensures |Advance(s, t, c).tasks| == |s.tasks|
    ensures Rank(Advance(s, t, c).tasks[t], |s.slots|) < Rank(s.tasks[t], |s.slots|)
  {}

  lemma RankDropsLate(s: State, t: TaskId, c: Choice)
    requires Enabled(s, t) && s.tasks[t].Request? && TaskShape(s, s.tasks[t])
    requires !BeforeSweep(s.tasks[t].pc) && !s.tasks[t].pc.Snapshot?
    ensures |Advance(s, t, c).tasks| == |s.tasks|
    ensures Rank(Advance(s, t, c).tasks[t], |s.slots|) < Rank(s.tasks[t], |s.slots|)
  {
    if Loads(s.tasks[t].pc) { RankDropsLoading(s, t, c); } else { RankDropsEnding(s, t, c); }
  }

  predicate Loads(pc: RequestPc) {
    pc.Sweep? || pc.SweepLocked? || pc.LoadRunning? || pc.StoreWant? || pc.StoreLocked? || pc.AbortWant? || pc.AbortLocked?
  }

  lemma RankDropsLoading(s: State, t: TaskId, c: Choice)
    requires Enabled(s, t) && s.tasks[t].Request? && TaskShape(s, s.tasks[t]) && Loads(s.tasks[t].pc)
    ensures |Advance(s, t, c).tasks| == |s.tasks|
    ensures Rank(Advance(s, t, c).tasks[t], |s.slots|) < Rank(s.tasks[t], |s.slots|)
  {}

  lemma RankDropsEnding(s: State, t: TaskId, c: Choice)
    requires Enabled(s, t) && s.tasks[t].Request? && TaskShape(s, s.tasks[t])
    requires !BeforeSweep(s.tasks[t].pc) && !s.tasks[t].pc.Snapshot? && !Loads(s.tasks[t].pc)
    ensures |Advance(s, t, c).tasks| == |s.tasks|
    ensures Rank(Advance(s, t, c).tasks[t], |s.slots|) < Rank(s.tasks[t], |s.slots|)
  {}

  lemma UnresolvedShrinks(s: State, t: TaskId, c: Choice)
    requires Enabled(s, t) && s.tasks[t].Request?
    ensures |Advance(s, t, c).tasks| == |s.tasks|
    ensures Unresolved(Advance(s, t, c).tasks[t]) ==> Unresolved(s.tasks[t])
    ensures Resolves(s.tasks[t]) ==> Unresolved(s.tasks[t]) && !Unresolved(Advance(s, t, c).tasks[t])
  {}

  /** Only a resolution wakes anybody. */
  lemma OthersStay(s: State, t: TaskId, c: Choice, i: TaskId)
    requires Inv(s) && Steps(s, t, c) && i < |s.tasks| && i != t && !Resolves(s.tasks[t])
    ensures i < |Advance(s, t, c).tasks| && Advance(s, t, c).tasks[i] == s.tasks[i]
  {
    assert TaskShape(s, s.tasks[i]);
    if IsWaiting(s.tasks[i]) { WaiterNeedsColdHolder(s, i); }
    OthersStayUnlessWaiting(s, t, c, i);
  }

  lemma OthersStayUnlessWaiting(s: State, t: TaskId, c: Choice, i: TaskId)
    requires Enabled(s, t) && i < |s.tasks| && i != t && !Resolves(s.tasks[t]) && TaskShape(s, s.tasks[i])
    requires IsWaiting(s.tasks[i]) ==> s.slots[s.tasks[i].key].state.Loading?
    ensures i < |Advance(s, t, c).tasks| && Advance(s, t, c).tasks[i] == s.tasks[i]
  {}

  lemma WakeGrowth(s: State, t: TaskId, c: Choice, i: TaskId)
    requires Enabled(s, t) && i < |s.tasks| && i != t && TaskShape(s, s.tasks[i])
    ensures i < |Advance(s, t, c).tasks|
    ensures Rank(Advance(s, t, c).tasks[i], |s.slots|) <= Rank(s.tasks[i], |s.slots|) + (18 + 2 * |s.slots|)
    ensures Unresolved(Advance(s, t, c).tasks[i]) ==> Unresolved(s.tasks[i])
  {
    AdvanceOthers(s, t, c, i);
  }

  /** How one step changes the weights: the moving task gets lighter, by more than one
      full wake-up if it resolves its slot; the others change only then. */
  lemma StepChangesWeights(s: State, t: TaskId, c: Choice, i: TaskId)
    requires Inv(s) && Steps(s, t, c) && i < |s.tasks|
    ensures |Advance(s, t, c).tasks| == |s.tasks|
    ensures var n, wake := |s.slots|, WakeCost(s);
            var before, after := Weight(s.tasks[i], n, wake), Weight(Advance(s, t, c).tasks[i], n, wake);
            if i == t then after + (if Resolves(s.tasks[t]) then wake + 1 else 1) <= before
            else after <= before + (if Resolves(s.tasks[t]) then 18 + 2 * n else 0)
  {
    if i != t { OtherWeight(s, t, c, i); } else { OwnWeight(s, t, c); }
  }

  lemma OtherWeight(s: State, t: TaskId, c: Choice, i: TaskId)
    requires Inv(s) && Steps(s, t, c) && i < |s.tasks| && i != t
    ensures |Advance(s, t, c).tasks| == |s.tasks|
    ensures Weight(Advance(s, t, c).tasks[i], |s.slots|, WakeCost(s))
            <= Weight(s.tasks[i], |s.slots|, WakeCost(s)) + (if Resolves(s.tasks[t]) then 18 + 2 * |s.slots| else 0)
  {
    AdvanceKeepsSlots(s, t, c);
    assert TaskShape(s, s.tasks[i]);
    if Resolves(s.tasks[t]) { WakeGrowth(s, t, c, i); } else { OthersStay(s, t, c, i); }
  }

  lemma OwnWeight(s: State, t: TaskId, c: Choice)
    requires Inv(s) && Steps(s, t, c)
    ensures |Advance(s, t, c).tasks| == |s.tasks|
    ensures Weight(Advance(s, t, c).tasks[t], |s.slots|, WakeCost(s)) + (if Resolves(s.tasks[t]) then WakeCost(s) + 1 else 1)
            <= Weight(s.tasks[t], |s.slots|, WakeCost(s))
  {
    assert TaskShape(s, s.tasks[t]);
    if s.tasks[t].Eviction? { RankDropsEviction(s, t, c); } else { RankDropsRequest(s, t, c); }
  }

  predicate Lighter(s: State, s': State, t: TaskId, x: nat, d: nat) {
    && t < |s.tasks| == |s'.tasks|
    && forall i :: 0 <= i < |s.tasks| ==>
         var before := Weight(s.tasks[i], |s.slots|, WakeCost(s));
         var after := Weight(s'.tasks[i], |s.slots|, WakeCost(s));
         if i == t then after + x <= before else after <= before + d
  }

  lemma LighterMeasure(s: State, s': State, t: TaskId, x: nat, d: nat)
    requires Lighter(s, s', t, x, d) && |s'.slots| == |s.slots| && |s.tasks| * d < x
    ensures Measure(s') < Measure(s)
  {
    SumDrop(Weights(s, |s.slots|, WakeCost(s)), Weights(s', |s.slots|, WakeCost(s)), t, x, d);
  }

  /** Every step of every task shortens what is left to do. */
  lemma StepShrinksMeasure(s: State, t: TaskId, c: Choice)
    requires Inv(s) && Steps(s, t, c)
    ensures Measure(Advance(s, t, c)) < Measure(s)
  {
    var s' := Advance(s, t, c);
    AdvanceKeepsSlots(s, t, c);
    assert |s.slots| == |s.slots.Keys| == |s'.slots.Keys| == |s'.slots|;
    forall i | 0 <= i < |s.tasks|
      ensures var n, wake := |s.slots|, WakeCost(s);
              var before, after := Weight(s.tasks[i], n, wake), Weight(s'.tasks[i], n, wake);
              if i == t then after + (if Resolves(s.tasks[t]) then wake + 1 else 1) <= before
              else after <= before + (if Resolves(s.tasks[t]) then 18 + 2 * n else 0)
    {
      StepChangesWeights(s, t, c, i);
    }
    if Resolves(s.tasks[t]) {
      LighterMeasure(s, s', t, WakeCost(s) + 1, 18 + 2 * |s.slots|);
    } else {
      LighterMeasure(s, s', t, 1, 0);
    }
  }

  /** A stretch of a run during which nothing new arrives. */
  ghost predicate NoArrivals(run: seq<State>, start: nat) {
    forall i :: start <= i < |run| - 1 ==> TaskStep(run[i], run[i + 1])
  }

  lemma {:induction false} StretchIsBounded(run: seq<State>, start: nat, stop: nat)
    requires IsRun(run) && start <= stop < |run| && NoArrivals(run, start)
    ensures stop - start + Measure(run[stop]) <= Measure(run[start])
    decreases stop
  {
    if start < stop {
      StretchIsBounded(run, start, stop - 1);
      InvRun(run, stop - 1);
      assert TaskStep(run[stop - 1], run[stop - 1 + 1]);
      var t, c :| Enabled(run[stop - 1], t) && Allowed(run[stop - 1], t, c) && run[stop] == Advance(run[stop - 1], t, c);
      StepShrinksMeasure(run[stop - 1], t, c);
    }
  }

  /** Without new arrivals, every interleaving takes at most `Measure` further steps, and
      one that can go no further has finished every task with every lock free and no slot
      left Loading. No fairness is assumed. */
  lemma EveryScheduleFinishes(run: seq<State>, start: nat)
    requires IsRun(run) && start < |run| && NoArrivals(run, start)
    ensures |run| - 1 - start <= Measure(run[start])
    ensures var last := run[|run| - 1];
            (forall s :: !TaskStep(last, s)) ==>
              && (forall t :: 0 <= t < |last.tasks| ==> Finished(last.tasks[t]))
              && last.cold.None?
              && forall k :: k in last.slots ==> last.slots[k].holder.None? && !last.slots[k].state.Loading?
  {
    StretchIsBounded(run, start, |run| - 1);
    var last := run[|run| - 1];
    InvRun(run, |run| - 1);
    if forall s :: !TaskStep(last, s) {
      forall t | 0 <= t < |last.tasks|
        ensures Finished(last.tasks[t])
      {
        if !Finished(last.tasks[t]) {
          var u, c := SoundStateMoves(last, t);
          assert TaskStep(last, Advance(last, u, c));
        }
      }
      FinishedMeansFree(last);
    }
  }

  lemma FinishedMeansFree(s: State)
    requires Inv(s) && forall t :: 0 <= t < |s.tasks| ==> Finished(s.tasks[t])
    ensures s.cold.None?
    ensures forall k :: k in s.slots ==> s.slots[k].holder.None? && !s.slots[k].state.Loading?
  {
    var b := View(s);
    assert forall t :: 0 <= t < |b.claims| ==> b.claims[t] == NoClaim;
    forall k | k in s.slots
      ensures s.slots[k].holder.None? && !s.slots[k].state.Loading?
    {
      assert s.slots[k].state.Loading? <==> IsLoading(b, k);
    }
  }
}
