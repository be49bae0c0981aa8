/** What the environment answers decides how a request ends: runs together with the move
    that leads from each state to the next. */
module SlotOutcomes {
  import opened Slots
  import opened SlotInvariant
  import opened SlotSafety

  datatype Move =
    | Stepped(t: TaskId, c: Choice)
    | RequestCame(key: ModelCacheKey)
    | EvictionCame(modelId: string, order: seq<ModelCacheKey>)

  predicate Makes(s: State, m: Move, s': State) {
    match m
    case Stepped(t, c) => Steps(s, t, c) && s' == Advance(s, t, c)
    case RequestCame(key) => s' == ArriveRequest(s, key)
    case EvictionCame(modelId, order) => SelectsModel(s, modelId, order) && s' == ArriveEviction(s, order)
  }

  ghost predicate IsTrace(run: seq<State>, moves: seq<Move>) {
    && run != [] && run[0] == Initial && |moves| == |run| - 1
    && forall i :: 0 <= i < |moves| ==> Makes(run[i], moves[i], run[i + 1])
  }

  lemma MoveIsNext(s: State, m: Move, s': State)
    requires Makes(s, m, s')
    ensures Next(s, s')
  {}

  lemma TraceIsRun(run: seq<State>, moves: seq<Move>)
    requires IsTrace(run, moves)
    ensures IsRun(run)
  {
    forall i | 0 <= i < |run| - 1 ensures Next(run[i], run[i + 1]) {
      MoveIsNext(run[i], moves[i], run[i + 1]);
    }
  }

  lemma NextIsMove(s: State, s': State) returns (m: Move)
    requires Next(s, s')
    ensures Makes(s, m, s')
  {
    if TaskStep(s, s') {
      var t, c :| Enabled(s, t) && Allowed(s, t, c) && s' == Advance(s, t, c);
      m := Stepped(t, c);
    } else if key :| s' == ArriveRequest(s, key) {
      m := RequestCame(key);
    } else {
      var modelId, order :| SelectsModel(s, modelId, order) && s' == ArriveEviction(s, order);
      m := EvictionCame(modelId, order);
    }
  }

  /** Every run has its moves, so what holds of all traces holds of all runs. */
  lemma {:induction false} RunHasMoves(run: seq<State>) returns (moves: seq<Move>)
    requires IsRun(run)
    ensures IsTrace(run, moves)
    decreases |run|
  {
    moves := [];
    if |run| > 1 {
      var n := |run| - 1;
      assert IsRun(run[..n]) by {
        forall i | 0 <= i < n - 1 ensures Next(run[..n][i], run[..n][i + 1]) { assert Next(run[i], run[i + 1]); }
      }
      var before := RunHasMoves(run[..n]);
      assert Next(run[n - 1], run[n - 1 + 1]);
      var m := NextIsMove(run[n - 1], run[n]);
      moves := before + [m];
      forall i | 0 <= i < |moves| ensures Makes(run[i], moves[i], run[i + 1]) {
        if i < n - 1 { assert Makes(run[..n][i], before[i], run[..n][i + 1]); }
      }
    }
  }

  // ----- the two answers ------------------------------------------------------------

  /** The move is the answer `ok` to request `t`: whether its notice could be sent (758) or
      whether its model could be loaded (779-806). */
  predicate Sends(s: State, m: Move, t: TaskId, ok: bool) {
    m.Stepped? && m.t == t && m.c.ok == ok && At(s, t) && s.tasks[t].pc.Announce?
  }

  predicate Loads(s: State, m: Move, t: TaskId, ok: bool) {
    m.Stepped? && m.t == t && m.c.ok == ok && At(s, t) && s.tasks[t].pc.LoadRunning?
  }

  /** On the way out because of `why`, or out. */
  predicate Aborting(pc: RequestPc, why: Abort) {
    pc == AbortWant(why) || pc == AbortLocked(why) || pc == AbortReport(why) || pc == AbortDropCold(why)
    || pc == Done(Aborted(why))
  }

  /** Between the notice and the backend's answer. */
  predicate Clearing(pc: RequestPc) {
    pc.Snapshot? || pc.Sweep? || pc.SweepLocked? || pc.LoadRunning?
  }

  /** Past a load that worked, or past a look at a loaded slot. */
  predicate Serving(pc: RequestPc) {
    pc.StoreWant? || pc.StoreLocked? || pc.StoreDropCold? || pc.StoreDropSlot? || pc.RecheckBreak? || pc.GenWant?
    || pc.GenLocked? || pc.Generating? || pc.GenReport? || pc.GenRefuse? || pc == Done(Generated) || pc == Done(NotLoaded)
  }

  // ----- single moves --------------------------------------------------------------------

  /** What the own step of a request does to each of these. */
  lemma AbortGoesOn(s: State, t: TaskId, c: Choice, why: Abort)
    requires Enabled(s, t) && At(s, t) && Aborting(s.tasks[t].pc, why)
    ensures At(Advance(s, t, c), t) && Aborting(Advance(s, t, c).tasks[t].pc, why)
  {}

  lemma ServingGoesOn(s: State, t: TaskId, c: Choice)
    requires Enabled(s, t) && At(s, t) && Serving(s.tasks[t].pc)
    ensures At(Advance(s, t, c), t) && Serving(Advance(s, t, c).tasks[t].pc)
  {}

  lemma ClearingGoesOn(s: State, t: TaskId, c: Choice)
    requires Enabled(s, t) && At(s, t) && Clearing(s.tasks[t].pc) && !s.tasks[t].pc.LoadRunning?
    ensures At(Advance(s, t, c), t) && Clearing(Advance(s, t, c).tasks[t].pc)
  {}

  lemma LoadAnswered(s: State, t: TaskId, c: Choice)
    requires Enabled(s, t) && At(s, t) && s.tasks[t].pc.LoadRunning?
    ensures At(Advance(s, t, c), t)
    ensures if c.ok then Serving(Advance(s, t, c).tasks[t].pc) else Aborting(Advance(s, t, c).tasks[t].pc, LoadFailed)
  {}

  lemma SendAnswered(s: State, t: TaskId, c: Choice)
    requires Enabled(s, t) && At(s, t) && s.tasks[t].pc.Announce?
    ensures At(Advance(s, t, c), t)
    ensures if c.ok then Clearing(Advance(s, t, c).tasks[t].pc) else Aborting(Advance(s, t, c).tasks[t].pc, Disconnected)
  {}

  predicate InLoop(pc: RequestPc) {
    !Clearing(pc) && !Serving(pc) && !pc.Announce? && !Aborting(pc, Disconnected) && !Aborting(pc, LoadFailed)
  }

  lemma LoopGoesOn(s: State, t: TaskId, c: Choice)
    requires Enabled(s, t) && At(s, t) && InLoop(s.tasks[t].pc)
    ensures At(Advance(s, t, c), t)
    ensures var pc := Advance(s, t, c).tasks[t].pc; InLoop(pc) || pc.Announce? || Serving(pc)
  {}

  lemma OtherStepGoesOn(s: State, u: TaskId, c: Choice, t: TaskId)
    requires Steps(s, u, c) && At(s, t) && u != t
    ensures At(Advance(s, u, c), t) && Advance(s, u, c).tasks[t].key == s.tasks[t].key
    ensures Advance(s, u, c).tasks[t].pc == s.tasks[t].pc
            || (InLoop(s.tasks[t].pc) && InLoop(Advance(s, u, c).tasks[t].pc))
  {
    AdvanceOthers(s, u, c, t);
  }

  /** What an answer `ok`, where the request waits for one, makes of where it stands. */
  predicate Follows(before: RequestPc, ok: bool, after: RequestPc) {
    if before.LoadRunning? then (if ok then Serving(after) else Aborting(after, LoadFailed))
    else if before.Announce? then (if ok then Clearing(after) else Aborting(after, Disconnected))
    else if Aborting(before, LoadFailed) then Aborting(after, LoadFailed)
    else if Aborting(before, Disconnected) then Aborting(after, Disconnected)
    else if Serving(before) then Serving(after)
    else if Clearing(before) then Clearing(after)
    else InLoop(after) || after.Announce? || Serving(after)
  }

  lemma OwnStepFollows(s: State, t: TaskId, c: Choice)
    requires Steps(s, t, c) && At(s, t)
    ensures At(Advance(s, t, c), t) && Follows(s.tasks[t].pc, c.ok, Advance(s, t, c).tasks[t].pc)
  {
    var pc := s.tasks[t].pc;
    if pc.LoadRunning? {
      LoadAnswered(s, t, c);
    } else if pc.Announce? {
      SendAnswered(s, t, c);
    } else if Aborting(pc, LoadFailed) {
      AbortGoesOn(s, t, c, LoadFailed);
    } else if Aborting(pc, Disconnected) {
      AbortGoesOn(s, t, c, Disconnected);
    } else if Serving(pc) {
      ServingGoesOn(s, t, c);
    } else if Clearing(pc) {
      ClearingGoesOn(s, t, c);
    } else {
      LoopGoesOn(s, t, c);
    }
  }

  /** Where a request stands, and where it stands after a move that is its own or not. */
  predicate Changes(before: RequestPc, own: bool, ok: bool, after: RequestPc) {
    if own then Follows(before, ok, after) else after == before || (InLoop(before) && InLoop(after))
  }

  predicate Own(m: Move, t: TaskId) {
    m.Stepped? && m.t == t
  }

  lemma MoveChanges(s: State, m: Move, s': State, t: TaskId)
    requires Makes(s, m, s') && At(s, t)
    ensures At(s', t) && Changes(s.tasks[t].pc, Own(m, t), m.Stepped? && m.c.ok, s'.tasks[t].pc)
  {
    if Own(m, t) {
      OwnStepFollows(s, t, m.c);
    } else if m.Stepped? {
      OtherStepGoesOn(s, m.t, m.c, t);
    }
  }

  /** Giving up a load empties its slot, storing a model fills it, and either wakes all who
      wait for it. */
  lemma ResolvingWakesAll(s: State, t: TaskId, c: Choice, u: TaskId)
    requires Steps(s, t, c) && At(s, t) && (s.tasks[t].pc.AbortLocked? || s.tasks[t].pc.StoreLocked?)
    ensures var s', key := Advance(s, t, c), s.tasks[t].key;
            && key in s'.slots && s'.slots[key].state == (if s.tasks[t].pc.AbortLocked? then Empty else Loaded(key))
            && (u < |s'.tasks| && s'.tasks[u].Request? && s'.tasks[u].key == key ==> !IsWaiting(s'.tasks[u]))
  {}

  /** A request that finds its model loaded goes on to generate, without the cold-load lock
      and without touching any slot's state. */
  lemma WarmRequestGoesStraightOn(s: State, t: TaskId, c: Choice)
    requires Steps(s, t, c) && At(s, t) && s.tasks[t].pc.TopLocked? && s.slots[s.tasks[t].key].state.Loaded?
    ensures At(Advance(s, t, c), t) && Advance(s, t, c).tasks[t].pc.GenWant? && Advance(s, t, c).cold == s.cold
    ensures forall k :: k in s.slots ==> k in Advance(s, t, c).slots && Advance(s, t, c).slots[k].state == s.slots[k].state
  {}

  /** A request asks for the cold-load lock only after it has found its slot Empty, and
      begins to wait only after it has found it Loading, under the slot lock. */
  lemma LooksBeforeItLeaves(s: State, t: TaskId, c: Choice)
    requires Steps(s, t, c) && At(s, t) && TaskShape(s, s.tasks[t])
    ensures At(Advance(s, t, c), t)
    ensures Advance(s, t, c).tasks[t].pc.ColdWant? ==> s.tasks[t].pc.TopLocked? && s.slots[s.tasks[t].key].state.Empty?
    ensures Advance(s, t, c).tasks[t].pc.Waiting? ==> s.tasks[t].pc.TopLocked? && s.slots[s.tasks[t].key].state.Loading?
  {}

  // ----- whole runs -----------------------------------------------------------------------

  lemma {:induction false} StaysAborting(run: seq<State>, moves: seq<Move>, j: nat, i: nat, t: TaskId, why: Abort)
    requires IsTrace(run, moves) && j <= i < |run| && At(run[j], t) && Aborting(run[j].tasks[t].pc, why)
    ensures At(run[i], t) && Aborting(run[i].tasks[t].pc, why)
    decreases i - j
  {
    if j < i {
      MoveChanges(run[j], moves[j], run[j + 1], t);
      StaysAborting(run, moves, j + 1, i, t, why);
    }
  }

  lemma {:induction false} StaysServing(run: seq<State>, moves: seq<Move>, j: nat, i: nat, t: TaskId)
    requires IsTrace(run, moves) && j <= i < |run| && At(run[j], t) && Serving(run[j].tasks[t].pc)
    ensures At(run[i], t) && Serving(run[i].tasks[t].pc)
    decreases i - j
  {
    if j < i {
      MoveChanges(run[j], moves[j], run[j + 1], t);
      StaysServing(run, moves, j + 1, i, t);
    }
  }

  /** Once the backend has failed to load the model, the request is on its way out, and ends
      with that error: it never stores a model and never generates. */
  lemma FailedLoadAborts(run: seq<State>, moves: seq<Move>, j: nat, i: nat, t: TaskId)
    requires IsTrace(run, moves) && j < i < |run| && Loads(run[j], moves[j], t, false)
    ensures At(run[i], t) && Aborting(run[i].tasks[t].pc, LoadFailed)
    ensures !run[i].tasks[t].pc.StoreLocked? && !run[i].tasks[t].pc.Generating?
    ensures Finished(run[i].tasks[t]) ==> run[i].tasks[t].pc == Done(Aborted(LoadFailed))
  {
    MoveChanges(run[j], moves[j], run[j + 1], t);
    StaysAborting(run, moves, j + 1, i, t, LoadFailed);
  }

  /** Once the model is loaded, the request never ends as aborted. */
  lemma GoodLoadServes(run: seq<State>, moves: seq<Move>, j: nat, i: nat, t: TaskId)
    requires IsTrace(run, moves) && j < i < |run| && Loads(run[j], moves[j], t, true)
    ensures At(run[i], t) && Serving(run[i].tasks[t].pc)
    ensures Finished(run[i].tasks[t]) ==> run[i].tasks[t].pc == Done(Generated) || run[i].tasks[t].pc == Done(NotLoaded)
  {
    MoveChanges(run[j], moves[j], run[j + 1], t);
    StaysServing(run, moves, j + 1, i, t);
  }

  /** Once the receiver is gone before the load, the request ends as disconnected, and no
      model is loaded for it. */
  lemma FailedSendAborts(run: seq<State>, moves: seq<Move>, j: nat, i: nat, t: TaskId)
    requires IsTrace(run, moves) && j < i < |run| && Sends(run[j], moves[j], t, false)
    ensures At(run[i], t) && Aborting(run[i].tasks[t].pc, Disconnected)
    ensures !run[i].tasks[t].pc.LoadRunning? && !run[i].tasks[t].pc.Generating?
    ensures Finished(run[i].tasks[t]) ==> run[i].tasks[t].pc == Done(Aborted(Disconnected))
  {
    MoveChanges(run[j], moves[j], run[j + 1], t);
    StaysAborting(run, moves, j + 1, i, t, Disconnected);
  }

  lemma ChangesBack(before: RequestPc, own: bool, ok: bool, after: RequestPc)
    requires Changes(before, own, ok, after)
    ensures Aborting(after, LoadFailed) ==> Aborting(before, LoadFailed) || (own && before.LoadRunning? && !ok)
    ensures Aborting(after, Disconnected) ==> Aborting(before, Disconnected) || (own && before.Announce? && !ok)
  {}

  lemma TraceChanges(run: seq<State>, moves: seq<Move>, i: nat, t: TaskId)
    requires IsTrace(run, moves) && i + 1 < |run| && At(run[i + 1], t)
    ensures if At(run[i], t) then
              Changes(run[i].tasks[t].pc, Own(moves[i], t), moves[i].Stepped? && moves[i].c.ok, run[i + 1].tasks[t].pc)
            else run[i + 1].tasks[t].pc.Top?
  {
    assert Makes(run[i], moves[i], run[i + 1]);
    if At(run[i], t) {
      MoveChanges(run[i], moves[i], run[i + 1], t);
    } else {
      NewcomerIsAtTop(run[i], moves[i], run[i + 1], t);
    }
  }

  lemma {:induction false} AbortHasCause(run: seq<State>, moves: seq<Move>, i: nat, t: TaskId)
    requires IsTrace(run, moves) && i < |run| && At(run[i], t)
    ensures Aborting(run[i].tasks[t].pc, LoadFailed) ==> exists j: nat :: j < i && Loads(run[j], moves[j], t, false)
    ensures Aborting(run[i].tasks[t].pc, Disconnected) ==> exists j: nat :: j < i && Sends(run[j], moves[j], t, false)
    decreases i
  {
    if i > 0 {
      TraceChanges(run, moves, i - 1, t);
      if At(run[i - 1], t) {
        var m := moves[i - 1];
        ChangesBack(run[i - 1].tasks[t].pc, Own(m, t), m.Stepped? && m.c.ok, run[i].tasks[t].pc);
        AbortHasCause(run, moves, i - 1, t);
      }
    }
  }

  lemma NewcomerIsAtTop(s: State, m: Move, s': State, t: TaskId)
    requires Makes(s, m, s') && At(s', t) && !At(s, t)
    ensures s'.tasks[t].pc.Top?
  {
    if m.Stepped? { KindsStay(s, m.t, m.c, t); }
  }

  lemma KindsStay(s: State, u: TaskId, c: Choice, t: TaskId)
    requires Enabled(s, u)
    ensures At(Advance(s, u, c), t) ==> At(s, t)
  {
    AdvanceKeepsSlots(s, u, c);
    if t < |s.tasks| && t != u { AdvanceOthers(s, u, c, t); }
    if t == u && s.tasks[u].Eviction? { EvictionStays(s, u, c); }
  }

  /** A finished request failed to load exactly when the backend said so, and was cut off
      exactly when its notice could not be sent. */
  lemma OutcomeIsTheAnswer(run: seq<State>, moves: seq<Move>, i: nat, t: TaskId)
    requires IsTrace(run, moves) && i < |run| && At(run[i], t) && Finished(run[i].tasks[t])
    ensures run[i].tasks[t].pc == Done(Aborted(LoadFailed)) <==> exists j: nat :: j < i && Loads(run[j], moves[j], t, false)
    ensures run[i].tasks[t].pc == Done(Aborted(Disconnected)) <==> exists j: nat :: j < i && Sends(run[j], moves[j], t, false)
  {
    AbortHasCause(run, moves, i, t);
    if j: nat :| j < i && Loads(run[j], moves[j], t, false) { FailedLoadAborts(run, moves, j, i, t); }
    if j: nat :| j < i && Sends(run[j], moves[j], t, false) { FailedSendAborts(run, moves, j, i, t); }
  }
}
