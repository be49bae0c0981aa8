/** The lock discipline behind the slot protocol, without program counters.

    Each task is reduced to what it currently claims: the slot lock and the cold-load
    lock it holds, the slot it has marked Loading, the slots its sweep has yet to visit,
    the slot it waits on un-notified, and the slot it generates from. `Sound` says the
    claims agree with the slots; every kind of move keeps it. */
module SlotClaims {
  import opened Wrappers
  import opened Slots

  datatype Claim = Claim(
    slot: Option<ModelCacheKey>,
    cold: bool,
    mark: Option<ModelCacheKey>,
    sweep: Option<seq<ModelCacheKey>>,
    waits: Option<ModelCacheKey>,
    generates: Option<ModelCacheKey>)

  const NoClaim: Claim := Claim(None, false, None, None, None, None)

  datatype Board = Board(slots: map<ModelCacheKey, Slot>, cold: Option<TaskId>, claims: seq<Claim>)

  predicate IsLoading(b: Board, k: ModelCacheKey) {
    k in b.slots && b.slots[k].state.Loading?
  }

  predicate IsLoaded(b: Board, k: ModelCacheKey) {
    k in b.slots && b.slots[k].state.Loaded?
  }

  ghost predicate SlotLocks(b: Board) {
    && (forall k :: k in b.slots && b.slots[k].holder.Some? ==>
          b.slots[k].holder.value < |b.claims| && b.claims[b.slots[k].holder.value].slot == Some(k))
    && (forall t :: 0 <= t < |b.claims| && b.claims[t].slot.Some? ==>
          b.claims[t].slot.value in b.slots && b.slots[b.claims[t].slot.value].holder == Some(t))
  }

  ghost predicate ColdLock(b: Board) {
    && (b.cold.Some? ==> b.cold.value < |b.claims| && b.claims[b.cold.value].cold)
    && (forall t :: 0 <= t < |b.claims| && b.claims[t].cold ==> b.cold == Some(t))
  }

  /** A slot is Loading exactly while the cold-load lock holder has it marked. */
  ghost predicate LoadingIsMarked(b: Board) {
    && (forall k :: IsLoading(b, k) ==>
          b.cold.Some? && b.cold.value < |b.claims| && b.claims[b.cold.value].mark == Some(k))
    && (forall t :: 0 <= t < |b.claims| && b.claims[t].mark.Some? ==>
          b.claims[t].cold && IsLoading(b, b.claims[t].mark.value))
  }

  ghost predicate OneLoaded(b: Board) {
    && (forall j, k :: IsLoaded(b, j) && IsLoaded(b, k) ==> j == k)
    && (forall k :: IsLoaded(b, k) ==> b.slots[k].state.model == k)
  }

  /** A sweeping task has its own slot marked, and only slots still ahead of the sweep
      can be Loaded. */
  ghost predicate SweepClears(b: Board) {
    forall t :: 0 <= t < |b.claims| && b.claims[t].sweep.Some? ==>
      && b.claims[t].mark.Some?
      && forall k :: IsLoaded(b, k) ==> k in b.claims[t].sweep.value
  }

  /** No lost wake-up: nobody waits un-notified on a slot that is not Loading. */
  ghost predicate WaitersHaveLoader(b: Board) {
    forall t :: 0 <= t < |b.claims| && b.claims[t].waits.Some? ==> IsLoading(b, b.claims[t].waits.value)
  }

  ghost predicate GeneratorsHoldLoaded(b: Board) {
    forall t :: 0 <= t < |b.claims| && b.claims[t].generates.Some? ==>
      b.claims[t].slot == b.claims[t].generates && IsLoaded(b, b.claims[t].generates.value)
  }

  ghost predicate Sound(b: Board) {
    && SlotLocks(b)
    && ColdLock(b)
    && LoadingIsMarked(b)
    && OneLoaded(b)
    && SweepClears(b)
    && WaitersHaveLoader(b)
    && GeneratorsHoldLoaded(b)
  }

  // ----- moves ----------------------------------------------------------------

  function SetClaim(b: Board, t: TaskId, c: Claim): Board
    requires t < |b.claims|
  {
    b.(claims := b.claims[t := c])
  }

  function Acquire(b: Board, t: TaskId, k: ModelCacheKey): Board
    requires t < |b.claims| && k in b.slots
  {
    SetClaim(b.(slots := b.slots[k := b.slots[k].(holder := Some(t))]), t, b.claims[t].(slot := Some(k)))
  }

  lemma AcquireSound(b: Board, t: TaskId, k: ModelCacheKey)
    requires Sound(b) && t < |b.claims| && k in b.slots
    requires b.slots[k].holder.None? && b.claims[t].slot.None?
    ensures Sound(Acquire(b, t, k))
  {
    var b' := Acquire(b, t, k);
    assert forall j :: IsLoading(b', j) <==> IsLoading(b, j);
    assert forall j :: IsLoaded(b', j) <==> IsLoaded(b, j);
  }

  function Release(b: Board, t: TaskId, k: ModelCacheKey): Board
    requires t < |b.claims| && k in b.slots
  {
    SetClaim(b.(slots := b.slots[k := b.slots[k].(holder := None)]), t, b.claims[t].(slot := None))
  }

  lemma ReleaseSound(b: Board, t: TaskId, k: ModelCacheKey)
    requires Sound(b) && t < |b.claims| && k in b.slots
    requires b.claims[t].slot == Some(k) && b.claims[t].generates.None?
    ensures Sound(Release(b, t, k))
  {
    var b' := Release(b, t, k);
    assert forall j :: IsLoading(b', j) <==> IsLoading(b, j);
    assert forall j :: IsLoaded(b', j) <==> IsLoaded(b, j);
  }

  function AcquireCold(b: Board, t: TaskId): Board
    requires t < |b.claims|
  {
    SetClaim(b.(cold := Some(t)), t, b.claims[t].(cold := true))
  }

  lemma AcquireColdSound(b: Board, t: TaskId)
    requires Sound(b) && t < |b.claims| && b.cold.None?
    ensures Sound(AcquireCold(b, t))
  {
    var b' := AcquireCold(b, t);
    assert forall j :: IsLoading(b', j) <==> IsLoading(b, j);
    assert forall j :: IsLoaded(b', j) <==> IsLoaded(b, j);
  }

  function ReleaseCold(b: Board, t: TaskId): Board
    requires t < |b.claims|
  {
    SetClaim(b.(cold := None), t, b.claims[t].(cold := false))
  }

  /** The cold-load lock may only be dropped once the mark is resolved. */
  lemma ReleaseColdSound(b: Board, t: TaskId)
    requires Sound(b) && t < |b.claims| && b.claims[t].cold && b.claims[t].mark.None?
    ensures Sound(ReleaseCold(b, t))
  {
    var b' := ReleaseCold(b, t);
    assert forall j :: IsLoading(b', j) <==> IsLoading(b, j);
    assert forall j :: IsLoaded(b', j) <==> IsLoaded(b, j);
  }

  function SetSlot(b: Board, k: ModelCacheKey, state: SlotState): Board
    requires k in b.slots
  {
    b.(slots := b.slots[k := b.slots[k].(state := state)])
  }

  function Mark(b: Board, t: TaskId, k: ModelCacheKey): Board
    requires t < |b.claims| && k in b.slots
  {
    SetClaim(SetSlot(b, k, Loading), t, b.claims[t].(mark := Some(k)))
  }

  lemma MarkSound(b: Board, t: TaskId, k: ModelCacheKey)
    requires Sound(b) && t < |b.claims| && k in b.slots
    requires b.claims[t].cold && b.claims[t].mark.None? && b.slots[k].state.Empty?
    ensures Sound(Mark(b, t, k))
  {
    var b' := Mark(b, t, k);
    assert forall j :: IsLoading(b', j) <==> IsLoading(b, j) || j == k;
    assert forall j :: IsLoaded(b', j) <==> IsLoaded(b, j);
  }

  function Awake(c: Claim, k: ModelCacheKey): Claim {
    if c.waits == Some(k) then c.(waits := None) else c
  }

  function WakeAll(b: Board, k: ModelCacheKey): Board {
    b.(claims := seq(|b.claims|, i requires 0 <= i < |b.claims| => Awake(b.claims[i], k)))
  }

  /** Store the loaded model or fall back to Empty, and wake every waiter. */
  function Resolve(b: Board, t: TaskId, k: ModelCacheKey, state: SlotState): Board
    requires t < |b.claims| && k in b.slots
  {
    SetClaim(WakeAll(SetSlot(b, k, state), k), t, b.claims[t].(mark := None, sweep := None))
  }

  /** What a resolution changes: only the resolved slot, and only waits, of other claims. */
  lemma ResolveEffect(b: Board, t: TaskId, k: ModelCacheKey, state: SlotState, i: TaskId)
    requires Sound(b) && t < |b.claims| && k in b.slots && i < |b.claims|
    requires b.claims[t].mark == Some(k) && b.claims[t].waits.None? && state != Loading
    ensures var b' := Resolve(b, t, k, state); var c := b'.claims[i];
            && c.slot == b.claims[i].slot && c.cold == b.claims[i].cold && c.generates == b.claims[i].generates
            && c.mark.None? && c.sweep.None?
            && (c.waits.Some? ==> c.waits == b.claims[i].waits && c.waits != Some(k))
  {}

  lemma ResolveSound(b: Board, t: TaskId, k: ModelCacheKey, state: SlotState)
    requires Sound(b) && t < |b.claims| && k in b.slots
    requires b.claims[t].mark == Some(k) && b.claims[t].waits.None? && b.claims[t].generates.None?
    requires state.Empty? || (state == Loaded(k) && b.claims[t].sweep == Some([]))
    ensures Sound(Resolve(b, t, k, state))
  {
    var b' := Resolve(b, t, k, state);
    assert forall j :: IsLoading(b', j) <==> IsLoading(b, j) && j != k;
    assert forall j :: IsLoaded(b', j) <==> IsLoaded(b, j) || (j == k && state.Loaded?);
    forall i | 0 <= i < |b.claims|
      ensures var c := b'.claims[i];
              && c.slot == b.claims[i].slot && c.cold == b.claims[i].cold && c.generates == b.claims[i].generates
              && c.mark.None? && c.sweep.None?
              && (c.waits.Some? ==> c.waits == b.claims[i].waits && c.waits != Some(k))
    {
      ResolveEffect(b, t, k, state, i);
    }
    assert SlotLocks(b') && ColdLock(b');
  }

  /** Emptying a Loaded slot under its lock needs no notification: nobody can be
      waiting on it. */
  lemma UnloadSound(b: Board, t: TaskId, k: ModelCacheKey)
    requires Sound(b) && t < |b.claims| && IsLoaded(b, k)
    requires b.claims[t].slot == Some(k) && b.claims[t].generates.None?
    ensures Sound(SetSlot(b, k, Empty))
    ensures WakeAll(SetSlot(b, k, Empty), k) == SetSlot(b, k, Empty)
  {
    var b' := SetSlot(b, k, Empty);
    assert forall j :: IsLoading(b', j) <==> IsLoading(b, j);
    assert forall j :: IsLoaded(b', j) <==> IsLoaded(b, j) && j != k;
    assert forall i :: 0 <= i < |b.claims| ==> Awake(b.claims[i], k) == b.claims[i];
  }

  lemma WaitSound(b: Board, t: TaskId, k: ModelCacheKey)
    requires Sound(b) && t < |b.claims| && IsLoading(b, k)
    ensures Sound(SetClaim(b, t, b.claims[t].(waits := Some(k))))
  {
    var b' := SetClaim(b, t, b.claims[t].(waits := Some(k)));
    assert forall j :: IsLoading(b', j) <==> IsLoading(b, j);
    assert forall j :: IsLoaded(b', j) <==> IsLoaded(b, j);
  }

  /** The sweep may shrink to any list that still covers every Loaded slot. */
  lemma SweepSound(b: Board, t: TaskId, rest: seq<ModelCacheKey>)
    requires Sound(b) && t < |b.claims| && b.claims[t].mark.Some?
    requires forall k :: IsLoaded(b, k) ==> k in rest
    ensures Sound(SetClaim(b, t, b.claims[t].(sweep := Some(rest))))
  {
    var b' := SetClaim(b, t, b.claims[t].(sweep := Some(rest)));
    assert forall j :: IsLoading(b', j) <==> IsLoading(b, j);
    assert forall j :: IsLoaded(b', j) <==> IsLoaded(b, j);
  }

  lemma DropSweepSound(b: Board, t: TaskId)
    requires Sound(b) && t < |b.claims|
    ensures Sound(SetClaim(b, t, b.claims[t].(sweep := None)))
  {
    var b' := SetClaim(b, t, b.claims[t].(sweep := None));
    assert forall j :: IsLoading(b', j) <==> IsLoading(b, j);
    assert forall j :: IsLoaded(b', j) <==> IsLoaded(b, j);
  }

  lemma GenerateSound(b: Board, t: TaskId, g: Option<ModelCacheKey>)
    requires Sound(b) && t < |b.claims|
    requires g.Some? ==> b.claims[t].slot == g && IsLoaded(b, g.value)
    ensures Sound(SetClaim(b, t, b.claims[t].(generates := g)))
  {
    var b' := SetClaim(b, t, b.claims[t].(generates := g));
    assert forall j :: IsLoading(b', j) <==> IsLoading(b, j);
    assert forall j :: IsLoaded(b', j) <==> IsLoaded(b, j);
  }

  lemma ArriveSound(b: Board, b': Board)
    requires Sound(b) && b'.cold == b.cold && b'.claims == b.claims + [NoClaim]
    requires forall k :: k in b.slots ==> k in b'.slots && b'.slots[k] == b.slots[k]
    requires forall k :: k in b'.slots && k !in b.slots ==> b'.slots[k] == Slot(Empty, None)
    ensures Sound(b')
  {
    assert forall j :: IsLoading(b', j) <==> IsLoading(b, j);
    assert forall j :: IsLoaded(b', j) <==> IsLoaded(b, j);
  }
}
