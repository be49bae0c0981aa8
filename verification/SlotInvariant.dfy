/** Every step of the slot protocol is a move of the lock discipline, so every state of
    every run is sound. */
module SlotInvariant {
  import opened Wrappers
  import opened Slots
  import opened SlotClaims

  /** What a program counter claims. */
  function RequestClaim(key: ModelCacheKey, pc: RequestPc): Claim {
    match pc
    case Top | ColdWant | GenWant | Done(_) => NoClaim
    case TopLocked | GenLocked | GenReport | GenRefuse | StoreDropSlot => NoClaim.(slot := Some(key))
    case Waiting(notified) => NoClaim.(waits := if notified then None else Some(key))
    case RecheckWant | RecheckBreak | AbortDropCold(_) => NoClaim.(cold := true)
    case RecheckLocked | AbortReport(_) | StoreDropCold => NoClaim.(cold := true, slot := Some(key))
    case RecheckWait(notified) => NoClaim.(cold := true, waits := if notified then None else Some(key))
    case Announce | Snapshot | AbortWant(_) => NoClaim.(cold := true, mark := Some(key))
    case AbortLocked(_) => NoClaim.(cold := true, mark := Some(key), slot := Some(key))
    case Sweep(rest) => NoClaim.(cold := true, mark := Some(key), sweep := Some(rest))
    case SweepLocked(rest) =>
      NoClaim.(cold := true, mark := Some(key), sweep := Some(rest), slot := if rest == [] then None else Some(rest[0]))
    case LoadRunning | StoreWant => NoClaim.(cold := true, mark := Some(key), sweep := Some([]))
    case StoreLocked => NoClaim.(cold := true, mark := Some(key), sweep := Some([]), slot := Some(key))
    case Generating => NoClaim.(slot := Some(key), generates := Some(key))
  }

  function ClaimOf(task: Task): Claim {
    match task
    case Request(key, pc) => RequestClaim(key, pc)
    case Eviction(rest, locked, _) => NoClaim.(slot := if locked && rest != [] then Some(rest[0]) else None)
  }

  function View(s: State): Board {
    Board(s.slots, s.cold, seq(|s.tasks|, i requires 0 <= i < |s.tasks| => ClaimOf(s.tasks[i])))
  }

  predicate AllKnown(s: State, keys: seq<ModelCacheKey>) {
    forall i :: 0 <= i < |keys| ==> keys[i] in s.slots
  }

  /** Tasks only name slots that exist, and the Loading branch of the re-check under the
      cold-load lock (742-748) is never taken. */
  predicate TaskShape(s: State, task: Task) {
    match task
    case Request(key, pc) =>
      && key in s.slots
      && !pc.RecheckWait?
      && (pc.SweepLocked? ==> pc.rest != [])
      && (pc.Sweep? || pc.SweepLocked? ==> AllKnown(s, pc.rest))
    case Eviction(rest, locked, _) => (locked ==> rest != []) && AllKnown(s, rest)
  }

  predicate Shaped(s: State) {
    forall t :: 0 <= t < |s.tasks| ==> TaskShape(s, s.tasks[t])
  }

  ghost predicate Inv(s: State) {
    Shaped(s) && Sound(View(s))
  }

  predicate Steps(s: State, t: TaskId, c: Choice) {
    Enabled(s, t) && Allowed(s, t, c)
  }

  // ----- the kinds of step ----------------------------------------------------

  /** A step that rewrites one task rewrites one claim. */
  lemma ViewSet(s: State, s': State, t: TaskId)
    requires t < |s.tasks| == |s'.tasks| && s'.tasks == s.tasks[t := s'.tasks[t]]
    ensures View(s') == Board(s'.slots, s'.cold, View(s).claims[t := ClaimOf(s'.tasks[t])])
  {
    assert View(s').claims == View(s).claims[t := ClaimOf(s'.tasks[t])];
  }

  predicate Rewrites(s: State, s': State, t: TaskId) {
    t < |s.tasks| == |s'.tasks| && s'.tasks == s.tasks[t := s'.tasks[t]]
  }

  lemma QuietStep(s: State, s': State, t: TaskId)
    requires Sound(View(s)) && Rewrites(s, s', t) && s'.slots == s.slots && s'.cold == s.cold
    requires ClaimOf(s'.tasks[t]) == ClaimOf(s.tasks[t])
    ensures Sound(View(s'))
  {
    ViewSet(s, s', t);
    assert View(s') == View(s);
  }

  lemma AcquireStep(s: State, s': State, t: TaskId, k: ModelCacheKey)
    requires Sound(View(s)) && Rewrites(s, s', t) && s'.cold == s.cold
    requires k in s.slots && s.slots[k].holder.None? && s'.slots == s.slots[k := s.slots[k].(holder := Some(t))]
    requires ClaimOf(s.tasks[t]).slot.None? && ClaimOf(s'.tasks[t]) == ClaimOf(s.tasks[t]).(slot := Some(k))
    ensures Sound(View(s'))
  {
    ViewSet(s, s', t);
    AcquireSound(View(s), t, k);
    assert View(s') == Acquire(View(s), t, k);
  }

  lemma ReleaseStep(s: State, s': State, t: TaskId, k: ModelCacheKey)
    requires Sound(View(s)) && Rewrites(s, s', t) && s'.cold == s.cold
    requires k in s.slots && s'.slots == s.slots[k := s.slots[k].(holder := None)]
    requires ClaimOf(s.tasks[t]).slot == Some(k) && ClaimOf(s.tasks[t]).generates.None?
    requires ClaimOf(s'.tasks[t]) == ClaimOf(s.tasks[t]).(slot := None)
    ensures Sound(View(s'))
  {
    ViewSet(s, s', t);
    ReleaseSound(View(s), t, k);
    assert View(s') == Release(View(s), t, k);
  }

  lemma DropColdStep(s: State, s': State, t: TaskId)
    requires Sound(View(s)) && Rewrites(s, s', t) && s'.cold.None? && s'.slots == s.slots
    requires ClaimOf(s.tasks[t]).cold && ClaimOf(s.tasks[t]).mark.None?
    requires ClaimOf(s'.tasks[t]) == ClaimOf(s.tasks[t]).(cold := false)
    ensures Sound(View(s'))
  {
    ViewSet(s, s', t);
    ReleaseColdSound(View(s), t);
    assert View(s') == ReleaseCold(View(s), t);
  }

  // ----- one lemma per phase of a request -------------------------------------

  lemma TopSound(s: State, t: TaskId, c: Choice)
    requires Inv(s) && Steps(s, t, c) && s.tasks[t].Request?
    requires s.tasks[t].pc.Top? || s.tasks[t].pc.TopLocked? || s.tasks[t].pc.Waiting?
    ensures Sound(View(Advance(s, t, c)))
  {
    var key, s' := s.tasks[t].key, Advance(s, t, c);
    if s.tasks[t].pc.Top? {
      AcquireStep(s, s', t, key);
    } else if s.tasks[t].pc.Waiting? {
      QuietStep(s, s', t);
    } else if s.slots[key].state.Loading? {
      var b := View(s);
      ViewSet(s, s', t);
      var w := SetClaim(b, t, b.claims[t].(waits := Some(key)));
      WaitSound(b, t, key);
      ReleaseSound(w, t, key);
      assert View(s') == Release(w, t, key);
    } else {
      ReleaseStep(s, s', t, key);
    }
  }

  lemma RecheckSound(s: State, t: TaskId, c: Choice)
    requires Inv(s) && Steps(s, t, c) && s.tasks[t].Request?
    requires s.tasks[t].pc.ColdWant? || s.tasks[t].pc.RecheckWant? || s.tasks[t].pc.RecheckBreak?
    ensures Sound(View(Advance(s, t, c)))
  {
    var key, s' := s.tasks[t].key, Advance(s, t, c);
    if s.tasks[t].pc.ColdWant? {
      ViewSet(s, s', t);
      AcquireColdSound(View(s), t);
      assert View(s') == AcquireCold(View(s), t);
    } else if s.tasks[t].pc.RecheckWant? {
      AcquireStep(s, s', t, key);
    } else {
      DropColdStep(s, s', t);
    }
  }

  /** Under the cold-load lock the slot is never Loading. */
  lemma RecheckNotLoading(s: State, t: TaskId)
    requires Inv(s) && t < |s.tasks| && s.tasks[t].Request? && s.tasks[t].pc.RecheckLocked?
    ensures s.tasks[t].key in s.slots && !s.slots[s.tasks[t].key].state.Loading?
  {
    var key, b := s.tasks[t].key, View(s);
    assert TaskShape(s, s.tasks[t]);
    assert b.claims[t].cold && b.claims[t].mark.None?;
    assert !IsLoading(b, key);
  }

  lemma MarkStepSound(s: State, t: TaskId, c: Choice)
    requires Inv(s) && Steps(s, t, c) && s.tasks[t].Request? && s.tasks[t].pc.RecheckLocked?
    ensures Sound(View(Advance(s, t, c)))
  {
    var key, s', b := s.tasks[t].key, Advance(s, t, c), View(s);
    RecheckNotLoading(s, t);
    if s.slots[key].state.Empty? {
      ViewSet(s, s', t);
      MarkSound(b, t, key);
      ReleaseSound(Mark(b, t, key), t, key);
      assert View(s') == Release(Mark(b, t, key), t, key);
    } else {
      ReleaseStep(s, s', t, key);
    }
  }

  lemma LoadSound(s: State, t: TaskId, c: Choice)
    requires Inv(s) && Steps(s, t, c) && s.tasks[t].Request?
    requires s.tasks[t].pc.Announce? || s.tasks[t].pc.LoadRunning?
    ensures Sound(View(Advance(s, t, c)))
  {
    var s', b := Advance(s, t, c), View(s);
    if s.tasks[t].pc.Announce? || c.ok {
      QuietStep(s, s', t);
    } else {
      ViewSet(s, s', t);
      DropSweepSound(b, t);
      assert View(s') == SetClaim(b, t, b.claims[t].(sweep := None));
    }
  }

  lemma SnapshotSound(s: State, t: TaskId, c: Choice)
    requires Inv(s) && Steps(s, t, c) && s.tasks[t].Request? && s.tasks[t].pc.Snapshot?
    ensures Sound(View(Advance(s, t, c)))
    ensures AllKnown(s, c.order)
  {
    var key, b, s' := s.tasks[t].key, View(s), Advance(s, t, c);
    var others := set k | k in c.order;
    assert forall i :: 0 <= i < |c.order| ==> c.order[i] in others;
    assert IsLoading(b, key) by { assert b.claims[t].mark == Some(key); }
    assert forall k :: IsLoaded(b, k) ==> k in s.slots.Keys - {key};
    ViewSet(s, s', t);
    SweepSound(b, t, c.order);
    assert View(s') == SetClaim(b, t, b.claims[t].(sweep := Some(c.order)));
  }

  lemma SweepStepSound(s: State, t: TaskId, c: Choice)
    requires Inv(s) && Steps(s, t, c) && s.tasks[t].Request? && s.tasks[t].pc.Sweep?
    ensures Sound(View(Advance(s, t, c)))
  {
    var rest, s' := s.tasks[t].pc.rest, Advance(s, t, c);
    if rest == [] {
      QuietStep(s, s', t);
    } else {
      AcquireStep(s, s', t, rest[0]);
    }
  }

  /** After the visited slot is emptied, only slots further down the list can be Loaded. */
  lemma VisitSound(b: Board, t: TaskId, rest: seq<ModelCacheKey>)
    requires Sound(b) && t < |b.claims| && rest != [] && rest[0] in b.slots
    requires b.claims[t].slot == Some(rest[0]) && b.claims[t].sweep == Some(rest) && b.claims[t].generates.None?
    ensures var u := if b.slots[rest[0]].state.Loaded? then SetSlot(b, rest[0], Empty) else b;
            Sound(Release(SetClaim(u, t, u.claims[t].(sweep := Some(rest[1..]))), t, rest[0]))
  {
    var u := if b.slots[rest[0]].state.Loaded? then SetSlot(b, rest[0], Empty) else b;
    if b.slots[rest[0]].state.Loaded? { UnloadSound(b, t, rest[0]); }
    assert !IsLoaded(u, rest[0]);
    assert forall k :: IsLoaded(u, k) ==> k in rest[1..];
    SweepSound(u, t, rest[1..]);
    ReleaseSound(SetClaim(u, t, u.claims[t].(sweep := Some(rest[1..]))), t, rest[0]);
  }

  lemma SweepLockedSound(s: State, t: TaskId, c: Choice)
    requires Inv(s) && Steps(s, t, c) && s.tasks[t].Request? && s.tasks[t].pc.SweepLocked?
    ensures Sound(View(Advance(s, t, c)))
  {
    var rest, b, s' := s.tasks[t].pc.rest, View(s), Advance(s, t, c);
    VisitSound(b, t, rest);
    ViewSet(s, s', t);
    var u := if b.slots[rest[0]].state.Loaded? then SetSlot(b, rest[0], Empty) else b;
    assert View(s') == Release(SetClaim(u, t, u.claims[t].(sweep := Some(rest[1..]))), t, rest[0]);
  }

  lemma ViewWakes(s: State, k: ModelCacheKey)
    ensures View(NotifyWaiters(s, k)) == WakeAll(View(s), k)
  {
    forall i | 0 <= i < |s.tasks|
      ensures ClaimOf(Wake(s.tasks[i], k)) == Awake(ClaimOf(s.tasks[i]), k)
    {
    }
  }

  /** Storing the model or giving up: the slot is resolved and every waiter woken. */
  lemma ResolveStep(s: State, t: TaskId, key: ModelCacheKey, state: SlotState, pc: RequestPc)
    requires Sound(View(s)) && t < |s.tasks| && s.tasks[t].Request? && key == s.tasks[t].key && key in s.slots
    requires ClaimOf(s.tasks[t]).mark == Some(key)
    requires ClaimOf(s.tasks[t]).waits.None? && ClaimOf(s.tasks[t]).generates.None?
    requires RequestClaim(key, pc) == ClaimOf(s.tasks[t]).(mark := None, sweep := None)
    requires state.Empty? || (state == Loaded(key) && ClaimOf(s.tasks[t]).sweep == Some([]))
    ensures t < |NotifyWaiters(Put(s, key, state), key).tasks|
    ensures NotifyWaiters(Put(s, key, state), key).tasks[t].Request?
    ensures Sound(View(SetPc(NotifyWaiters(Put(s, key, state), key), t, pc)))
  {
    var w := NotifyWaiters(Put(s, key, state), key);
    ViewWakes(Put(s, key, state), key);
    ViewSet(w, SetPc(w, t, pc), t);
    ResolveSound(View(s), t, key, state);
    assert View(SetPc(w, t, pc)) == Resolve(View(s), t, key, state);
  }

  lemma StoreSound(s: State, t: TaskId, c: Choice)
    requires Inv(s) && Steps(s, t, c) && s.tasks[t].Request?
    requires s.tasks[t].pc.StoreWant? || s.tasks[t].pc.StoreLocked?
    ensures Sound(View(Advance(s, t, c)))
  {
    var key, s' := s.tasks[t].key, Advance(s, t, c);
    if s.tasks[t].pc.StoreWant? {
      AcquireStep(s, s', t, key);
    } else {
      ResolveStep(s, t, key, Loaded(key), StoreDropCold);
    }
  }

  lemma StoreReturnSound(s: State, t: TaskId, c: Choice)
    requires Inv(s) && Steps(s, t, c) && s.tasks[t].Request?
    requires s.tasks[t].pc.StoreDropCold? || s.tasks[t].pc.StoreDropSlot?
    ensures Sound(View(Advance(s, t, c)))
  {
    if s.tasks[t].pc.StoreDropCold? {
      DropColdStep(s, Advance(s, t, c), t);
    } else {
      ReleaseStep(s, Advance(s, t, c), t, s.tasks[t].key);
    }
  }

  lemma AbortSound(s: State, t: TaskId, c: Choice)
    requires Inv(s) && Steps(s, t, c) && s.tasks[t].Request?
    requires s.tasks[t].pc.AbortWant? || s.tasks[t].pc.AbortLocked?
    ensures Sound(View(Advance(s, t, c)))
  {
    var key, s' := s.tasks[t].key, Advance(s, t, c);
    if s.tasks[t].pc.AbortWant? {
      AcquireStep(s, s', t, key);
    } else {
      ResolveStep(s, t, key, Empty, AbortReport(s.tasks[t].pc.why));
    }
  }

  lemma AbortReturnSound(s: State, t: TaskId, c: Choice)
    requires Inv(s) && Steps(s, t, c) && s.tasks[t].Request?
    requires s.tasks[t].pc.AbortReport? || s.tasks[t].pc.AbortDropCold?
    ensures Sound(View(Advance(s, t, c)))
  {
    var key, s' := s.tasks[t].key, Advance(s, t, c);
    if s.tasks[t].pc.AbortReport? {
      ReleaseStep(s, s', t, key);
    } else {
      DropColdStep(s, s', t);
    }
  }

  lemma GenerateStep(s: State, s': State, t: TaskId, g: Option<ModelCacheKey>)
    requires Sound(View(s)) && Rewrites(s, s', t) && s'.slots == s.slots && s'.cold == s.cold
    requires g.Some? ==> ClaimOf(s.tasks[t]).slot == g && IsLoaded(View(s), g.value)
    requires ClaimOf(s'.tasks[t]) == ClaimOf(s.tasks[t]).(generates := g)
    ensures Sound(View(s'))
  {
    ViewSet(s, s', t);
    GenerateSound(View(s), t, g);
    assert View(s') == SetClaim(View(s), t, View(s).claims[t].(generates := g));
  }

  lemma GenerateLockSound(s: State, t: TaskId, c: Choice)
    requires Inv(s) && Steps(s, t, c) && s.tasks[t].Request?
    requires s.tasks[t].pc.GenWant?
    ensures Sound(View(Advance(s, t, c)))
  {
    AcquireStep(s, Advance(s, t, c), t, s.tasks[t].key);
  }

  lemma GenerateUnlockSound(s: State, t: TaskId, c: Choice)
    requires Inv(s) && Steps(s, t, c) && s.tasks[t].Request?
    requires s.tasks[t].pc.GenReport? || s.tasks[t].pc.GenRefuse?
    ensures Sound(View(Advance(s, t, c)))
  {
    ReleaseStep(s, Advance(s, t, c), t, s.tasks[t].key);
  }

  lemma GenerateRunSound(s: State, t: TaskId, c: Choice)
    requires Inv(s) && Steps(s, t, c) && s.tasks[t].Request?
    requires s.tasks[t].pc.GenLocked? || s.tasks[t].pc.Generating?
    ensures Sound(View(Advance(s, t, c)))
  {
    var key, s' := s.tasks[t].key, Advance(s, t, c);
    if s.tasks[t].pc.GenLocked? {
      GenerateStep(s, s', t, if s.slots[key].state.Loaded? then Some(key) else None);
    } else {
      GenerateStep(s, s', t, None);
    }
  }

  lemma EvictionSound(s: State, t: TaskId, c: Choice)
    requires Inv(s) && Steps(s, t, c) && s.tasks[t].Eviction?
    ensures Sound(View(Advance(s, t, c)))
  {
    var k, b, b' := s.tasks[t].rest[0], View(s), View(Advance(s, t, c));
    if !s.tasks[t].locked {
      AcquireSound(b, t, k);
      assert b' == Acquire(b, t, k);
    } else if s.slots[k].state.Loaded? {
      UnloadSound(b, t, k);
      var u := SetSlot(b, k, Empty);
      ViewWakes(Put(s, k, Empty), k);
      assert View(Put(s, k, Empty)) == u;
      ReleaseSound(u, t, k);
      assert b' == Release(u, t, k);
    } else {
      ReleaseSound(b, t, k);
      assert b' == Release(b, t, k);
    }
  }

  // ----- every run ------------------------------------------------------------

  lemma AdvanceSound(s: State, t: TaskId, c: Choice)
    requires Inv(s) && Steps(s, t, c)
    ensures Sound(View(Advance(s, t, c)))
  {
    if s.tasks[t].Eviction? {
      EvictionSound(s, t, c);
    } else {
      match s.tasks[t].pc
      case Top | TopLocked | Waiting(_) => TopSound(s, t, c);
      case ColdWant | RecheckWant | RecheckBreak => RecheckSound(s, t, c);
      case RecheckLocked => MarkStepSound(s, t, c);
      case RecheckWait(_) => assert false;
      case Announce | LoadRunning => LoadSound(s, t, c);
      case Snapshot => SnapshotSound(s, t, c);
      case Sweep(_) => SweepStepSound(s, t, c);
      case SweepLocked(_) => SweepLockedSound(s, t, c);
      case StoreWant | StoreLocked => StoreSound(s, t, c);
      case StoreDropCold | StoreDropSlot => StoreReturnSound(s, t, c);
      case AbortWant(_) | AbortLocked(_) => AbortSound(s, t, c);
      case AbortReport(_) | AbortDropCold(_) => AbortReturnSound(s, t, c);
      case GenWant => GenerateLockSound(s, t, c);
      case GenReport | GenRefuse => GenerateUnlockSound(s, t, c);
      case GenLocked | Generating => GenerateRunSound(s, t, c);
      case Done(_) => assert false;
    }
  }

  lemma AdvanceKeepsSlots(s: State, t: TaskId, c: Choice)
    requires Enabled(s, t)
    ensures Advance(s, t, c).slots.Keys == s.slots.Keys
    ensures |Advance(s, t, c).tasks| == |s.tasks|
  {}

  /** A step moves one task; the others are at most woken. */
  lemma AdvanceOthers(s: State, t: TaskId, c: Choice, i: TaskId)
    requires Enabled(s, t) && i < |s.tasks| && i != t
    ensures i < |Advance(s, t, c).tasks|
    ensures Advance(s, t, c).tasks[i] == s.tasks[i] || exists k :: Advance(s, t, c).tasks[i] == Wake(s.tasks[i], k)
  {
    var s' := Advance(s, t, c);
    if s.tasks[t].Eviction? {
      if s'.tasks[i] != s.tasks[i] { assert s'.tasks[i] == Wake(s.tasks[i], s.tasks[t].rest[0]); }
    } else if s.tasks[t].pc.StoreLocked? || s.tasks[t].pc.AbortLocked? {
      assert s'.tasks[i] == Wake(s.tasks[i], s.tasks[t].key);
    } else {
      assert s'.tasks[i] == s.tasks[i];
    }
  }

  lemma AdvanceShapeSelf(s: State, t: TaskId, c: Choice)
    requires Enabled(s, t) && TaskShape(s, s.tasks[t])
    requires s.tasks[t].Request? && s.tasks[t].pc.RecheckLocked? ==> !s.slots[s.tasks[t].key].state.Loading?
    requires s.tasks[t].Request? && s.tasks[t].pc.Snapshot? ==> AllKnown(s, c.order)
    ensures t < |Advance(s, t, c).tasks| && TaskShape(s, Advance(s, t, c).tasks[t])
  {
    if s.tasks[t].Request? { RequestShapeSelf(s, t, c); }
  }

  lemma RequestShapeSelf(s: State, t: TaskId, c: Choice)
    requires Enabled(s, t) && TaskShape(s, s.tasks[t]) && s.tasks[t].Request?
    requires s.tasks[t].pc.RecheckLocked? ==> !s.slots[s.tasks[t].key].state.Loading?
    requires s.tasks[t].pc.Snapshot? ==> AllKnown(s, c.order)
    ensures t < |Advance(s, t, c).tasks| && TaskShape(s, Advance(s, t, c).tasks[t])
  {
    if s.tasks[t].pc.Snapshot? || s.tasks[t].pc.Sweep? || s.tasks[t].pc.SweepLocked? {
      SweepShapeSelf(s, t, c);
    } else {
      OtherShapeSelf(s, t, c);
    }
  }

  lemma SweepShapeSelf(s: State, t: TaskId, c: Choice)
    requires Enabled(s, t) && TaskShape(s, s.tasks[t]) && s.tasks[t].Request?
    requires s.tasks[t].pc.Snapshot? || s.tasks[t].pc.Sweep? || s.tasks[t].pc.SweepLocked?
    requires s.tasks[t].pc.Snapshot? ==> AllKnown(s, c.order)
    ensures t < |Advance(s, t, c).tasks| && TaskShape(s, Advance(s, t, c).tasks[t])
  {}

  lemma OtherShapeSelf(s: State, t: TaskId, c: Choice)
    requires Enabled(s, t) && TaskShape(s, s.tasks[t]) && s.tasks[t].Request?
    requires s.tasks[t].pc.RecheckLocked? ==> !s.slots[s.tasks[t].key].state.Loading?
    requires !s.tasks[t].pc.Snapshot? && !s.tasks[t].pc.Sweep? && !s.tasks[t].pc.SweepLocked?
    ensures t < |Advance(s, t, c).tasks| && TaskShape(s, Advance(s, t, c).tasks[t])
  {}

  lemma AdvanceShape(s: State, t: TaskId, c: Choice)
    requires Inv(s) && Steps(s, t, c)
    ensures Shaped(Advance(s, t, c))
  {
    var s' := Advance(s, t, c);
    AdvanceKeepsSlots(s, t, c);
    if s.tasks[t].Request? && s.tasks[t].pc.RecheckLocked? { RecheckNotLoading(s, t); }
    if s.tasks[t].Request? && s.tasks[t].pc.Snapshot? { SnapshotSound(s, t, c); }
    AdvanceShapeSelf(s, t, c);
    forall i | 0 <= i < |s'.tasks|
      ensures TaskShape(s', s'.tasks[i])
    {
      assert TaskShape(s, s.tasks[i]);
      if i != t { AdvanceOthers(s, t, c, i); }
    }
  }

  lemma ArrivalSound(s: State, s': State)
    requires Inv(s) && Arrival(s, s')
    ensures Sound(View(s'))
  {
    assert View(s').claims == View(s).claims + [NoClaim];
    ArriveSound(View(s), View(s'));
  }

  lemma InvArrival(s: State, s': State)
    requires Inv(s) && Arrival(s, s')
    ensures Inv(s')
  {
    ArrivalSound(s, s');
    if modelId, order :| SelectsModel(s, modelId, order) && s' == ArriveEviction(s, order) {
      var chosen := set k | k in order;
      assert forall i :: 0 <= i < |order| ==> order[i] in chosen;
    }
    forall i | 0 <= i < |s.tasks|
      ensures TaskShape(s', s'.tasks[i])
    {
      assert TaskShape(s, s.tasks[i]);
    }
  }

  lemma InvNext(s: State, s': State)
    requires Inv(s) && Next(s, s')
    ensures Inv(s')
  {
    if TaskStep(s, s') {
      var t, c :| Enabled(s, t) && Allowed(s, t, c) && s' == Advance(s, t, c);
      AdvanceSound(s, t, c);
      AdvanceShape(s, t, c);
    } else {
      InvArrival(s, s');
    }
  }

  /** Every state of every run satisfies the invariant. */
  lemma {:induction false} InvRun(run: seq<State>, i: nat)
    requires IsRun(run) && i < |run|
    ensures Inv(run[i])
  {
    if i > 0 {
      InvRun(run, i - 1);
      InvNext(run[i - 1], run[i]);
    }
  }
}
