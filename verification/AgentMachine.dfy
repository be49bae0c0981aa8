/** The agent's step machine (desktop/crates/goose-agent/src/machine.rs and
    operation.rs). Operations are uninterpreted: they answer whatever they like, and the
    cancel token may be set at any moment.

    Time is a count of the moments at which the machine looks at the token or calls out.
    A pass over step `i` takes four of them: the check at 69, the call at 73 or 87, the
    check at 92, and the cancel hook at 94. */
module AgentMachine {
  import opened Wrappers

  datatype Message = Message(id: Option<string>, body: string)

  datatype Effect =
    | AppendMessage(message: Message)
    | ReplaceConversation(messages: seq<Message>)
    | PatchToolRequestMeta(toolCallId: string, patch: string)
    | SetMessageVisibility(messageId: string, userVisible: bool, agentVisible: bool)

  datatype StepResult = StepResult(effects: seq<Effect>, appliedStep: Option<nat>, yieldToClient: bool)

  datatype OperationResult = NotApplicable | Applied(result: StepResult)

  datatype Answer = Ok(value: OperationResult) | Err

  /** A source of fresh identifiers for one pass, by effect and message position. */
  type Uuids = (nat, nat) -> string

  /** Everything outside the machine: when the token is set, what step `i` answers when
      called at a moment, what its cancel hook makes of a result, and which loads and
      applications succeed. */
  datatype World = World(
    setAt: Option<nat>,
    run: (nat, nat) -> Answer,
    cancel: (nat, nat, OperationResult) -> Answer,
    loads: nat -> bool,
    applies: nat -> bool,
    uuids: nat -> Uuids)

  predicate Cancelled(w: World, t: nat) {
    w.setAt.Some? && w.setAt.value <= t
  }

  // ----- message identifiers, operation.rs 216-231 ----------------------------

  function WithId(m: Message, id: string): Message {
    if m.id.None? then m.(id := Some(id)) else m
  }

  function IdentifyMessages(ms: seq<Message>, e: nat, uuids: Uuids): seq<Message> {
    seq(|ms|, k requires 0 <= k < |ms| => WithId(ms[k], uuids(e, k)))
  }

  function IdentifyEffect(effect: Effect, e: nat, uuids: Uuids): Effect {
    match effect
    case AppendMessage(m) => AppendMessage(WithId(m, uuids(e, 0)))
    case ReplaceConversation(ms) => ReplaceConversation(IdentifyMessages(ms, e, uuids))
    case _ => effect
  }

  function Identify(effects: seq<Effect>, uuids: Uuids): seq<Effect> {
    seq(|effects|, e requires 0 <= e < |effects| => IdentifyEffect(effects[e], e, uuids))
  }

  /** The loop of `ensure_message_ids`. */
  method EnsureMessageIds(effects: seq<Effect>, uuids: Uuids) returns (identified: seq<Effect>)
    ensures identified == Identify(effects, uuids)
  {
    identified := effects;
    var e := 0;
    while e < |effects|
      invariant 0 <= e <= |effects| == |identified|
      invariant forall j :: 0 <= j < e ==> identified[j] == IdentifyEffect(effects[j], j, uuids)
      invariant forall j :: e <= j < |effects| ==> identified[j] == effects[j]
    {
      match identified[e] {
        case AppendMessage(m) =>
          if m.id.None? {
            identified := identified[e := AppendMessage(m.(id := Some(uuids(e, 0))))];
          }
        case ReplaceConversation(ms) =>
          var named := ms;
          var k := 0;
          while k < |ms|
            invariant 0 <= k <= |ms| == |named|
            invariant forall j :: 0 <= j < k ==> named[j] == WithId(ms[j], uuids(e, j))
            invariant forall j :: k <= j < |ms| ==> named[j] == ms[j]
          {
            if named[k].id.None? {
              named := named[k := named[k].(id := Some(uuids(e, k)))];
            }
            k := k + 1;
          }
          assert named == IdentifyMessages(ms, e, uuids);
          identified := identified[e := ReplaceConversation(named)];
        case _ =>
      }
      e := e + 1;
    }
  }

  /** The second pass, in `apply`, changes nothing whatever identifiers it would draw. */
  lemma SecondPassIsIdle(effects: seq<Effect>, first: Uuids, second: Uuids)
    ensures Identify(Identify(effects, first), second) == Identify(effects, first)
  {
    forall e | 0 <= e < |effects|
      ensures IdentifyEffect(IdentifyEffect(effects[e], e, first), e, second) == IdentifyEffect(effects[e], e, first)
    {
      if effects[e].ReplaceConversation? {
        var once := IdentifyMessages(effects[e].messages, e, first);
        forall k | 0 <= k < |once|
          ensures WithId(once[k], second(e, k)) == once[k]
        {
          assert once[k] == WithId(effects[e].messages[k], first(e, k));
        }
        assert IdentifyMessages(once, e, second) == once;
      }
    }
  }

  // ----- one pass over the steps, machine.rs 62-117 ---------------------------

  datatype Pass = Nothing | Failed | Produced(result: StepResult, sawCancel: bool)

  /** The final answer of step `i` when its turn comes at moment `t`. */
  function Final(w: World, i: nat, t: nat): Answer {
    var first := if Cancelled(w, t) then Ok(NotApplicable) else w.run(i, t + 1);
    if first.Err? || !Cancelled(w, t + 2) then first else w.cancel(i, t + 3, first.value)
  }

  function Finish(w: World, i: nat, t: nat, r: StepResult): StepResult {
    StepResult(Identify(r.effects, w.uuids(t)), Some(i), r.yieldToClient || Cancelled(w, t + 2))
  }

  /** Steps `i` to `n - 1`, starting at moment `t`; also the moment it ends. */
  function Steps(w: World, n: nat, i: nat, t: nat): (Pass, nat)
    requires i <= n
    decreases n - i
  {
    if i == n then (Nothing, t)
    else
      match Final(w, i, t)
      case Err => (Failed, t + 4)
      case Ok(NotApplicable) => Steps(w, n, i + 1, t + 4)
      case Ok(Applied(r)) => (Produced(Finish(w, i, t, r), Cancelled(w, t + 2)), t + 4)
  }

  /** The final answer of step `j` in a pass that starts with step `i` at moment `t`. */
  function Later(w: World, i: nat, t: nat, j: nat): Answer
    requires i <= j
  {
    Final(w, j, t + 4 * (j - i))
  }

  ghost predicate Declined(w: World, i: nat, t: nat, j: nat)
    requires i <= j
  {
    forall k :: i <= k < j ==> Later(w, i, t, k) == Ok(NotApplicable)
  }

  lemma DeclinedExtends(w: World, i: nat, t: nat, j: nat)
    requires i < j && Final(w, i, t) == Ok(NotApplicable) && Declined(w, i + 1, t + 4, j)
    ensures Declined(w, i, t, j) && Later(w, i, t, j) == Later(w, i + 1, t + 4, j)
  {
    forall k | i <= k < j
      ensures Later(w, i, t, k) == Ok(NotApplicable)
    {
      if k > i { assert Later(w, i, t, k) == Later(w, i + 1, t + 4, k); }
    }
  }

  /** The applied step is the first in order whose result was applicable; nothing is
      applied exactly when no step's was. */
  lemma {:induction false} FirstApplicableStep(w: World, n: nat, i: nat, t: nat)
    requires i <= n
    ensures match Steps(w, n, i, t).0
            case Nothing => Declined(w, i, t, n)
            case Failed => exists j :: i <= j < n && Later(w, i, t, j).Err? && Declined(w, i, t, j)
            case Produced(r, _) =>
              && r.appliedStep.Some? && i <= r.appliedStep.value < n
              && Declined(w, i, t, r.appliedStep.value)
              && Later(w, i, t, r.appliedStep.value).Ok? && Later(w, i, t, r.appliedStep.value).value.Applied?
    decreases n - i
  {
    if i < n && Final(w, i, t) == Ok(NotApplicable) {
      FirstApplicableStep(w, n, i + 1, t + 4);
      match Steps(w, n, i, t).0
      case Nothing => DeclinedExtends(w, i, t, n);
      case Failed =>
        var j :| i + 1 <= j < n && Later(w, i + 1, t + 4, j).Err? && Declined(w, i + 1, t + 4, j);
        DeclinedExtends(w, i, t, j);
      case Produced(r, _) => DeclinedExtends(w, i, t, r.appliedStep.value);
    } else if i < n {
      assert Later(w, i, t, i) == Final(w, i, t);
    }
  }

  lemma {:induction false} PassTakesTime(w: World, n: nat, i: nat, t: nat)
    requires i <= n
    ensures Steps(w, n, i, t).1 >= t
    ensures Steps(w, n, i, t).0.Produced? ==>
              Steps(w, n, i, t).1 >= t + 4
              && Steps(w, n, i, t).0.sawCancel == Cancelled(w, Steps(w, n, i, t).1 - 2)
              && (Steps(w, n, i, t).0.sawCancel ==> Steps(w, n, i, t).0.result.yieldToClient)
    decreases n - i
  {
    if i < n && Final(w, i, t) == Ok(NotApplicable) { PassTakesTime(w, n, i + 1, t + 4); }
  }

  // ----- a run, machine.rs 137-152 --------------------------------------------

  /** One application of effects: when, what, and whether the step that produced it saw
      the cancellation. */
  datatype Batch = Batch(at: nat, result: StepResult, sawCancel: bool)

  datatype Ending = Going | Stopped | Broken

  /** One turn of the loop, from moment `t`: the batch it applies, if any, how the loop
      goes on, and when. */
  function Turn(w: World, n: nat, t: nat): (Option<Batch>, Ending, nat) {
    if !w.loads(t) then (None, Broken, t)
    else
      var (pass, end) := Steps(w, n, 0, t + 1);
      match pass
      case Nothing => (None, Stopped, end)
      case Failed => (None, Broken, end)
      case Produced(result, sawCancel) =>
        (Some(Batch(end, result, sawCancel)),
         if !w.applies(end) then Broken else if result.yieldToClient then Stopped else Going,
         end + 1)
  }

  function Listed(b: Option<Batch>): seq<Batch> {
    match b
    case None => []
    case Some(batch) => [batch]
  }

  /** At most `fuel` turns of the loop, starting at moment `t`. */
  function Run(w: World, n: nat, t: nat, fuel: nat): (seq<Batch>, Ending)
    decreases fuel
  {
    if fuel == 0 then ([], Going)
    else
      var (batch, ending, next) := Turn(w, n, t);
      if ending.Going? then After(Listed(batch), Run(w, n, next, fuel - 1)) else (Listed(batch), Conclude(w, ending, next))
  }

  /** The last load, 151, whose session is the result. */
  function Conclude(w: World, ending: Ending, t: nat): Ending {
    if ending.Stopped? && !w.loads(t) then Broken else ending
  }

  /** A run that follows the batches `before`. */
  function After(before: seq<Batch>, run: (seq<Batch>, Ending)): (seq<Batch>, Ending) {
    (before + run.0, run.1)
  }

  /** The batches applied once the token is set. */
  function Late(w: World, batches: seq<Batch>): nat {
    if batches == [] then 0
    else (if Cancelled(w, batches[0].at) then 1 else 0) + Late(w, batches[1..])
  }

  /** A turn that starts after the token was set is the last one. */
  lemma LastTurn(w: World, n: nat, t: nat, fuel: nat)
    requires Cancelled(w, t) && fuel > 0
    ensures |Run(w, n, t, fuel).0| <= 1 && Run(w, n, t, fuel).1 != Going
  {
    PassTakesTime(w, n, 0, t + 1);
  }

  lemma LateCons(w: World, first: Batch, more: seq<Batch>)
    ensures Late(w, [first] + more) == (if Cancelled(w, first.at) then 1 else 0) + Late(w, more)
  {
    assert ([first] + more)[1..] == more;
  }

  /** A batch whose step saw the cancellation yields and is the last; and at most two
      batches, the last two, are applied once the token is set. */
  ghost predicate Prompt(w: World, batches: seq<Batch>) {
    && Late(w, batches) <= 2
    && (forall b :: 0 <= b < |batches| && batches[b].sawCancel ==>
          batches[b].result.yieldToClient && b == |batches| - 1)
    && (forall b :: 0 <= b < |batches| && Cancelled(w, batches[b].at) ==> b + 2 >= |batches|)
  }

  lemma PromptCons(w: World, first: Batch, more: seq<Batch>)
    requires Prompt(w, more) && (first.sawCancel ==> first.result.yieldToClient && more == [])
    requires Cancelled(w, first.at) ==> |more| <= 1
    ensures Prompt(w, [first] + more)
  {
    LateCons(w, first, more);
    assert |more| <= 1 ==> Late(w, more) <= 1 by {
      if |more| == 1 { assert more[1..] == []; }
    }
  }

  /** Over every run: any batch produced by a step that saw the cancellation yields and is
      the last; and once the token is set at most two more batches are applied. */
  lemma {:induction false} CancellationIsPrompt(w: World, n: nat, t: nat, fuel: nat)
    ensures Prompt(w, Run(w, n, t, fuel).0)
    decreases fuel
  {
    if fuel > 0 {
      var (batch, ending, next) := Turn(w, n, t);
      PassTakesTime(w, n, 0, t + 1);
      if ending.Going? {
        CancellationIsPrompt(w, n, next, fuel - 1);
        if Cancelled(w, next) && fuel > 1 { LastTurn(w, n, next, fuel - 1); }
        PromptCons(w, batch.value, Run(w, n, next, fuel - 1).0);
      } else if batch.Some? {
        PromptCons(w, batch.value, []);
        assert [batch.value] + [] == [batch.value];
      }
    }
  }

  /** Once the token is set the loop ends, whatever the operations do. */
  lemma {:induction false} CancellationStops(w: World, n: nat, t: nat, fuel: nat)
    requires w.setAt.Some? && w.setAt.value <= t + fuel
    ensures Run(w, n, t, fuel + 1).1 != Going
    decreases fuel
  {
    if Cancelled(w, t) {
      LastTurn(w, n, t, fuel + 1);
    } else if w.loads(t) {
      var (pass, end) := Steps(w, n, 0, t + 1);
      PassTakesTime(w, n, 0, t + 1);
      if pass.Produced? && w.applies(end) && !pass.result.yieldToClient {
        CancellationStops(w, n, end + 1, fuel - 1);
      }
    }
  }

  /** A world in which one step always has something to do, also when cancelled, and the
      token is set just after the step's last look at it. */
  function LateCancel(): World {
    var busy := Ok(Applied(StepResult([], None, false)));
    World(Some(4), (i: nat, t: nat) => busy, (i: nat, t: nat, r: OperationResult) => busy,
          (t: nat) => true, (t: nat) => true, (t: nat) => (e: nat, k: nat) => "msg")
  }

  /** Two batches after the token is set do happen. */
  lemma TwoLateBatches()
    ensures var (batches, ending) := Run(LateCancel(), 1, 0, 2);
            ending.Stopped? && Late(LateCancel(), batches) == 2
  {
    var w := LateCancel();
    assert Steps(w, 1, 0, 1) == (Produced(Finish(w, 0, 1, StepResult([], None, false)), false), 5);
    assert Steps(w, 1, 0, 7) == (Produced(Finish(w, 0, 7, StepResult([], None, false)), true), 11);
    var first := Batch(5, Finish(w, 0, 1, StepResult([], None, false)), false);
    var second := Batch(11, Finish(w, 0, 7, StepResult([], None, false)), true);
    assert Run(w, 1, 6, 1) == ([second], Stopped);
    assert Run(w, 1, 0, 2) == ([first] + [second], Stopped);
    assert ([first] + [second])[1..] == [second] && [second][1..] == [];
    assert Late(w, [second]) == 1 + Late(w, []);
  }

  // ----- the loops ------------------------------------------------------------

  /** 62-117. */
  method TakeStep(w: World, n: nat, t: nat) returns (pass: Pass, end: nat)
    ensures (pass, end) == Steps(w, n, 0, t)
  {
    end := t;
    var i := 0;
    while i < n
      invariant 0 <= i <= n
      invariant Steps(w, n, 0, t) == Steps(w, n, i, end)
    {
      var answer := if Cancelled(w, end) then Ok(NotApplicable) else w.run(i, end + 1);
      if answer.Err? {
        return Failed, end + 4;
      }
      var cancelled := Cancelled(w, end + 2);
      if cancelled {
        answer := w.cancel(i, end + 3, answer.value);
        if answer.Err? {
          return Failed, end + 4;
        }
      }
      if answer.value.Applied? {
        var result := answer.value.result;
        var effects := EnsureMessageIds(result.effects, w.uuids(end));
        var yieldToClient := if cancelled then true else result.yieldToClient;
        return Produced(StepResult(effects, Some(i), yieldToClient), cancelled), end + 4;
      }
      end := end + 4;
      i := i + 1;
    }
    pass := Nothing;
  }

  /** The second identifier pass of `apply`, 129-131, finds nothing to do. */
  lemma {:induction false} ProducedIsIdentified(w: World, n: nat, i: nat, t: nat, uuids: Uuids)
    requires i <= n && Steps(w, n, i, t).0.Produced?
    ensures Identify(Steps(w, n, i, t).0.result.effects, uuids) == Steps(w, n, i, t).0.result.effects
    decreases n - i
  {
    if Final(w, i, t) == Ok(NotApplicable) {
      ProducedIsIdentified(w, n, i + 1, t + 4, uuids);
    } else {
      SecondPassIsIdle(Final(w, i, t).value.result.effects, w.uuids(t), uuids);
    }
  }

  lemma RunTakesTurn(w: World, n: nat, t: nat, fuel: nat, before: seq<Batch>)
    requires fuel > 0
    ensures var (batch, ending, next) := Turn(w, n, t);
            After(before, Run(w, n, t, fuel))
            == if ending.Going? then After(before + Listed(batch), Run(w, n, next, fuel - 1))
               else (before + Listed(batch), Conclude(w, ending, next))
  {
    var (batch, ending, next) := Turn(w, n, t);
    if ending.Going? {
      var more := Run(w, n, next, fuel - 1).0;
      assert before + (Listed(batch) + more) == (before + Listed(batch)) + more;
    }
  }

  /** 142-149; the effects that reach the runtime are the ones the step produced. */
  method TakeTurn(w: World, n: nat, t: nat) returns (batch: Option<Batch>, ending: Ending, next: nat)
    ensures (batch, ending, next) == Turn(w, n, t)
  {
    if !w.loads(t) {
      return None, Broken, t;
    }
    var pass, end := TakeStep(w, n, t + 1);
    if pass.Nothing? {
      return None, Stopped, end;
    }
    if pass.Failed? {
      return None, Broken, end;
    }
    ProducedIsIdentified(w, n, 0, t + 1, w.uuids(end));
    var effects := EnsureMessageIds(pass.result.effects, w.uuids(end));
    batch := Some(Batch(end, pass.result.(effects := effects), pass.sawCancel));
    ending := if !w.applies(end) then Broken else if pass.result.yieldToClient then Stopped else Going;
    next := end + 1;
  }

  /** 137-152. */
  method RunMachine(w: World, n: nat, fuel: nat) returns (batches: seq<Batch>, ending: Ending)
    ensures (batches, ending) == Run(w, n, 0, fuel)
  {
    batches, ending := [], Going;
    var t, turns := 0, 0;
    assert [] + Run(w, n, 0, fuel).0 == Run(w, n, 0, fuel).0;
    while turns < fuel
      invariant turns <= fuel && ending.Going?
      invariant Run(w, n, 0, fuel) == After(batches, Run(w, n, t, fuel - turns))
    {
      RunTakesTurn(w, n, t, fuel - turns, batches);
      var batch;
      batch, ending, t := TakeTurn(w, n, t);
      batches := batches + Listed(batch);
      if !ending.Going? {
        if ending.Stopped? && !w.loads(t) {
          ending := Broken;
        }
        return;
      }
      turns := turns + 1;
    }
    assert batches + [] == batches;
  }
}
