/** What is applied, over whole runs of the step machine
    (desktop/crates/goose-agent/src/machine.rs, 62-152): each batch is the answer of the
    first applicable step of its turn, with identifiers where the answer had none. */
module AgentEffects {
  import opened Wrappers
  import opened AgentMachine

  // ----- identifiers apart ---------------------------------------------------------

  /** The same message, which has an identifier now: its own, if it had one. */
  predicate SameMessage(given: Message, applied: Message) {
    applied.body == given.body && applied.id.Some? && (given.id.Some? ==> applied.id == given.id)
  }

  predicate SameEffect(given: Effect, applied: Effect) {
    match given
    case AppendMessage(m) => applied.AppendMessage? && SameMessage(m, applied.message)
    case ReplaceConversation(ms) =>
      applied.ReplaceConversation? && |applied.messages| == |ms|
      && forall k :: 0 <= k < |ms| ==> SameMessage(ms[k], applied.messages[k])
    case PatchToolRequestMeta(_, _) => applied == given
    case SetMessageVisibility(_, _, _) => applied == given
  }

  predicate SameEffects(given: seq<Effect>, applied: seq<Effect>) {
    |applied| == |given| && forall e :: 0 <= e < |given| ==> SameEffect(given[e], applied[e])
  }

  lemma IdentifyKeepsEffects(effects: seq<Effect>, uuids: Uuids)
    ensures SameEffects(effects, Identify(effects, uuids))
  {
    forall e | 0 <= e < |effects| ensures SameEffect(effects[e], Identify(effects, uuids)[e]) {
      if effects[e].ReplaceConversation? {
        var ms := effects[e].messages;
        assert Identify(effects, uuids)[e] == ReplaceConversation(IdentifyMessages(ms, e, uuids));
        forall k | 0 <= k < |ms| ensures SameMessage(ms[k], IdentifyMessages(ms, e, uuids)[k]) {
          assert IdentifyMessages(ms, e, uuids)[k] == WithId(ms[k], uuids(e, k));
        }
      }
    }
  }

  /** The messages of an effect that get identifiers. */
  function MessagesOf(effect: Effect): seq<Message> {
    match effect
    case AppendMessage(m) => [m]
    case ReplaceConversation(ms) => ms
    case _ => []
  }

  /** A missing identifier is the one drawn for that message. */
  lemma MissingIdsAreDrawn(effects: seq<Effect>, uuids: Uuids, e: nat, k: nat)
    requires e < |effects| && k < |MessagesOf(effects[e])| && MessagesOf(effects[e])[k].id.None?
    ensures var applied := MessagesOf(Identify(effects, uuids)[e]);
            k < |applied| && applied[k].id == Some(uuids(e, k))
  {
    if effects[e].ReplaceConversation? {
      assert IdentifyMessages(effects[e].messages, e, uuids)[k] == WithId(effects[e].messages[k], uuids(e, k));
    }
  }

  // ----- one pass over the steps --------------------------------------------------------

  /** When step `j` has its turn in a pass that starts with step `i` at moment `t`. */
  function TurnOf(i: nat, t: nat, j: nat): nat
    requires i <= j
  {
    t + 4 * (j - i)
  }

  /** What step `j` answers when its turn comes: nothing if the token is set, else what it
      answers, and, if the token is set by then, what its cancel hook makes of that. */
  predicate Answers(w: World, j: nat, at: nat, answer: Answer) {
    var first := if Cancelled(w, at) then Ok(NotApplicable) else w.run(j, at + 1);
    answer == if first.Ok? && Cancelled(w, at + 2) then w.cancel(j, at + 3, first.value) else first
  }

  predicate Declines(w: World, i: nat, t: nat, k: nat)
    requires i <= k
  {
    Answers(w, k, TurnOf(i, t, k), Ok(NotApplicable))
  }

  /** Neither step `i` nor any after it has anything to do. */
  ghost predicate AllDecline(w: World, n: nat, i: nat, t: nat) {
    forall k :: i <= k < n ==> Declines(w, i, t, k)
  }

  /** The result is the answer of step `j`: its effects, and its wish to yield or the
      token. All steps before it had nothing to do. */
  ghost predicate IsAnswer(w: World, n: nat, i: nat, t: nat, j: nat, result: StepResult, sawCancel: bool) {
    && i <= j < n && result.appliedStep == Some(j)
    && (forall k :: i <= k < j ==> Declines(w, i, t, k))
    && (sawCancel <==> Cancelled(w, TurnOf(i, t, j) + 2))
    && exists given: StepResult ::
         && Answers(w, j, TurnOf(i, t, j), Ok(Applied(given)))
         && SameEffects(given.effects, result.effects)
         && (result.yieldToClient <==> given.yieldToClient || sawCancel)
  }

  lemma FinalAnswers(w: World, j: nat, at: nat, answer: Answer)
    ensures Answers(w, j, at, answer) <==> answer == Final(w, j, at)
  {}

  lemma AnswerLater(w: World, n: nat, i: nat, t: nat, j: nat, result: StepResult, sawCancel: bool)
    requires i < n && Answers(w, i, t, Ok(NotApplicable)) && IsAnswer(w, n, i + 1, t + 4, j, result, sawCancel)
    ensures IsAnswer(w, n, i, t, j, result, sawCancel)
  {
    assert TurnOf(i, t, j) == TurnOf(i + 1, t + 4, j);
    forall k | i <= k < j ensures Declines(w, i, t, k) {
      if k > i {
        assert Declines(w, i + 1, t + 4, k);
        assert TurnOf(i, t, k) == TurnOf(i + 1, t + 4, k);
      }
    }
  }

  /** What a pass produces is the answer of its first applicable step, and the pass ends
      with that step's turn. */
  lemma {:induction false} PassIsAnswer(w: World, n: nat, i: nat, t: nat)
    requires i <= n && Steps(w, n, i, t).0.Produced?
    ensures var (pass, end) := Steps(w, n, i, t);
            && pass.result.appliedStep.Some? && i <= pass.result.appliedStep.value
            && IsAnswer(w, n, i, t, pass.result.appliedStep.value, pass.result, pass.sawCancel)
            && end == TurnOf(i, t, pass.result.appliedStep.value) + 4
    decreases n - i
  {
    FinalAnswers(w, i, t, Final(w, i, t));
    if Final(w, i, t) == Ok(NotApplicable) {
      PassIsAnswer(w, n, i + 1, t + 4);
      var (pass, end) := Steps(w, n, i + 1, t + 4);
      AnswerLater(w, n, i, t, pass.result.appliedStep.value, pass.result, pass.sawCancel);
    } else {
      var given := Final(w, i, t).value.result;
      IdentifyKeepsEffects(given.effects, w.uuids(t));
      assert Steps(w, n, i, t).0.result == Finish(w, i, t, given);
    }
  }

  // ----- whole runs ---------------------------------------------------------------------

  /** When the turn of batch `b` begins. */
  function Begins(t: nat, batches: seq<Batch>, b: nat): nat
    requires b <= |batches|
  {
    if b == 0 then t else batches[b - 1].at + 1
  }

  /** The batch is the answer of the first applicable step of the turn that begins at `t`. */
  ghost predicate IsBatch(w: World, n: nat, t: nat, batch: Batch) {
    && w.loads(t) && batch.result.appliedStep.Some?
    && IsAnswer(w, n, 0, t + 1, batch.result.appliedStep.value, batch.result, batch.sawCancel)
    && batch.at == TurnOf(0, t + 1, batch.result.appliedStep.value) + 4
  }

  /** Every batch is, and only the last may fail to be applied or yield. */
  ghost predicate AreBatches(w: World, n: nat, t: nat, batches: seq<Batch>) {
    forall b :: 0 <= b < |batches| ==>
      && IsBatch(w, n, Begins(t, batches, b), batches[b])
      && (b < |batches| - 1 ==> w.applies(batches[b].at) && !batches[b].result.yieldToClient)
  }

  /** At `t` a turn begins in which no step has anything to do. */
  ghost predicate NothingToDo(w: World, n: nat, t: nat) {
    w.loads(t) && AllDecline(w, n, 0, t + 1)
  }

  lemma NothingMeans(w: World, n: nat, i: nat, t: nat)
    requires i <= n && Steps(w, n, i, t).0.Nothing?
    ensures AllDecline(w, n, i, t)
    ensures Steps(w, n, i, t).1 == TurnOf(i, t, n)
    decreases n - i
  {
    if i < n {
      FinalAnswers(w, i, t, Final(w, i, t));
      NothingMeans(w, n, i + 1, t + 4);
      forall k | i <= k < n ensures Declines(w, i, t, k) {
        if k > i {
        assert Declines(w, i + 1, t + 4, k);
        assert TurnOf(i, t, k) == TurnOf(i + 1, t + 4, k);
      }
      }
    }
  }

  /** Some step fails, and all before it have nothing to do. */
  ghost predicate SomeFails(w: World, n: nat, i: nat, t: nat) {
    exists j :: i <= j < n && FailsFirst(w, i, t, j)
  }

  ghost predicate FailsFirst(w: World, i: nat, t: nat, j: nat)
    requires i <= j
  {
    Answers(w, j, TurnOf(i, t, j), Err) && forall k :: i <= k < j ==> Declines(w, i, t, k)
  }

  lemma FailureMeans(w: World, n: nat, i: nat, t: nat)
    requires i <= n && Steps(w, n, i, t).0.Failed?
    ensures SomeFails(w, n, i, t)
    decreases n - i
  {
    FinalAnswers(w, i, t, Final(w, i, t));
    if Final(w, i, t).Err? {
      assert FailsFirst(w, i, t, i);
    } else {
      FailureMeans(w, n, i + 1, t + 4);
      var j :| i + 1 <= j < n && FailsFirst(w, i + 1, t + 4, j);
      assert TurnOf(i, t, j) == TurnOf(i + 1, t + 4, j);
      forall k | i <= k < j ensures Declines(w, i, t, k) {
        if k > i {
          assert Declines(w, i + 1, t + 4, k);
          assert TurnOf(i, t, k) == TurnOf(i + 1, t + 4, k);
        }
      }
      assert FailsFirst(w, i, t, j);
    }
  }

  /** How a run ends: it goes on only because the bound is reached; it stops because the
      last batch yields or because nothing is left to do, and the final load works; and it
      breaks because a batch cannot be applied, a load does not work, or a step fails. */
  ghost predicate EndsWell(w: World, n: nat, t: nat, fuel: nat, batches: seq<Batch>, ending: Ending) {
    var next := Begins(t, batches, |batches|);
    && |batches| <= fuel
    && (ending.Going? ==> |batches| == fuel && (batches != [] ==> Passes(w, batches[|batches| - 1])))
    && (ending.Stopped? ==>
          || (batches != [] && w.applies(batches[|batches| - 1].at) && batches[|batches| - 1].result.yieldToClient && w.loads(next))
          || (NothingToDo(w, n, next) && w.loads(TurnOf(0, next + 1, n)) && (batches != [] ==> Passes(w, batches[|batches| - 1]))))
    && (ending.Broken? ==>
          || (batches != [] && !w.applies(batches[|batches| - 1].at))
          || !w.loads(next)
          || SomeFails(w, n, 0, next + 1)
          || (NothingToDo(w, n, next) && !w.loads(TurnOf(0, next + 1, n))))
  }

  predicate Passes(w: World, batch: Batch) {
    w.applies(batch.at) && !batch.result.yieldToClient
  }

  lemma ConsBatches(w: World, n: nat, t: nat, first: Batch, more: seq<Batch>)
    requires IsBatch(w, n, t, first) && Passes(w, first) && AreBatches(w, n, first.at + 1, more)
    ensures AreBatches(w, n, t, [first] + more)
  {
    var batches := [first] + more;
    forall b | 0 <= b < |batches|
      ensures IsBatch(w, n, Begins(t, batches, b), batches[b])
      ensures b < |batches| - 1 ==> w.applies(batches[b].at) && !batches[b].result.yieldToClient
    {
      if b > 0 {
        assert batches[b] == more[b - 1];
        assert Begins(t, batches, b) == Begins(first.at + 1, more, b - 1);
      }
    }
  }

  lemma ConsEnds(w: World, n: nat, t: nat, fuel: nat, first: Batch, more: seq<Batch>, ending: Ending)
    requires Passes(w, first) && EndsWell(w, n, first.at + 1, fuel, more, ending)
    ensures EndsWell(w, n, t, fuel + 1, [first] + more, ending)
  {
    var batches := [first] + more;
    assert Begins(t, batches, |batches|) == Begins(first.at + 1, more, |more|);
    assert batches[|batches| - 1] == if more == [] then first else more[|more| - 1];
  }

  lemma OneTurn(w: World, n: nat, t: nat)
    ensures var (batch, ending, next) := Turn(w, n, t);
            && (batch.Some? ==> IsBatch(w, n, t, batch.value) && next == batch.value.at + 1)
            && (ending.Going? ==> batch.Some? && Passes(w, batch.value))
            && (ending.Stopped? && batch.Some? ==> w.applies(batch.value.at) && batch.value.result.yieldToClient)
            && (ending.Stopped? && batch.None? ==> NothingToDo(w, n, t) && next == TurnOf(0, t + 1, n))
            && (ending.Broken? && batch.Some? ==> !w.applies(batch.value.at))
            && (ending.Broken? && batch.None? ==> !w.loads(t) || SomeFails(w, n, 0, t + 1))
  {
    if w.loads(t) {
      var (pass, end) := Steps(w, n, 0, t + 1);
      match pass
      case Produced(_, _) => PassIsAnswer(w, n, 0, t + 1);
      case Nothing => NothingMeans(w, n, 0, t + 1);
      case Failed => FailureMeans(w, n, 0, t + 1);
    }
  }

  ghost predicate IsRunOf(w: World, n: nat, t: nat, fuel: nat, run: (seq<Batch>, Ending)) {
    AreBatches(w, n, t, run.0) && EndsWell(w, n, t, fuel, run.0, run.1)
  }

  lemma TurnGoesOn(w: World, n: nat, t: nat, fuel: nat, more: (seq<Batch>, Ending))
    requires Turn(w, n, t).1.Going? && IsRunOf(w, n, Turn(w, n, t).2, fuel, more)
    ensures IsRunOf(w, n, t, fuel + 1, After(Listed(Turn(w, n, t).0), more))
  {
    OneTurn(w, n, t);
    var first := Turn(w, n, t).0.value;
    ConsBatches(w, n, t, first, more.0);
    ConsEnds(w, n, t, fuel, first, more.0, more.1);
  }

  lemma TurnEnds(w: World, n: nat, t: nat, fuel: nat)
    requires !Turn(w, n, t).1.Going? && fuel > 0
    ensures var (batch, ending, next) := Turn(w, n, t);
            IsRunOf(w, n, t, fuel, (Listed(batch), Conclude(w, ending, next)))
  {
    OneTurn(w, n, t);
  }

  lemma NoTurn(w: World, n: nat, t: nat)
    ensures IsRunOf(w, n, t, 0, Run(w, n, t, 0))
  {}

  lemma RunUnfolds(w: World, n: nat, t: nat, fuel: nat)
    requires fuel > 0
    ensures var (batch, ending, next) := Turn(w, n, t);
            Run(w, n, t, fuel) == if ending.Going? then After(Listed(batch), Run(w, n, next, fuel - 1))
                                  else (Listed(batch), Conclude(w, ending, next))
  {}

  lemma TurnAndRest(w: World, n: nat, t: nat, fuel: nat)
    requires fuel > 0
    requires Turn(w, n, t).1.Going? ==> IsRunOf(w, n, Turn(w, n, t).2, fuel - 1, Run(w, n, Turn(w, n, t).2, fuel - 1))
    ensures IsRunOf(w, n, t, fuel, Run(w, n, t, fuel))
  {
    RunUnfolds(w, n, t, fuel);
    if Turn(w, n, t).1.Going? {
      TurnGoesOn(w, n, t, fuel - 1, Run(w, n, Turn(w, n, t).2, fuel - 1));
    } else {
      TurnEnds(w, n, t, fuel);
    }
  }

  /** Over every run, each batch is the answer of the first applicable step of its turn, and
      the run ends only where it should. */
  lemma {:induction false} RunAppliesAnswers(w: World, n: nat, t: nat, fuel: nat)
    ensures IsRunOf(w, n, t, fuel, Run(w, n, t, fuel))
    decreases fuel
  {
    if fuel == 0 {
      NoTurn(w, n, t);
    } else {
      if Turn(w, n, t).1.Going? { RunAppliesAnswers(w, n, Turn(w, n, t).2, fuel - 1); }
      TurnAndRest(w, n, t, fuel);
    }
  }
}
