/** The sliding-window token bucket (class TokenBucket in desktop/oidc-proxy/src/index.js,
    1-48). Times are milliseconds. Storage operations are atomic with respect to other
    requests, as the platform's input gate makes them. */
module TokenBucket {
  import opened Wrappers

  const WINDOW: int := 1000

  /** `timestamps.filter((t) => now - t < 1000)`, 28. */
  function Recent(times: seq<int>, now: int): seq<int> {
    if times == [] then []
    else if now - times[0] < WINDOW then [times[0]] + Recent(times[1..], now)
    else Recent(times[1..], now)
  }

  datatype Answer = Allowed(remaining: int) | BudgetExhausted | RateLimited

  /** The rule the bucket is meant to implement, on the full history of allowed checks. */
  function Decide(history: seq<int>, count: int, maxRequests: int, ratePerSecond: int, now: int): Answer {
    if count >= maxRequests then BudgetExhausted
    else if |Recent(history, now)| >= ratePerSecond then RateLimited
    else Allowed(maxRequests - (count + 1))
  }

  predicate Sorted(times: seq<int>) {
    forall i, j :: 0 <= i < j < |times| ==> times[i] <= times[j]
  }

  class TokenBucket {
    var count: int
    var timestamps: seq<int>
    var initialized: bool
    /** The durable counter; `None` until the first put. */
    var stored: Option<int>
    /** Every check allowed since this object was created, and the latest clock reading. */
    ghost var history: seq<int>
    ghost var clock: int

    /** The pruned list and the full history agree on every window still to come. */
    ghost predicate Valid()
      reads this
    {
      && (forall now :: now >= clock ==> Recent(timestamps, now) == Recent(history, now))
      && Sorted(history)
      && (forall i :: 0 <= i < |history| ==> history[i] <= clock)
      && (initialized ==> count == stored.Or(0))
      && (!initialized ==> count == 0 && history == [])
    }

    /** A new object over what storage holds: the first one ever, or one after a restart. */
    constructor (stored: Option<int>, now: int)
      ensures Valid() && this.stored == stored && history == [] && clock == now && !initialized
    {
      count := 0;
      timestamps := [];
      initialized := false;
      this.stored := stored;
      history := [];
      clock := now;
    }

    /** The count the next check starts from. */
    function Count(): int
      reads this
    {
      if initialized then count else stored.Or(0)
    }

    /** 9-14. */
    method Initialize()
      requires Valid()
      modifies this`count, this`initialized
      ensures Valid() && initialized && count == old(Count())
    {
      if initialized {
        return;
      }
      if stored.Some? {
        count := stored.value;
      }
      initialized := true;
    }

    /** 17-44: the answer is the one the full history of allowed checks calls for. */
    method Check(maxRequests: int, ratePerSecond: int, now: int) returns (answer: Answer)
      requires Valid() && clock <= now
      modifies this
      ensures Valid() && initialized && clock == now
      ensures answer == Decide(old(history), old(Count()), maxRequests, ratePerSecond, now)
      ensures history == if answer.Allowed? then old(history) + [now] else old(history)
      ensures Count() == if answer.Allowed? then old(Count()) + 1 else old(Count())
      ensures stored == if answer.Allowed? then Some(Count()) else old(stored)
    {
      Initialize();
      clock := now;
      if count >= maxRequests {
        return BudgetExhausted;
      }
      RecentTwice(timestamps, now);
      timestamps := Recent(timestamps, now);
      if |timestamps| >= ratePerSecond {
        return RateLimited;
      }
      count := count + 1;
      forall later | later >= now
        ensures Recent(timestamps + [now], later) == Recent(history + [now], later)
      {
        RecentAppend(timestamps, now, later);
        RecentAppend(history, now, later);
      }
      timestamps := timestamps + [now];
      history := history + [now];
      stored := Some(count);
      return Allowed(maxRequests - count);
    }
  }

  /** Pruning at `now` does not change what a later prune keeps. */
  lemma {:induction false} RecentTwice(times: seq<int>, now: int)
    ensures forall later :: later >= now ==> Recent(Recent(times, now), later) == Recent(times, later)
    decreases |times|
  {
    if times != [] {
      RecentTwice(times[1..], now);
      var rest := Recent(times[1..], now);
      assert ([times[0]] + rest)[1..] == rest;
    }
  }

  lemma {:induction false} RecentAppend(times: seq<int>, t: int, now: int)
    ensures Recent(times + [t], now) == Recent(times, now) + Recent([t], now)
    decreases |times|
  {
    if times == [] {
      assert [] + [t] == [t];
    } else {
      assert (times + [t])[1..] == times[1..] + [t];
      RecentAppend(times[1..], t, now);
    }
  }

  // ----- whole runs -----------------------------------------------------------

  datatype Event =
    | Checked(now: int)
    /** The object is lost and a new one is made. */
    | Restarted
    /** The object is lost inside a check: the answer was never sent, and the put had
        reached storage or not. */
    | LostAnswer(now: int, persisted: bool)

  /** What matters of the bucket between requests: `history` holds the times of the checks
      the present object allowed, and `answered` counts the allowed answers ever sent. */
  datatype Run = Run(stored: int, history: seq<int>, clock: int, answered: nat)

  function Next(r: Run, e: Event, maxRequests: int, rate: int): Run {
    match e
    case Checked(now) =>
      if Decide(r.history, r.stored, maxRequests, rate, now).Allowed?
      then Run(r.stored + 1, r.history + [now], now, r.answered + 1)
      else r.(clock := now)
    case Restarted => r.(history := [])
    case LostAnswer(now, persisted) =>
      var stored := if persisted && Decide(r.history, r.stored, maxRequests, rate, now).Allowed? then r.stored + 1 else r.stored;
      Run(stored, [], now, r.answered)
  }

  predicate ForwardClock(r: Run, e: Event) {
    match e
    case Checked(now) => r.clock <= now
    case Restarted => true
    case LostAnswer(now, _) => r.clock <= now
  }

  ghost predicate Forward(r: Run, events: seq<Event>, maxRequests: int, rate: int)
    decreases |events|
  {
    events == [] || (ForwardClock(r, events[0]) && Forward(Next(r, events[0], maxRequests, rate), events[1..], maxRequests, rate))
  }

  function After(r: Run, events: seq<Event>, maxRequests: int, rate: int): Run
    decreases |events|
  {
    if events == [] then r else After(Next(r, events[0], maxRequests, rate), events[1..], maxRequests, rate)
  }

  /** No 1000 ms window of the history holds more than `rate` allowed checks: `rate + 1`
      consecutive ones always span at least a second. */
  predicate WindowsHold(history: seq<int>, rate: int) {
    Sorted(history) &&
    forall i, j :: 0 <= i <= j < |history| && history[j] - history[i] < 1000 ==> j - i + 1 <= rate
  }

  lemma {:induction false} RecentCountsSuffix(history: seq<int>, now: int, i: nat)
    requires Sorted(history) && i < |history| && now - history[i] < WINDOW
    ensures |Recent(history, now)| >= |history| - i
    decreases |history|
  {
    if i > 0 {
      RecentCountsSuffix(history[1..], now, i - 1);
    } else if |history| > 1 {
      assert history[0] <= history[1];
      RecentCountsSuffix(history[1..], now, 0);
    }
  }

  lemma AllowedKeepsWindows(history: seq<int>, rate: int, now: int)
    requires WindowsHold(history, rate) && |Recent(history, now)| < rate
    requires forall i :: 0 <= i < |history| ==> history[i] <= now
    ensures WindowsHold(history + [now], rate)
  {
    var longer := history + [now];
    forall i, j | 0 <= i <= j < |longer| && longer[j] - longer[i] < 1000
      ensures j - i + 1 <= rate
    {
      if j == |history| && i < j { RecentCountsSuffix(history, now, i); }
    }
  }

  lemma {:induction false} OldAreForgotten(history: seq<int>, now: int, i: nat)
    requires Sorted(history) && i < |history| && now - history[i] >= 1000
    ensures |Recent(history, now)| < |history| - i
    decreases |history|
  {
    if i > 0 {
      assert history[0] <= history[i];
      OldAreForgotten(history[1..], now, i - 1);
    } else {
      RecentIsShorter(history[1..], now);
    }
  }

  lemma {:induction false} RecentIsShorter(times: seq<int>, now: int)
    ensures |Recent(times, now)| <= |times|
    decreases |times|
  {
    if times != [] { RecentIsShorter(times[1..], now); }
  }

  /** Full with `rate` checks: the `rate`-th last one lies less than 1000 ms back. */
  predicate WindowFull(history: seq<int>, rate: int, now: int) {
    rate <= 0 || (rate <= |history| && now - history[|history| - rate] < 1000)
  }

  /** A check is refused for its rate exactly when the last second is full, for the budget
      exactly when it is spent, and is allowed whenever neither is so. */
  lemma DecidesExactly(history: seq<int>, count: int, maxRequests: int, rate: int, now: int)
    requires Sorted(history)
    ensures var answer := Decide(history, count, maxRequests, rate, now);
            && (answer == BudgetExhausted <==> count >= maxRequests)
            && (answer == RateLimited <==> count < maxRequests && WindowFull(history, rate, now))
            && (answer.Allowed? ==> answer.remaining == maxRequests - count - 1)
  {
    if 0 < rate <= |history| {
      var i := |history| - rate;
      if now - history[i] < 1000 { RecentCountsSuffix(history, now, i); } else { OldAreForgotten(history, now, i); }
    } else {
      RecentIsShorter(history, now);
    }
  }

  predicate Sound(r: Run, maxRequests: int, rate: int) {
    && WindowsHold(r.history, rate)
    && (forall i :: 0 <= i < |r.history| ==> r.history[i] <= r.clock)
    && r.answered <= r.stored
    && r.stored <= (if maxRequests < 0 then 0 else maxRequests)
  }

  lemma {:induction false} RunIsSound(r: Run, events: seq<Event>, maxRequests: int, rate: int)
    requires Sound(r, maxRequests, rate) && Forward(r, events, maxRequests, rate)
    ensures Sound(After(r, events, maxRequests, rate), maxRequests, rate)
    decreases |events|
  {
    if events != [] {
      var next := Next(r, events[0], maxRequests, rate);
      if events[0].Checked? && Decide(r.history, r.stored, maxRequests, rate, events[0].now).Allowed? {
        AllowedKeepsWindows(r.history, rate, events[0].now);
      }
      RunIsSound(next, events[1..], maxRequests, rate);
    }
  }

  /** Over every run with a clock that does not go back: within one object lifetime every
      1000 ms window contains at most `rate` allowed checks, and across restarts and lost
      answers the allowed answers never exceed `maxRequests`. */
  lemma LimitsHold(events: seq<Event>, maxRequests: int, rate: int, start: int)
    requires Forward(Run(0, [], start, 0), events, maxRequests, rate)
    ensures var r := After(Run(0, [], start, 0), events, maxRequests, rate);
            && WindowsHold(r.history, rate)
            && r.answered <= (if maxRequests < 0 then 0 else maxRequests)
  {
    RunIsSound(Run(0, [], start, 0), events, maxRequests, rate);
  }

  // ----- why the clock must not go back ---------------------------------------

  /** A list pruned at `p` shows a reading at `now` what the full list does. */
  ghost predicate PruningIsInvisible(p: int, now: int) {
    forall times :: Recent(Recent(times, p), now) == Recent(times, now)
  }

  /** And so every check at `now` gets the answer that the full history calls for. */
  ghost predicate PruningIsHarmless(p: int, now: int) {
    forall times, count, maxRequests, rate ::
      Decide(Recent(times, p), count, maxRequests, rate, now) == Decide(times, count, maxRequests, rate, now)
  }

  lemma RecentOne(t: int, now: int)
    ensures Recent([t], now) == if now - t < WINDOW then [t] else []
  {
    assert [t][1..] == [];
  }

  /** The pruned list serves a reading exactly when the clock has not gone back since:
      otherwise the check that was pruned at the edge of its window is back inside. */
  lemma PrunedListServesExactly(p: int, now: int)
    ensures PruningIsInvisible(p, now) <==> now >= p
    ensures PruningIsHarmless(p, now) <==> now >= p
  {
    if now >= p {
      forall times ensures Recent(Recent(times, p), now) == Recent(times, now) { RecentTwice(times, p); }
    } else {
      var times := [p - WINDOW];
      RecentOne(p - WINDOW, p);
      RecentOne(p - WINDOW, now);
      assert Recent(times, p) == [] && Recent([], now) == [] && Recent(times, now) == times;
      assert Recent(Recent(times, p), now) != Recent(times, now);
      assert Decide(Recent(times, p), 0, 1, 1, now) != Decide(times, 0, 1, 1, now);
    }
  }

  /** A restart forgets the timestamps but not the count: whatever was allowed before, the
      next check is allowed exactly while the budget lasts. */
  lemma RestartForgetsWindow(r: Run, now: int, maxRequests: int, rate: int)
    ensures var restarted := Next(r, Restarted, maxRequests, rate);
            Decide(restarted.history, restarted.stored, maxRequests, rate, now).Allowed?
            <==> r.stored < maxRequests && rate > 0
  {}
}
