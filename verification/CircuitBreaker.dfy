/** The circuit breaker: a failure counter and the end of its open period, as functions of its history. */
module CircuitBreaking {
  import opened Common

  /** Go's zero time.Time, the initial end of the open period. */
  const ZERO_TIME := 0

  datatype BreakerConfig = BreakerConfig(failThreshold: int, openFor: int)

  datatype BreakerState = BreakerState(consecutiveFail: int, openUntil: int)

  const NEW_STATE := BreakerState(0, ZERO_TIME)

  predicate Allows(state: BreakerState, now: int) { now > state.openUntil }

  function AfterSuccess(state: BreakerState): BreakerState { state.(consecutiveFail := 0) }

  function AfterFailure(cfg: BreakerConfig, state: BreakerState, now: int): BreakerState
  {
    var count := state.consecutiveFail + 1;
    BreakerState(count, if count >= cfg.failThreshold then now + cfg.openFor else state.openUntil)
  }

  class CircuitBreaker {
    var consecutiveFail: int
    var openUntil: int
    const cfg: BreakerConfig

    function State(): BreakerState
      reads this
    {
      BreakerState(consecutiveFail, openUntil)
    }

    constructor (failThreshold: int, openFor: int)
      ensures State() == NEW_STATE && cfg == BreakerConfig(failThreshold, openFor)
    {
      consecutiveFail, openUntil := 0, ZERO_TIME;
      cfg := BreakerConfig(failThreshold, openFor);
    }

    method Allow(now: int) returns (ok: bool)
      ensures ok == Allows(State(), now)
    {
      return now > openUntil;
    }

    method OnSuccess()
      modifies this
      ensures State() == AfterSuccess(old(State()))
    {
      consecutiveFail := 0;
    }

    method OnFailure(now: int)
      modifies this
      ensures State() == AfterFailure(cfg, old(State()), now)
    {
      consecutiveFail := consecutiveFail + 1;
      if consecutiveFail >= cfg.failThreshold {
        openUntil := now + cfg.openFor;
      }
    }
  }

  // ---------------------------------------------------------------- the state as a function of the history

  /** An outcome reported to the breaker. */
  datatype Outcome = Success | Failure(at: int)

  function Report(cfg: BreakerConfig, state: BreakerState, outcome: Outcome): BreakerState
  {
    match outcome
    case Success => AfterSuccess(state)
    case Failure(at) => AfterFailure(cfg, state, at)
  }

  function StateAfter(cfg: BreakerConfig, history: seq<Outcome>): BreakerState
  {
    if history == [] then NEW_STATE
    else Report(cfg, StateAfter(cfg, history[..|history| - 1]), history[|history| - 1])
  }

  /** The last n outcomes are failures, and no more than those. */
  predicate EndsInFailures(history: seq<Outcome>, n: int)
  {
    && 0 <= n <= |history|
    && (forall i :: |history| - n <= i < |history| ==> history[i].Failure?)
    && (n < |history| ==> history[|history| - n - 1].Success?)
  }

  /** Outcome k is a failure that ends a run of at least failThreshold failures. */
  predicate Trips(cfg: BreakerConfig, history: seq<Outcome>, k: int)
  {
    && 0 <= k < |history|
    && history[k].Failure?
    && cfg.failThreshold <= k + 1
    && forall i :: Max(0, k + 1 - cfg.failThreshold) <= i <= k ==> history[i].Failure?
  }

  /** The counter is the number of failures since the last success. */
  lemma {:induction false} CounterIsTrailingFailures(cfg: BreakerConfig, history: seq<Outcome>)
    ensures EndsInFailures(history, StateAfter(cfg, history).consecutiveFail)
  {
    if history != [] {
      CounterIsTrailingFailures(cfg, history[..|history| - 1]);
    }
  }

  lemma TripsIffCounterReaches(cfg: BreakerConfig, history: seq<Outcome>)
    requires history != [] && history[|history| - 1].Failure?
    ensures Trips(cfg, history, |history| - 1) <==> StateAfter(cfg, history).consecutiveFail >= cfg.failThreshold
  {
    CounterIsTrailingFailures(cfg, history);
  }

  lemma TripsOfPrefix(cfg: BreakerConfig, history: seq<Outcome>, n: int, k: int)
    requires 0 <= n <= |history| && k < n
    ensures Trips(cfg, history[..n], k) <==> Trips(cfg, history, k)
  {
  }

  /** The open period was set by failure k, the last that ended such a run. */
  predicate IsLastTrip(cfg: BreakerConfig, history: seq<Outcome>, k: int)
  {
    && Trips(cfg, history, k)
    && (forall j :: k < j < |history| ==> !Trips(cfg, history, j))
    && StateAfter(cfg, history).openUntil == history[k].at + cfg.openFor
  }

  predicate NeverTripped(cfg: BreakerConfig, history: seq<Outcome>)
  {
    (forall j :: 0 <= j < |history| ==> !Trips(cfg, history, j)) && StateAfter(cfg, history).openUntil == ZERO_TIME
  }

  lemma OpenUntilStep(cfg: BreakerConfig, history: seq<Outcome>)
    requires history != [] && !Trips(cfg, history, |history| - 1)
    ensures StateAfter(cfg, history).openUntil == StateAfter(cfg, history[..|history| - 1]).openUntil
  {
    if history[|history| - 1].Failure? {
      TripsIffCounterReaches(cfg, history);
    }
  }

  lemma {:induction false} OpenUntilIsLastTrip(cfg: BreakerConfig, history: seq<Outcome>)
    ensures NeverTripped(cfg, history) || exists k :: IsLastTrip(cfg, history, k)
  {
    if history != [] {
      var n := |history| - 1;
      var before := history[..n];
      OpenUntilIsLastTrip(cfg, before);
      forall k | k < n
        ensures Trips(cfg, before, k) <==> Trips(cfg, history, k)
      {
        TripsOfPrefix(cfg, history, n, k);
      }
      if Trips(cfg, history, n) {
        TripsIffCounterReaches(cfg, history);
        assert IsLastTrip(cfg, history, n);
      } else {
        OpenUntilStep(cfg, history);
        if k :| IsLastTrip(cfg, before, k) {
          assert IsLastTrip(cfg, history, k);
        }
      }
    }
  }

  predicate FailuresInOrder(history: seq<Outcome>)
  {
    forall i, j :: 0 <= i <= j < |history| && history[i].Failure? && history[j].Failure? ==>
      history[i].at <= history[j].at
  }

  predicate OpenedBy(cfg: BreakerConfig, history: seq<Outcome>, k: int, now: int)
  {
    Trips(cfg, history, k) && now <= history[k].at + cfg.openFor
  }

  /** A call is refused exactly when some failure that ended a long enough run is at most openFor old. */
  lemma RefusedIffRecentTrip(cfg: BreakerConfig, history: seq<Outcome>, now: int)
    requires FailuresInOrder(history) && now > ZERO_TIME
    ensures !Allows(StateAfter(cfg, history), now) <==> exists k :: OpenedBy(cfg, history, k, now)
  {
    OpenUntilIsLastTrip(cfg, history);
    if k :| IsLastTrip(cfg, history, k) {
      assert !Allows(StateAfter(cfg, history), now) ==> OpenedBy(cfg, history, k, now);
      forall j | OpenedBy(cfg, history, j, now)
        ensures !Allows(StateAfter(cfg, history), now)
      {
        assert history[j].at <= history[k].at;
      }
    }
  }

  /** Nothing that happens later, success or failure, shortens an open period. */
  lemma OpenPeriodNeverShortened(cfg: BreakerConfig, history: seq<Outcome>, later: seq<Outcome>, now: int)
    requires FailuresInOrder(history + later) && now > ZERO_TIME
    requires !Allows(StateAfter(cfg, history), now)
    ensures !Allows(StateAfter(cfg, history + later), now)
  {
    var whole := history + later;
    assert whole[..|history|] == history;
    assert FailuresInOrder(history) by {
      assert forall i :: 0 <= i < |history| ==> whole[i] == history[i];
    }
    RefusedIffRecentTrip(cfg, history, now);
    var k :| OpenedBy(cfg, history, k, now);
    TripsOfPrefix(cfg, whole, |history|, k);
    assert OpenedBy(cfg, whole, k, now);
    RefusedIffRecentTrip(cfg, whole, now);
  }
}
