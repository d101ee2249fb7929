/** A call to a dependency: breaker, then retry, then exactly one outcome for the breaker. */
module UpstreamCalling {
  import opened Common
  import opened CircuitBreaking
  import opened Retrying

  /** A call that the breaker refused, or one that ran to its end. */
  datatype CallResult<E> = CircuitOpen | Finished(report: RetryReport<E>)

  /** What a call may do, given the breaker it found: a refused call changes nothing and runs nothing; an
      admitted call reports one outcome, however many attempts it made. */
  ghost predicate Called<E>(cfg: BreakerConfig, before: BreakerState, pol: RetryPolicy, world: World<E>,
                            now: int, done: int, result: CallResult<E>, after: BreakerState)
  {
    match result
    case CircuitOpen => !Allows(before, now) && after == before
    case Finished(report) =>
      && Allows(before, now)
      && Retried(pol, world, report)
      && after == if report.result == None then AfterSuccess(before) else AfterFailure(cfg, before, done)
  }

  /** The client of the simulated dependencies. */
  class Client {
    const cb: CircuitBreaker
    const pol: RetryPolicy

    constructor ()
      ensures fresh(cb) && cb.State() == NEW_STATE && cb.cfg == BreakerConfig(5, 5_000_000_000)
      ensures pol == RetryPolicy(2, 50_000_000, 200_000_000)
    {
      cb := new CircuitBreaker(5, 5_000_000_000);
      pol := RetryPolicy(2, 50_000_000, 200_000_000);
    }

    /** `now` and `done` are the clock before the call and at its end. */
    method Call<E>(world: World<E>, now: int, done: int) returns (result: CallResult<E>)
      modifies cb
      ensures Called(cb.cfg, old(cb.State()), pol, world, now, done, result, cb.State())
    {
      var allowed := cb.Allow(now);
      if !allowed {
        return CircuitOpen;
      }
      var report := DoWithRetry(pol, world);
      if report.result.Some? {
        cb.OnFailure(done);
      } else {
        cb.OnSuccess();
      }
      return Finished(report);
    }
  }

  /** A client whose calls need an API key; the guard comes before the breaker. */
  datatype GuardedResult<E> = MissingAPIKey | Performed(result: CallResult<E>)

  /** Unicode white space. */
  predicate IsSpace(c: char)
  {
    var code := c as int;
    || 0x09 <= code <= 0x0d || code == 0x20 || code == 0x85 || code == 0xa0 || code == 0x1680
    || 0x2000 <= code <= 0x200a || code == 0x2028 || code == 0x2029 || code == 0x202f || code == 0x205f
    || code == 0x3000
  }

  predicate Blank(s: string) { forall i :: 0 <= i < |s| ==> IsSpace(s[i]) }

  /** The string without its leading and trailing white space. */
  function TrimSpace(s: string): string
  {
    if s != "" && IsSpace(s[0]) then TrimSpace(s[1..])
    else if s != "" && IsSpace(s[|s| - 1]) then TrimSpace(s[..|s| - 1])
    else s
  }

  /** Only white space is cut off, all of it at both ends; so nothing is left exactly of a blank string. */
  lemma {:induction false} TrimSpaceCuts(s: string) returns (left: string, right: string)
    ensures s == left + TrimSpace(s) + right && Blank(left) && Blank(right)
    ensures var kept := TrimSpace(s); kept != "" ==> !IsSpace(kept[0]) && !IsSpace(kept[|kept| - 1])
  {
    hide IsSpace;
    left, right := "", "";
    if s != "" && IsSpace(s[0]) {
      left, right := TrimSpaceCuts(s[1..]);
      left := [s[0]] + left;
    } else if s != "" && IsSpace(s[|s| - 1]) {
      left, right := TrimSpaceCuts(s[..|s| - 1]);
      right := right + [s[|s| - 1]];
    }
  }

  lemma TrimmedToNothing(s: string)
    ensures TrimSpace(s) == "" <==> Blank(s)
  {
    var left, right := TrimSpaceCuts(s);
    var kept := TrimSpace(s);
    if kept != "" {
      assert s[|left|] == kept[0];
    }
  }

  lemma SpacesListed(c: char)
    ensures IsSpace(c) <==> c as int in [
      0x09, 0x0a, 0x0b, 0x0c, 0x0d, 0x20, 0x85, 0xa0, 0x1680, 0x2000, 0x2001, 0x2002, 0x2003, 0x2004, 0x2005,
      0x2006, 0x2007, 0x2008, 0x2009, 0x200a, 0x2028, 0x2029, 0x202f, 0x205f, 0x3000]
  {
  }

  /** An API key counts as missing exactly when it consists of white space only: the empty one does, and one with
      any other character does not. */
  lemma MissingKeyIff(apiKey: string)
    ensures TrimSpace(apiKey) == "" <==> forall i :: 0 <= i < |apiKey| ==> apiKey[i] as int in [
      0x09, 0x0a, 0x0b, 0x0c, 0x0d, 0x20, 0x85, 0xa0, 0x1680, 0x2000, 0x2001, 0x2002, 0x2003, 0x2004, 0x2005,
      0x2006, 0x2007, 0x2008, 0x2009, 0x200a, 0x2028, 0x2029, 0x202f, 0x205f, 0x3000]
  {
    hide IsSpace;
    TrimmedToNothing(apiKey);
    forall i | 0 <= i < |apiKey| {
      SpacesListed(apiKey[i]);
    }
  }

  class WeatherClient {
    const apiKey: string
    const cb: CircuitBreaker
    const pol: RetryPolicy

    constructor (apiKey: string)
      ensures this.apiKey == apiKey
      ensures fresh(cb) && cb.State() == NEW_STATE && cb.cfg == BreakerConfig(5, 10_000_000_000)
      ensures pol == RetryPolicy(2, 100_000_000, 500_000_000)
    {
      this.apiKey := apiKey;
      cb := new CircuitBreaker(5, 10_000_000_000);
      pol := RetryPolicy(2, 100_000_000, 500_000_000);
    }

    method Get<E>(world: World<E>, now: int, done: int) returns (result: GuardedResult<E>)
      modifies cb
      ensures result == MissingAPIKey <==> TrimSpace(apiKey) == ""
      ensures apiKey == "" ==> result == MissingAPIKey
      ensures (exists i :: 0 <= i < |apiKey| && '!' <= apiKey[i] <= '~') ==> result.Performed?
      ensures result == MissingAPIKey ==> cb.State() == old(cb.State())
      ensures result.Performed? ==>
        Called(cb.cfg, old(cb.State()), pol, world, now, done, result.result, cb.State())
    {
      TrimmedToNothing(apiKey);
      if TrimSpace(apiKey) == "" {
        return MissingAPIKey;
      }
      var allowed := cb.Allow(now);
      if !allowed {
        return Performed(CircuitOpen);
      }
      var report := DoWithRetry(pol, world);
      if report.result.Some? {
        cb.OnFailure(done);
        return Performed(Finished(report));
      }
      cb.OnSuccess();
      return Performed(Finished(report));
    }
  }

  // ---------------------------------------------------------------- load on a dead dependency

  /** One of a client's calls, one after the other, with the result it got. */
  datatype Trial<!E> = Trial(world: World<E>, now: int, done: int, result: CallResult<E>)

  /** The states the breaker goes through: state i is found by trial i. */
  ghost predicate IsRun<E>(cfg: BreakerConfig, pol: RetryPolicy, trials: seq<Trial<E>>, states: seq<BreakerState>)
  {
    && |states| == |trials| + 1
    && forall i :: 0 <= i < |trials| ==>
      Called(cfg, states[i], pol, trials[i].world, trials[i].now, trials[i].done, trials[i].result, states[i + 1])
  }

  /** Sequential calls begun in [lo, hi]: each ends before the next begins. */
  predicate Sequential<E>(trials: seq<Trial<E>>, lo: int, hi: int)
  {
    && (forall i :: 0 <= i < |trials| ==> lo <= trials[i].now <= hi && trials[i].now <= trials[i].done)
    && (forall i, j :: 0 <= i < j < |trials| ==> trials[i].done <= trials[j].now)
  }

  /** No admitted call succeeds. */
  predicate AllFail<E>(trials: seq<Trial<E>>)
  {
    forall i :: 0 <= i < |trials| && trials[i].result.Finished? ==> trials[i].result.report.result.Some?
  }

  function AdmittedCalls<E>(trials: seq<Trial<E>>): nat
  {
    if trials == [] then 0 else (if trials[0].result.Finished? then 1 else 0) + AdmittedCalls(trials[1..])
  }

  /** How often fn ran in all the calls. */
  function TotalAttempts<E>(trials: seq<Trial<E>>): nat
  {
    if trials == [] then 0
    else (if trials[0].result.Finished? then trials[0].result.report.attempts else 0) + TotalAttempts(trials[1..])
  }

  /** The outcomes the admitted calls of a run report, in order. */
  function Outcomes<E>(trials: seq<Trial<E>>): seq<Outcome>
  {
    if trials == [] then []
    else
      var before, last := Outcomes(trials[..|trials| - 1]), trials[|trials| - 1];
      match last.result
      case CircuitOpen => before
      case Finished(report) => before + [if report.result == None then Success else Failure(last.done)]
  }

  /** A new breaker is in the state its history of outcomes determines: one outcome for each admitted call,
      none for a refused one. */
  lemma {:induction false} RunStateIsHistory<E>(cfg: BreakerConfig, pol: RetryPolicy, trials: seq<Trial<E>>,
                                                states: seq<BreakerState>)
    requires IsRun(cfg, pol, trials, states) && states[0] == NEW_STATE
    ensures states[|trials|] == StateAfter(cfg, Outcomes(trials))
  {
    if trials != [] {
      var n := |trials| - 1;
      var before := trials[..n];
      RunStateIsHistory(cfg, pol, before, states[..n + 1]);
      assert Called(cfg, states[n], pol, trials[n].world, trials[n].now, trials[n].done, trials[n].result, states[n + 1]);
      var outcomes := Outcomes(trials);
      if trials[n].result.Finished? {
        assert outcomes[..|outcomes| - 1] == Outcomes(before);
      }
    }
  }

  /** Failures that may still happen before the threshold is in force; at least one. */
  function Slack(cfg: BreakerConfig, state: BreakerState): int
  {
    Max(1, cfg.failThreshold - state.consecutiveFail)
  }

  /** Openings that fit between the time from which calls are admitted and hi. */
  function Openings(cfg: BreakerConfig, openUntil: int, lo: int, hi: int): int
    requires cfg.openFor > 0
  {
    (hi - Max(lo, openUntil)) / cfg.openFor
  }

  lemma ProductStep(d: int, p: int, q: int)
    requires d > 0
    ensures p < q ==> d * p + d <= d * q
  {
    if p < q {
      NonNegativeProduct(d, q - p - 1);
      assert d * q == d * p + d + d * (q - p - 1);
    }
  }

  lemma NonNegativeProduct(x: nat, y: nat)
    ensures x * y >= 0
  {
  }

  lemma DivisionGrows(x: int, y: int, d: int)
    requires d > 0 && x <= y
    ensures x / d <= y / d
  {
    ProductStep(d, y / d, x / d);
  }

  lemma DivisionShift(x: int, d: int)
    requires d > 0
    ensures (x - d) / d == x / d - 1
  {
    ProductStep(d, (x - d) / d, x / d - 1);
    ProductStep(d, x / d - 1, (x - d) / d);
    assert d * (x / d - 1) == d * (x / d) - d;
  }

  lemma OpeningsStep(cfg: BreakerConfig, openUntil: int, lo: int, hi: int, done: int)
    requires cfg.openFor > 0 && openUntil <= done && lo <= done <= hi
    ensures Openings(cfg, openUntil, done, hi) <= Openings(cfg, openUntil, lo, hi)
    ensures Openings(cfg, done + cfg.openFor, done, hi) + 1 <= Openings(cfg, openUntil, lo, hi)
    ensures 0 <= Openings(cfg, openUntil, lo, hi)
  {
    DivisionGrows(hi - done, hi - Max(lo, openUntil), cfg.openFor);
    DivisionShift(hi - done, cfg.openFor);
    DivisionGrows(0, hi - Max(lo, openUntil), cfg.openFor);
    assert hi - (done + cfg.openFor) == hi - done - cfg.openFor;
  }

  /** Admissions while a dependency is down, from any state of the breaker. */
  lemma {:induction false} AdmittedWhileDown<E>(cfg: BreakerConfig, pol: RetryPolicy, trials: seq<Trial<E>>,
                                                states: seq<BreakerState>, lo: int, hi: int)
    requires cfg.openFor > 0
    requires IsRun(cfg, pol, trials, states) && Sequential(trials, lo, hi) && AllFail(trials)
    ensures var admitted := AdmittedCalls(trials);
      admitted == 0 || (states[0].openUntil <= hi && lo <= hi
                        && admitted <= Slack(cfg, states[0]) + Openings(cfg, states[0].openUntil, lo, hi))
  {
    if trials != [] {
      var first, rest := trials[0], trials[1..];
      if first.result == CircuitOpen {
        AdmittedWhileDown(cfg, pol, rest, states[1..], lo, hi);
      } else {
        AdmittedWhileDown(cfg, pol, rest, states[1..], first.done, hi);
        FirstAdmission(cfg, states[0], states[1], first, lo, hi, AdmittedCalls(rest));
      }
    }
  }

  lemma FirstAdmission<E>(cfg: BreakerConfig, before: BreakerState, after: BreakerState, first: Trial<E>,
                          lo: int, hi: int, admitted: nat)
    requires cfg.openFor > 0 && Allows(before, first.now) && lo <= first.now <= hi && first.now <= first.done
    requires after == AfterFailure(cfg, before, first.done)
    requires admitted == 0 || (after.openUntil <= hi && first.done <= hi
      && admitted <= Slack(cfg, after) + Openings(cfg, after.openUntil, first.done, hi))
    ensures admitted + 1 <= Slack(cfg, before) + Openings(cfg, before.openUntil, lo, hi)
  {
    OpeningsStep(cfg, before.openUntil, lo, hi, first.now);
    if admitted > 0 {
      OpeningsStep(cfg, before.openUntil, lo, hi, first.done);
    }
  }

  function AttemptLimit(pol: RetryPolicy, calls: int): int { (pol.maxRetries + 1) * calls }

  lemma AttemptLimitGrows(pol: RetryPolicy, x: int, y: int)
    requires pol.maxRetries >= 0 && x <= y
    ensures AttemptLimit(pol, x) <= AttemptLimit(pol, y)
  {
  }

  lemma AttemptLimitStep(pol: RetryPolicy, n: int)
    ensures AttemptLimit(pol, 0) == 0
    ensures AttemptLimit(pol, 1 + n) == AttemptLimit(pol, n) + pol.maxRetries + 1
  {
  }

  lemma {:induction false} AttemptsPerCall<E>(cfg: BreakerConfig, pol: RetryPolicy, trials: seq<Trial<E>>,
                                              states: seq<BreakerState>)
    requires IsRun(cfg, pol, trials, states) && pol.maxRetries >= 0
    ensures AdmittedCalls(trials) <= TotalAttempts(trials) <= AttemptLimit(pol, AdmittedCalls(trials))
  {
    AttemptLimitStep(pol, 0);
    if trials != [] {
      AttemptsPerCall(cfg, pol, trials[1..], states[1..]);
      AttemptLimitStep(pol, AdmittedCalls(trials[1..]));
      assert Called(cfg, states[0], pol, trials[0].world, trials[0].now, trials[0].done, trials[0].result, states[1]);
    }
  }

  /** Load on a dead dependency is bounded: calls begun within a window, all of which fail, are admitted at
      most failThreshold + window / openFor times, and fn runs at most MaxRetries + 1 times for each. */
  lemma DeadDependencyLoad<E>(cfg: BreakerConfig, pol: RetryPolicy, trials: seq<Trial<E>>,
                              states: seq<BreakerState>, lo: int, hi: int)
    requires cfg.openFor > 0 && cfg.failThreshold >= 1 && pol.maxRetries >= 0 && lo <= hi
    requires IsRun(cfg, pol, trials, states) && Sequential(trials, lo, hi) && AllFail(trials)
    requires states[0].consecutiveFail >= 0
    ensures AdmittedCalls(trials) <= cfg.failThreshold + (hi - lo) / cfg.openFor
    ensures TotalAttempts(trials) <= AttemptLimit(pol, cfg.failThreshold + (hi - lo) / cfg.openFor)
  {
    AdmittedWhileDown(cfg, pol, trials, states, lo, hi);
    DivisionGrows(hi - Max(lo, states[0].openUntil), hi - lo, cfg.openFor);
    DivisionGrows(0, hi - lo, cfg.openFor);
    AttemptsPerCall(cfg, pol, trials, states);
    AttemptLimitGrows(pol, AdmittedCalls(trials), cfg.failThreshold + (hi - lo) / cfg.openFor);
  }
}
