/** The bounded fan-out of the conditions handler: n tasks, c permits, a one-slot channel as a lock. */
module FanOut {
  import opened Common

  /** What a task delivers, and the errors it may end with. */
  type Data(==, 0)
  type Error(==, 0)

  /** Where a task's goroutine is. `Releasing` still holds the permit, which the deferred call gives back;
      `Reporting` has returned to the errgroup. */
  datatype Phase =
    | Acquiring
    | Calling
    | Locking(data: Data)
    | Writing(data: Data)
    | Unlocking
    | Releasing(err: Option<Error>)
    | Reporting(err: Option<Error>)
    | Done

  /** What has become of a task so far: its fn returned data or failed, or it never got a permit. */
  datatype Fate = Unknown | Returned(data: Data) | Failed(err: Error) | GaveUp(err: Error)

  datatype State = State(
    phases: seq<Phase>, permits: int, locked: bool, data: map<string, Data>,
    cancelled: bool, err: Option<Error>, fates: seq<Fate>)

  /** The n tasks of a request, by name, and the size of the semaphore. */
  datatype Config = Config(names: seq<string>, permits: nat)
  {
    predicate Valid() { forall i, j :: 0 <= i < j < |names| ==> names[i] != names[j] }
  }

  function Initial(cfg: Config): State
  {
    var n := |cfg.names|;
    State(seq(n, i => Acquiring), cfg.permits, false, map[], false, None, seq(n, i => Unknown))
  }

  /** `Expire` is the deadline or the cancellation of the request; a failed task cancels the group as well.
      A cancelled context lets a waiting task give up with the context's error. */
  datatype Action =
    | Expire
    | Acquire(i: nat) | GiveUp(i: nat, err: Error)
    | Return(i: nat, data: Data) | Fail(i: nat, err: Error)
    | Lock(i: nat) | Write(i: nat) | Unlock(i: nat)
    | Release(i: nat) | Report(i: nat)

  predicate Enabled(cfg: Config, s: State, a: Action)
  {
    match a
    case Expire => !s.cancelled
    case Acquire(i) => i < |s.phases| && s.phases[i].Acquiring? && s.permits > 0
    case GiveUp(i, _) => i < |s.phases| && s.phases[i].Acquiring? && s.cancelled
    case Return(i, _) => i < |s.phases| && s.phases[i].Calling?
    case Fail(i, _) => i < |s.phases| && s.phases[i].Calling?
    case Lock(i) => i < |s.phases| && s.phases[i].Locking? && !s.locked
    case Write(i) => i < |s.phases| && s.phases[i].Writing?
    case Unlock(i) => i < |s.phases| && s.phases[i].Unlocking?
    case Release(i) => i < |s.phases| && s.phases[i].Releasing?
    case Report(i) => i < |s.phases| && s.phases[i].Reporting?
  }

  predicate Sized(cfg: Config, s: State) { |s.phases| == |s.fates| == |cfg.names| }

  function Apply(cfg: Config, s: State, a: Action): State
    requires Sized(cfg, s) && Enabled(cfg, s, a)
  {
    match a
    case Expire => s.(cancelled := true)
    case Acquire(i) => s.(phases := s.phases[i := Calling], permits := s.permits - 1)
    case GiveUp(i, err) => s.(phases := s.phases[i := Reporting(Some(err))], fates := s.fates[i := GaveUp(err)])
    case Return(i, data) => s.(phases := s.phases[i := Locking(data)], fates := s.fates[i := Returned(data)])
    case Fail(i, err) => s.(phases := s.phases[i := Releasing(Some(err))], fates := s.fates[i := Failed(err)])
    case Lock(i) => s.(phases := s.phases[i := Writing(s.phases[i].data)], locked := true)
    case Write(i) => s.(phases := s.phases[i := Unlocking], data := s.data[cfg.names[i] := s.phases[i].data])
    case Unlock(i) => s.(phases := s.phases[i := Releasing(None)], locked := false)
    case Release(i) => s.(phases := s.phases[i := Reporting(s.phases[i].err)], permits := s.permits + 1)
    case Report(i) =>
      var t := s.(phases := s.phases[i := Done]);
      // only the first error is kept, and it cancels the group's context
      if s.phases[i].err.Some? && s.err == None then t.(err := s.phases[i].err, cancelled := true) else t
  }

  predicate CanRun(cfg: Config, actions: seq<Action>)
    decreases |actions|, 0
  {
    actions == [] || (CanRun(cfg, actions[..|actions| - 1])
      && Enabled(cfg, StateAfter(cfg, actions[..|actions| - 1]), actions[|actions| - 1]))
  }

  function StateAfter(cfg: Config, actions: seq<Action>): (s: State)
    requires CanRun(cfg, actions)
    ensures Sized(cfg, s)
    decreases |actions|, 1
  {
    if actions == [] then Initial(cfg)
    else Apply(cfg, StateAfter(cfg, actions[..|actions| - 1]), actions[|actions| - 1])
  }

  // ---------------------------------------------------------------- what every step keeps

  const HOLDS_PERMIT: Phase -> nat := (p: Phase) =>
    if p.Calling? || p.Locking? || p.Writing? || p.Unlocking? || p.Releasing? then 1 else 0

  const IN_FN: Phase -> nat := (p: Phase) => if p.Calling? then 1 else 0

  const HOLDS_LOCK: Phase -> nat := (p: Phase) => if p.Writing? || p.Unlocking? then 1 else 0

  const STEPS_LEFT: Phase -> nat := (p: Phase) =>
    match p
    case Acquiring => 7
    case Calling => 6
    case Locking(_) => 5
    case Writing(_) => 4
    case Unlocking => 3
    case Releasing(_) => 2
    case Reporting(_) => 1
    case Done => 0

  /** Permits and the lock are neither lost nor made up. */
  predicate Balanced(cfg: Config, s: State)
  {
    && Sized(cfg, s)
    && s.permits >= 0
    && s.permits + Sum(s.phases, HOLDS_PERMIT) == cfg.permits
    && Sum(s.phases, HOLDS_LOCK) == (if s.locked then 1 else 0)
  }

  /** How a task's fate fits the place it has reached. */
  predicate Fits(phase: Phase, fate: Fate)
  {
    match phase
    case Acquiring => fate == Unknown
    case Calling => fate == Unknown
    case Locking(data) => fate == Returned(data)
    case Writing(data) => fate == Returned(data)
    case Unlocking => fate.Returned?
    case Releasing(err) => if err == None then fate.Returned? else fate == Failed(err.value)
    case Reporting(err) =>
      if err == None then fate.Returned? else fate == Failed(err.value) || fate == GaveUp(err.value)
    case Done => fate != Unknown
  }

  predicate Wrote(phase: Phase)
  {
    phase.Unlocking? || phase.Done? || ((phase.Releasing? || phase.Reporting?) && phase.err == None)
  }

  predicate Traced(cfg: Config, s: State)
  {
    Sized(cfg, s) && forall i :: 0 <= i < |s.phases| ==> Fits(s.phases[i], s.fates[i])
  }

  predicate HasWritten(s: State, i: int)
  {
    0 <= i < |s.phases| == |s.fates| && s.fates[i].Returned? && Wrote(s.phases[i])
  }

  /** `data` holds what the tasks that got past their write returned, and nothing else. */
  ghost predicate Recorded(cfg: Config, s: State)
  {
    && Sized(cfg, s)
    && (forall i :: HasWritten(s, i) ==> cfg.names[i] in s.data && s.data[cfg.names[i]] == s.fates[i].data)
    && (forall name :: name in s.data ==> exists i :: HasWritten(s, i) && cfg.names[i] == name)
  }

  predicate IsErrorOf(fate: Fate, err: Error) { fate == Failed(err) || fate == GaveUp(err) }

  /** The group's error is the error of some task, set as soon as one that did not succeed has reported. */
  predicate Reported(cfg: Config, s: State)
  {
    && Sized(cfg, s)
    && (forall i :: 0 <= i < |s.phases| && s.phases[i].Done? && !s.fates[i].Returned? ==> s.err.Some?)
    && (s.err.Some? ==> s.cancelled)
    && (s.err.Some? ==> exists i :: 0 <= i < |s.phases| && s.phases[i].Done? && IsErrorOf(s.fates[i], s.err.value))
  }

  ghost predicate Inv(cfg: Config, s: State)
  {
    Balanced(cfg, s) && Traced(cfg, s) && Recorded(cfg, s) && Reported(cfg, s)
  }

  lemma BalancedStep(cfg: Config, s: State, a: Action)
    requires Balanced(cfg, s) && Enabled(cfg, s, a)
    ensures Balanced(cfg, Apply(cfg, s, a))
  {
    if a != Expire {
      var t := Apply(cfg, s, a);
      ReplaceSum(s.phases, HOLDS_PERMIT, a.i, t.phases[a.i]);
      ReplaceSum(s.phases, HOLDS_LOCK, a.i, t.phases[a.i]);
    }
  }

  lemma TracedStep(cfg: Config, s: State, a: Action)
    requires Traced(cfg, s) && Enabled(cfg, s, a)
    ensures Traced(cfg, Apply(cfg, s, a))
  {
    hide Fits;
    if a != Expire {
      MoverFits(cfg, s, a);
    }
  }

  lemma MoverFits(cfg: Config, s: State, a: Action)
    requires Sized(cfg, s) && Enabled(cfg, s, a) && a != Expire && Fits(s.phases[a.i], s.fates[a.i])
    ensures Fits(Apply(cfg, s, a).phases[a.i], Apply(cfg, s, a).fates[a.i])
  {
  }

  /** Only Write makes a task one that has written. */
  lemma WrittenStep(cfg: Config, s: State, a: Action, i: nat)
    requires Traced(cfg, s) && Enabled(cfg, s, a)
    ensures var t := Apply(cfg, s, a);
      HasWritten(t, i) <==> HasWritten(s, i) || (a == Write(i))
    ensures var t := Apply(cfg, s, a);
      i < |s.fates| && (HasWritten(s, i) || a.Write?) ==> t.fates[i] == s.fates[i]
  {
  }

  lemma RecordedStep(cfg: Config, s: State, a: Action)
    requires cfg.Valid() && Traced(cfg, s) && Recorded(cfg, s) && Enabled(cfg, s, a)
    ensures Recorded(cfg, Apply(cfg, s, a))
  {
    var t := Apply(cfg, s, a);
    forall i | HasWritten(t, i)
      ensures cfg.names[i] in t.data && t.data[cfg.names[i]] == t.fates[i].data
    {
      WrittenStep(cfg, s, a, i);
    }
    forall name | name in t.data
      ensures exists i :: HasWritten(t, i) && cfg.names[i] == name
    {
      if name in s.data {
        var i :| HasWritten(s, i) && cfg.names[i] == name;
        WrittenStep(cfg, s, a, i);
      } else {
        WrittenStep(cfg, s, a, a.i);
      }
    }
  }

  lemma ReportedStep(cfg: Config, s: State, a: Action)
    requires Traced(cfg, s) && Reported(cfg, s) && Enabled(cfg, s, a)
    ensures Reported(cfg, Apply(cfg, s, a))
  {
    var t := Apply(cfg, s, a);
    if s.err.Some? {
      var i :| 0 <= i < |s.phases| && s.phases[i].Done? && IsErrorOf(s.fates[i], s.err.value);
      assert t.phases[i].Done? && IsErrorOf(t.fates[i], t.err.value);
    } else if t.err.Some? {
      assert t.phases[a.i].Done? && IsErrorOf(t.fates[a.i], t.err.value);
    }
  }

  lemma {:induction false} InitialSums(n: nat)
    ensures Sum(seq(n, i => Acquiring), HOLDS_PERMIT) == 0
    ensures Sum(seq(n, i => Acquiring), HOLDS_LOCK) == 0
    ensures Sum(seq(n, i => Acquiring), STEPS_LEFT) == 7 * n
  {
    if n > 0 {
      InitialSums(n - 1);
      assert seq(n, i => Acquiring)[..n - 1] == seq(n - 1, i => Acquiring);
    }
  }

  lemma {:induction false} RunKeepsInv(cfg: Config, actions: seq<Action>)
    requires cfg.Valid() && CanRun(cfg, actions)
    ensures Inv(cfg, StateAfter(cfg, actions))
  {
    if actions == [] {
      InitialSums(|cfg.names|);
    } else {
      var before, a := actions[..|actions| - 1], actions[|actions| - 1];
      RunKeepsInv(cfg, before);
      var s := StateAfter(cfg, before);
      BalancedStep(cfg, s, a);
      TracedStep(cfg, s, a);
      RecordedStep(cfg, s, a);
      ReportedStep(cfg, s, a);
    }
  }

  // ---------------------------------------------------------------- the promises of the fan-out

  /** At every moment at most `permits` tasks are inside their fn, and at most one writes the shared map. */
  lemma FanOutSafety(cfg: Config, actions: seq<Action>)
    requires cfg.Valid() && CanRun(cfg, actions)
    ensures var s := StateAfter(cfg, actions);
      && Sum(s.phases, IN_FN) <= cfg.permits
      && (forall i, j :: 0 <= i < j < |s.phases| ==> !(s.phases[i].Writing? && s.phases[j].Writing?))
  {
    RunKeepsInv(cfg, actions);
    var s := StateAfter(cfg, actions);
    CallersHoldPermits(s.phases);
    forall i, j | 0 <= i < j < |s.phases|
      ensures !(s.phases[i].Writing? && s.phases[j].Writing?)
    {
      SumAtLeast(s.phases, HOLDS_LOCK, i);
    }
  }

  lemma {:induction false} CallersHoldPermits(phases: seq<Phase>)
    ensures Sum(phases, IN_FN) <= Sum(phases, HOLDS_PERMIT)
  {
    if phases != [] {
      CallersHoldPermits(phases[..|phases| - 1]);
    }
  }

  predicate AllDone(s: State) { forall i :: 0 <= i < |s.phases| ==> s.phases[i].Done? }

  /** A task that holds the lock can move. */
  lemma LockHolderMoves(cfg: Config, s: State) returns (a: Action)
    requires Balanced(cfg, s) && s.locked
    ensures a != Expire && Enabled(cfg, s, a)
  {
    var i := PositiveSum(s.phases, HOLDS_LOCK);
    a := if s.phases[i].Writing? then Write(i) else Unlock(i);
  }

  /** A task that holds a permit can move, or waits for one that can. */
  lemma PermitHolderMoves(cfg: Config, s: State, i: nat) returns (a: Action)
    requires Balanced(cfg, s) && i < |s.phases| && HOLDS_PERMIT(s.phases[i]) > 0
    ensures a != Expire && Enabled(cfg, s, a)
  {
    match s.phases[i]
    case Calling => var err: Error := *; a := Fail(i, err);
    case Locking(_) =>
      if s.locked {
        a := LockHolderMoves(cfg, s);
      } else {
        a := Lock(i);
      }
    case Writing(_) => a := Write(i);
    case Unlocking => a := Unlock(i);
    case Releasing(_) => a := Release(i);
  }

  lemma SomeTaskMoves(cfg: Config, s: State) returns (a: Action)
    requires Balanced(cfg, s) && !AllDone(s) && (cfg.permits > 0 || s.cancelled)
    ensures a != Expire && Enabled(cfg, s, a)
  {
    var i :| 0 <= i < |s.phases| && !s.phases[i].Done?;
    if s.phases[i].Reporting? {
      a := Report(i);
    } else if !s.phases[i].Acquiring? {
      a := PermitHolderMoves(cfg, s, i);
    } else if s.permits > 0 {
      a := Acquire(i);
    } else if s.cancelled {
      var err: Error := *;
      a := GiveUp(i, err);
    } else {
      var j := PositiveSum(s.phases, HOLDS_PERMIT);
      a := PermitHolderMoves(cfg, s, j);
    }
  }

  /** No deadlock: with a permit to hand out, or once the context is cancelled, some task can move until all
      are done; with no permit at all the request's deadline is still to come. */
  lemma NoDeadlock(cfg: Config, actions: seq<Action>)
    requires cfg.Valid() && CanRun(cfg, actions)
    ensures var s := StateAfter(cfg, actions);
      cfg.permits > 0 || s.cancelled ==> (AllDone(s) <==> forall a :: a != Expire ==> !Enabled(cfg, s, a))
    ensures var s := StateAfter(cfg, actions);
      !AllDone(s) ==> exists a :: Enabled(cfg, s, a)
  {
    RunKeepsInv(cfg, actions);
    var s := StateAfter(cfg, actions);
    if !AllDone(s) {
      if cfg.permits > 0 || s.cancelled {
        var a := SomeTaskMoves(cfg, s);
      } else {
        assert Enabled(cfg, s, Expire);
      }
    }
  }

  function StepsLeft(s: State): nat { Sum(s.phases, STEPS_LEFT) + if s.cancelled then 0 else 1 }

  lemma StepProgress(cfg: Config, s: State, a: Action)
    requires Sized(cfg, s) && Enabled(cfg, s, a)
    ensures StepsLeft(Apply(cfg, s, a)) < StepsLeft(s)
  {
    if a != Expire {
      ReplaceSum(s.phases, STEPS_LEFT, a.i, Apply(cfg, s, a).phases[a.i]);
    }
  }

  /** Wait returns: no run is longer than seven steps a task and one for the deadline. */
  lemma {:induction false} RunIsBounded(cfg: Config, actions: seq<Action>)
    requires CanRun(cfg, actions)
    ensures |actions| + StepsLeft(StateAfter(cfg, actions)) <= 7 * |cfg.names| + 1
  {
    if actions == [] {
      InitialSums(|cfg.names|);
    } else {
      var before, a := actions[..|actions| - 1], actions[|actions| - 1];
      RunIsBounded(cfg, before);
      StepProgress(cfg, StateAfter(cfg, before), a);
    }
  }

  /** When Wait returns every permit and the lock are free, `data` holds exactly what the successful tasks
      returned, and the error is nil if and only if all of them succeeded; otherwise it is one of theirs. */
  lemma FanOutResult(cfg: Config, actions: seq<Action>)
    requires cfg.Valid() && CanRun(cfg, actions) && AllDone(StateAfter(cfg, actions))
    ensures var s := StateAfter(cfg, actions);
      && s.permits == cfg.permits && !s.locked
      && (forall i :: 0 <= i < |cfg.names| ==> (cfg.names[i] in s.data <==> s.fates[i].Returned?))
      && (forall i :: 0 <= i < |cfg.names| && s.fates[i].Returned? ==> s.data[cfg.names[i]] == s.fates[i].data)
      && (forall name :: name in s.data ==> name in cfg.names)
      && (s.err == None <==> forall i :: 0 <= i < |cfg.names| ==> s.fates[i].Returned?)
      && (s.err.Some? ==> exists i :: 0 <= i < |cfg.names| && IsErrorOf(s.fates[i], s.err.value))
  {
    RunKeepsInv(cfg, actions);
    var s := StateAfter(cfg, actions);
    AllDoneHoldsNothing(s.phases);
    forall i | 0 <= i < |cfg.names|
      ensures cfg.names[i] in s.data <==> s.fates[i].Returned?
    {
      assert s.fates[i].Returned? ==> HasWritten(s, i);
      if cfg.names[i] in s.data {
        var j :| HasWritten(s, j) && cfg.names[j] == cfg.names[i];
        assert j == i;
      }
    }
    forall i | 0 <= i < |cfg.names| && s.fates[i].Returned?
      ensures s.data[cfg.names[i]] == s.fates[i].data
    {
      assert HasWritten(s, i);
    }
  }

  lemma {:induction false} AllDoneHoldsNothing(phases: seq<Phase>)
    requires forall i :: 0 <= i < |phases| ==> phases[i].Done?
    ensures Sum(phases, HOLDS_PERMIT) == 0 && Sum(phases, HOLDS_LOCK) == 0
  {
    if phases != [] {
      AllDoneHoldsNothing(phases[..|phases| - 1]);
    }
  }

  /** A task's fate is what its fn did in the run, once and for all. */
  lemma {:induction false} FatesAreTold(cfg: Config, actions: seq<Action>, i: nat, data: Data, err: Error)
    requires cfg.Valid() && CanRun(cfg, actions) && i < |cfg.names|
    ensures var fate := StateAfter(cfg, actions).fates[i];
      && (fate == Returned(data) <==> Return(i, data) in actions)
      && (fate == Failed(err) <==> Fail(i, err) in actions)
      && (fate == GaveUp(err) <==> GiveUp(i, err) in actions)
  {
    if actions != [] {
      hide Apply, Enabled, Fits;
      var before, a := actions[..|actions| - 1], actions[|actions| - 1];
      FatesAreTold(cfg, before, i, data, err);
      FateOf(cfg, before, i);
      FateStep(cfg, StateAfter(cfg, before), a, i, data, err);
      assert actions == before + [a];
    }
  }

  lemma FateStep(cfg: Config, s: State, a: Action, i: nat, data: Data, err: Error)
    requires Sized(cfg, s) && Enabled(cfg, s, a) && i < |cfg.names| && Fits(s.phases[i], s.fates[i])
    ensures var fate, fate' := s.fates[i], Apply(cfg, s, a).fates[i];
      && (fate' == Returned(data) <==> fate == Returned(data) || a == Return(i, data))
      && (fate' == Failed(err) <==> fate == Failed(err) || a == Fail(i, err))
      && (fate' == GaveUp(err) <==> fate == GaveUp(err) || a == GiveUp(i, err))
  {
  }

  lemma FateOf(cfg: Config, actions: seq<Action>, i: nat)
    requires cfg.Valid() && CanRun(cfg, actions) && i < |cfg.names|
    ensures var s := StateAfter(cfg, actions); Fits(s.phases[i], s.fates[i])
  {
    RunKeepsInv(cfg, actions);
  }

  /** The error of the first task in the run that reported one. */
  function FirstReported(cfg: Config, actions: seq<Action>): Option<Error>
    requires CanRun(cfg, actions)
  {
    if actions == [] then None
    else
      var before, a := actions[..|actions| - 1], actions[|actions| - 1];
      if FirstReported(cfg, before).Some? then FirstReported(cfg, before)
      else if a.Report? then StateAfter(cfg, before).phases[a.i].err
      else None
  }

  /** The group keeps the error of the task that reported one first. */
  lemma {:induction false} FirstErrorWins(cfg: Config, actions: seq<Action>)
    requires CanRun(cfg, actions)
    ensures StateAfter(cfg, actions).err == FirstReported(cfg, actions)
  {
    if actions != [] {
      hide Apply, Enabled;
      var before, a := actions[..|actions| - 1], actions[|actions| - 1];
      FirstErrorWins(cfg, before);
      ErrorStep(cfg, StateAfter(cfg, before), a);
    }
  }

  lemma ErrorStep(cfg: Config, s: State, a: Action)
    requires Sized(cfg, s) && Enabled(cfg, s, a)
    ensures Apply(cfg, s, a).err == if s.err == None && a.Report? then s.phases[a.i].err else s.err
    ensures a.Report? ==> a.i < |s.phases|
  {
  }

  /** A task gives up waiting for a permit only after the request's context is cancelled, which happens exactly
      when its deadline passes or the first error is reported. */
  lemma {:induction false} CancelledIff(cfg: Config, actions: seq<Action>)
    requires CanRun(cfg, actions)
    ensures var s := StateAfter(cfg, actions);
      && (s.cancelled <==> Expire in actions || FirstReported(cfg, actions).Some?)
      && (forall i :: 0 <= i < |s.fates| && s.fates[i].GaveUp? ==> s.cancelled)
  {
    FirstErrorWins(cfg, actions);
    if actions != [] {
      hide Apply, Enabled, FirstReported;
      var before, a := actions[..|actions| - 1], actions[|actions| - 1];
      assert actions == before + [a];
      CancelledIff(cfg, before);
      FirstErrorWins(cfg, before);
      CancelStep(cfg, StateAfter(cfg, before), a);
    }
  }

  lemma CancelStep(cfg: Config, s: State, a: Action)
    requires Sized(cfg, s) && Enabled(cfg, s, a) && (s.err.Some? ==> s.cancelled)
    ensures var t := Apply(cfg, s, a);
      && (t.cancelled <==> s.cancelled || a == Expire || t.err.Some?)
      && (s.err.Some? ==> t.err.Some?)
      && forall i :: 0 <= i < |t.fates| && t.fates[i].GaveUp? ==> s.cancelled || s.fates[i].GaveUp?
  {
  }

  // ---------------------------------------------------------------- the conditions handler

  const CONDITIONS := Config(["alerts", "hourly", "air_quality"], 2)

  datatype Response =
    | MissingZip
    | Complete(data: map<string, Data>)
    | Partial(data: map<string, Data>)
    | Timeout
    | DependencyFailure

  /** The response, from the state when Wait has returned; `isTimeout` recognises the deadline's error. */
  function Respond(zip: string, partial: bool, s: State, isTimeout: Error -> bool): Response
  {
    if zip == "" then MissingZip
    else if s.err == None then Complete(s.data)
    else if partial then Partial(s.data)
    else if isTimeout(s.err.value) then Timeout
    else DependencyFailure
  }

  predicate AllReturned(s: State) { forall i :: 0 <= i < |s.fates| ==> s.fates[i].Returned? }

  /** At no moment are all three calls under way. */
  lemma ConditionsFanOut(actions: seq<Action>)
    requires CanRun(CONDITIONS, actions)
    ensures var s := StateAfter(CONDITIONS, actions);
      |s.phases| == 3 && !(s.phases[0].Calling? && s.phases[1].Calling? && s.phases[2].Calling?)
  {
    NamesDiffer();
    FanOutSafety(CONDITIONS, actions);
    var phases := StateAfter(CONDITIONS, actions).phases;
    assert phases[..2][..1] == phases[..1];
    assert phases[..1][..0] == [];
    assert Sum(phases[..1], IN_FN) == Sum(phases[..1][..0], IN_FN) + IN_FN(phases[0]);
  }

  lemma NamesDiffer()
    ensures CONDITIONS.Valid()
  {
    assert "alerts"[0] != "hourly"[0] && |"alerts"| != |"air_quality"| && "hourly"[0] != "air_quality"[0];
  }

  /** A complete response is given exactly when all three calls succeeded, with the data of each under its name;
      a partial one, only on request and after a failure, with the data of those that did succeed. */
  lemma ConditionsAnswer(actions: seq<Action>, zip: string, partial: bool, isTimeout: Error -> bool)
    requires CanRun(CONDITIONS, actions) && AllDone(StateAfter(CONDITIONS, actions))
    ensures var s := StateAfter(CONDITIONS, actions);
      var response := Respond(zip, partial, s, isTimeout);
      && |s.fates| == 3
      && (response.MissingZip? <==> zip == "")
      && (response.Complete? <==> zip != "" && AllReturned(s))
      && (response.Partial? <==> zip != "" && partial && !AllReturned(s))
      && (response.Complete? ==>
            response.data == map["alerts" := s.fates[0].data, "hourly" := s.fates[1].data,
                                 "air_quality" := s.fates[2].data])
      && (response.Partial? ==> forall name :: name in response.data <==>
            exists i :: 0 <= i < 3 && s.fates[i].Returned? && CONDITIONS.names[i] == name)
      && (response.Partial? ==> forall i :: 0 <= i < 3 && s.fates[i].Returned? ==>
            response.data[CONDITIONS.names[i]] == s.fates[i].data)
  {
    NamesDiffer();
    FanOutResult(CONDITIONS, actions);
    assert CONDITIONS.names[0] == "alerts" && CONDITIONS.names[1] == "hourly" && CONDITIONS.names[2] == "air_quality";
  }

  /** The error of a task that did not succeed. */
  function ErrorOf(fate: Fate): Option<Error>
  {
    match fate
    case Failed(err) => Some(err)
    case GaveUp(err) => Some(err)
    case _ => None
  }

  /** Without a partial answer, a request with a failed call is a timeout exactly when the first failed call to
      report ended with a deadline's error, and otherwise a dependency failure: a timeout if all failed calls
      ended so, a dependency failure if none did. */
  lemma ConditionsFailure(actions: seq<Action>, zip: string, isTimeout: Error -> bool)
    requires CanRun(CONDITIONS, actions) && AllDone(StateAfter(CONDITIONS, actions)) && zip != ""
    requires !AllReturned(StateAfter(CONDITIONS, actions))
    ensures var s := StateAfter(CONDITIONS, actions);
      var response, first := Respond(zip, false, s, isTimeout), FirstReported(CONDITIONS, actions);
      && first.Some? && (exists i :: 0 <= i < |s.fates| && ErrorOf(s.fates[i]) == first)
      && (response == Timeout <==> isTimeout(first.value))
      && (response == DependencyFailure <==> !isTimeout(first.value))
      && ((forall i :: 0 <= i < |s.fates| && !s.fates[i].Returned? ==>
             ErrorOf(s.fates[i]).Some? && isTimeout(ErrorOf(s.fates[i]).value)) ==> response == Timeout)
      && ((forall i :: 0 <= i < |s.fates| && !s.fates[i].Returned? ==>
             ErrorOf(s.fates[i]).Some? && !isTimeout(ErrorOf(s.fates[i]).value)) ==> response == DependencyFailure)
  {
    NamesDiffer();
    FanOutResult(CONDITIONS, actions);
    FirstErrorWins(CONDITIONS, actions);
    var s := StateAfter(CONDITIONS, actions);
    var i :| 0 <= i < |CONDITIONS.names| && IsErrorOf(s.fates[i], s.err.value);
    assert ErrorOf(s.fates[i]) == s.err;
  }
}
