/** The bounded job queue: producers, a channel and workers, as interleaved atomic steps. */
module JobQueueing {
  import opened Common

  /** `make` panics on a negative capacity, so MaxQueue is a natural number. */
  datatype Config = Config(maxQueue: nat, numWorker: int)

  datatype Worker = Idle | Running(job: nat) | Exited

  /** Jobs are numbered in the order of the calls of Enqueue. The last four fields record what has happened. */
  datatype State = State(
    ch: seq<nat>, stopped: bool, workers: seq<Worker>, toSpawn: nat, wg: int,
    nextJob: nat, starts: nat,
    accepted: seq<nat>, refused: set<nat>, dequeued: seq<nat>, finished: set<nat>)

  const NEW_QUEUE := State([], false, [], 0, 0, 0, 0, [], {}, [], {})

  /** `HandOff` is a send that meets a worker waiting on an empty channel, the only way to send without a buffer. */
  datatype Action =
    | Start | Spawn | Close
    | Send | HandOff(w: nat) | Refuse
    | Receive(w: nat) | Finish(w: nat) | Exit(w: nat)

  predicate IsIdle(s: State, w: nat) { w < |s.workers| && s.workers[w] == Idle }

  predicate Enabled(cfg: Config, s: State, a: Action)
  {
    match a
    case Start => true
    case Spawn => s.toSpawn > 0
    case Close => true
    case Send => |s.ch| < cfg.maxQueue
    case HandOff(w) => s.ch == [] && !s.stopped && IsIdle(s, w)
    case Refuse => |s.ch| >= cfg.maxQueue
    case Receive(w) => s.ch != [] && IsIdle(s, w)
    case Finish(w) => w < |s.workers| && s.workers[w].Running?
    case Exit(w) => s.stopped && IsIdle(s, w)
  }

  function Apply(cfg: Config, s: State, a: Action): State
    requires Enabled(cfg, s, a)
  {
    match a
    case Start => s.(toSpawn := s.toSpawn + Max(0, cfg.numWorker), starts := s.starts + 1)
    case Spawn => s.(toSpawn := s.toSpawn - 1, workers := s.workers + [Idle], wg := s.wg + 1)
    case Close => s.(stopped := true)
    case Send => s.(ch := s.ch + [s.nextJob], accepted := s.accepted + [s.nextJob], nextJob := s.nextJob + 1)
    case HandOff(w) =>
      s.(workers := s.workers[w := Running(s.nextJob)], accepted := s.accepted + [s.nextJob],
         dequeued := s.dequeued + [s.nextJob], nextJob := s.nextJob + 1)
    case Refuse => s.(refused := s.refused + {s.nextJob}, nextJob := s.nextJob + 1)
    case Receive(w) =>
      s.(ch := s.ch[1..], workers := s.workers[w := Running(s.ch[0])], dequeued := s.dequeued + [s.ch[0]])
    case Finish(w) =>
      s.(workers := s.workers[w := Idle], finished := s.finished + {s.workers[w].job})
    case Exit(w) => s.(workers := s.workers[w := Exited], wg := s.wg - 1)
  }

  predicate CanRun(cfg: Config, s: State, actions: seq<Action>)
    decreases |actions|, 0
  {
    actions == [] || (CanRun(cfg, s, actions[..|actions| - 1])
      && Enabled(cfg, StateAfter(cfg, s, actions[..|actions| - 1]), actions[|actions| - 1]))
  }

  function StateAfter(cfg: Config, s: State, actions: seq<Action>): State
    requires CanRun(cfg, s, actions)
    decreases |actions|, 1
  {
    if actions == [] then s
    else Apply(cfg, StateAfter(cfg, s, actions[..|actions| - 1]), actions[|actions| - 1])
  }

  lemma RunExtends(cfg: Config, s: State, actions: seq<Action>, a: Action)
    requires CanRun(cfg, s, actions) && Enabled(cfg, StateAfter(cfg, s, actions), a)
    ensures CanRun(cfg, s, actions + [a])
    ensures StateAfter(cfg, s, actions + [a]) == Apply(cfg, StateAfter(cfg, s, actions), a)
  {
    assert (actions + [a])[..|actions|] == actions;
  }

  // ---------------------------------------------------------------- counting workers

  /** Workers that have not returned: what the WaitGroup counts. */
  const ALIVE: Worker -> nat := (worker: Worker) => if worker == Exited then 0 else 1

  const RUNNING: Worker -> nat := (worker: Worker) => if worker.Running? then 1 else 0

  /** Steps a worker still has to take before it may return. */
  const LOAD: Worker -> nat := (worker: Worker) => if worker.Running? then 2 else if worker == Idle then 1 else 0

  lemma {:induction false} WorkersCounted(workers: seq<Worker>)
    ensures Sum(workers, RUNNING) <= Sum(workers, ALIVE) <= |workers|
    ensures Sum(workers, ALIVE) == 0 <==> forall w :: 0 <= w < |workers| ==> workers[w] == Exited
  {
    if workers != [] {
      WorkersCounted(workers[..|workers| - 1]);
    }
  }

  // ---------------------------------------------------------------- what every step keeps

  predicate RunsNow(s: State, job: nat)
  {
    exists w :: 0 <= w < |s.workers| && s.workers[w] == Running(job)
  }

  /** Every job sent is dequeued, in order, or still in the channel. */
  predicate Conserved(s: State) { s.accepted == s.dequeued + s.ch }

  /** A dequeued job is either finished or run by exactly one worker, and no other job is. */
  predicate Exclusive(s: State)
  {
    && (forall w :: 0 <= w < |s.workers| && s.workers[w].Running? ==>
      s.workers[w].job in s.dequeued && s.workers[w].job !in s.finished)
    && (forall v, w :: 0 <= v < w < |s.workers| && s.workers[v].Running? ==> s.workers[v] != s.workers[w])
    && (forall job :: job in s.finished ==> job in s.dequeued)
    && (forall job :: job in s.dequeued ==> job in s.finished || RunsNow(s, job))
  }

  /** Jobs have distinct numbers; a refused one is in none of the lists. */
  predicate Numbered(s: State)
  {
    && (forall i :: 0 <= i < |s.accepted| ==> s.accepted[i] < s.nextJob && s.accepted[i] !in s.refused)
    && (forall i, j :: 0 <= i < j < |s.accepted| ==> s.accepted[i] < s.accepted[j])
    && (forall job :: job in s.refused ==> job < s.nextJob)
  }

  predicate Bounded(cfg: Config, s: State)
  {
    && |s.ch| <= cfg.maxQueue
    && |s.workers| + s.toSpawn == WorkerLimit(cfg, s.starts)
    && s.wg == Sum(s.workers, ALIVE)
    && (!s.stopped ==> forall w :: 0 <= w < |s.workers| ==> s.workers[w] != Exited)
  }

  predicate Inv(cfg: Config, s: State) { Conserved(s) && Numbered(s) && Exclusive(s) && Bounded(cfg, s) }

  lemma ConservedStep(cfg: Config, s: State, a: Action)
    requires Conserved(s) && Enabled(cfg, s, a)
    ensures Conserved(Apply(cfg, s, a))
  {
  }

  /** The job at the head of the channel, and the next job to be numbered, have not been dequeued. */
  lemma NotYetDequeued(s: State)
    requires Conserved(s) && Numbered(s)
    ensures s.nextJob !in s.dequeued
    ensures s.ch != [] ==> s.ch[0] !in s.dequeued
  {
    forall i | 0 <= i < |s.dequeued|
      ensures s.dequeued[i] < s.nextJob
      ensures s.ch != [] ==> s.dequeued[i] < s.ch[0]
    {
      assert s.accepted[i] == s.dequeued[i];
      assert s.ch != [] ==> s.accepted[|s.dequeued|] == s.ch[0];
    }
  }

  lemma JobStarts(s: State, t: State, w: nat, job: nat)
    requires Exclusive(s) && IsIdle(s, w) && job !in s.dequeued
    requires t.workers == s.workers[w := Running(job)] && t.dequeued == s.dequeued + [job] && t.finished == s.finished
    ensures Exclusive(t)
  {
    forall other | other in t.dequeued
      ensures other in t.finished || RunsNow(t, other)
    {
      if other == job {
        assert t.workers[w] == Running(job);
      } else if other !in s.finished {
        var v :| 0 <= v < |s.workers| && s.workers[v] == Running(other);
        assert t.workers[v] == Running(other);
      }
    }
  }

  lemma WorkerChanges(s: State, t: State, w: nat)
    requires Exclusive(s) && w < |s.workers| && t.dequeued == s.dequeued
    requires t.workers == s.workers[w := Idle] || t.workers == s.workers[w := Exited]
    requires t.finished == s.finished + if s.workers[w].Running? then {s.workers[w].job} else {}
    ensures Exclusive(t)
  {
    forall job | job in t.dequeued
      ensures job in t.finished || RunsNow(t, job)
    {
      if job !in t.finished {
        var v :| 0 <= v < |s.workers| && s.workers[v] == Running(job);
        assert t.workers[v] == Running(job);
      }
    }
  }

  lemma WorkerJoins(s: State, t: State)
    requires Exclusive(s)
    requires t.workers == s.workers + [Idle] && t.dequeued == s.dequeued && t.finished == s.finished
    ensures Exclusive(t)
  {
    forall job | job in t.dequeued
      ensures job in t.finished || RunsNow(t, job)
    {
      if job !in t.finished {
        var v :| 0 <= v < |s.workers| && s.workers[v] == Running(job);
        assert t.workers[v] == Running(job);
      }
    }
  }

  lemma ExclusiveStep(cfg: Config, s: State, a: Action)
    requires Conserved(s) && Numbered(s) && Exclusive(s) && Enabled(cfg, s, a)
    ensures Exclusive(Apply(cfg, s, a))
  {
    var t := Apply(cfg, s, a);
    NotYetDequeued(s);
    match a
    case Spawn => WorkerJoins(s, t);
    case HandOff(w) => JobStarts(s, t, w, s.nextJob);
    case Receive(w) => JobStarts(s, t, w, s.ch[0]);
    case Finish(w) => WorkerChanges(s, t, w);
    case Exit(w) => WorkerChanges(s, t, w);
    case _ =>
      assert forall job :: RunsNow(s, job) ==> RunsNow(t, job);
  }

  lemma NumberedStep(cfg: Config, s: State, a: Action)
    requires Numbered(s) && Enabled(cfg, s, a)
    ensures Numbered(Apply(cfg, s, a))
  {
  }

  lemma BoundedStep(cfg: Config, s: State, a: Action)
    requires Bounded(cfg, s) && Enabled(cfg, s, a)
    ensures Bounded(cfg, Apply(cfg, s, a))
  {
    match a
    case Start => WorkerLimitStep(cfg, s.starts);
    case Spawn => AppendSum(s.workers, ALIVE, Idle);
    case HandOff(w) => ReplaceSum(s.workers, ALIVE, w, Running(s.nextJob));
    case Receive(w) => ReplaceSum(s.workers, ALIVE, w, Running(s.ch[0]));
    case Finish(w) => ReplaceSum(s.workers, ALIVE, w, Idle);
    case Exit(w) => ReplaceSum(s.workers, ALIVE, w, Exited);
    case _ =>
  }

  /** How many workers `starts` calls of Start create. */
  function WorkerLimit(cfg: Config, starts: nat): nat { starts * Max(0, cfg.numWorker) }

  lemma WorkerLimitStep(cfg: Config, starts: nat)
    ensures WorkerLimit(cfg, starts + 1) == WorkerLimit(cfg, starts) + Max(0, cfg.numWorker)
  {
  }

  lemma StepKeepsInv(cfg: Config, s: State, a: Action)
    requires Inv(cfg, s) && Enabled(cfg, s, a)
    ensures Inv(cfg, Apply(cfg, s, a))
  {
    ConservedStep(cfg, s, a);
    NumberedStep(cfg, s, a);
    ExclusiveStep(cfg, s, a);
    BoundedStep(cfg, s, a);
  }

  lemma {:induction false} RunKeepsInv(cfg: Config, s: State, actions: seq<Action>)
    requires Inv(cfg, s) && CanRun(cfg, s, actions)
    ensures Inv(cfg, StateAfter(cfg, s, actions))
  {
    if actions != [] {
      var before, a := actions[..|actions| - 1], actions[|actions| - 1];
      RunKeepsInv(cfg, s, before);
      StepKeepsInv(cfg, StateAfter(cfg, s, before), a);
    }
  }

  /** First in, first out; no job twice; a refused job is never run; the bounds on depth and on jobs running
      at once. */
  ghost predicate Safe(cfg: Config, s: State)
  {
    && s.accepted == s.dequeued + s.ch
    && (forall i, j :: 0 <= i < j < |s.accepted| ==> s.accepted[i] != s.accepted[j])
    && (forall job :: job in s.refused ==> job !in s.accepted && job !in s.finished && !RunsNow(s, job))
    && (forall job :: job in s.dequeued <==> job in s.finished || RunsNow(s, job))
    && (forall job :: job in s.finished ==> !RunsNow(s, job))
    && |s.ch| <= cfg.maxQueue
    && Sum(s.workers, RUNNING) <= s.starts * Max(0, cfg.numWorker)
  }

  lemma NewQueueInv(cfg: Config)
    ensures Inv(cfg, NEW_QUEUE)
  {
    assert WorkerLimit(cfg, 0) == 0;
  }

  lemma InvImpliesSafe(cfg: Config, s: State)
    requires Inv(cfg, s)
    ensures Safe(cfg, s)
  {
    WorkersCounted(s.workers);
    forall job | job in s.refused
      ensures job !in s.accepted && job !in s.finished && !RunsNow(s, job)
    {
      assert job !in s.dequeued by {
        assert forall i :: 0 <= i < |s.dequeued| ==> s.accepted[i] == s.dequeued[i];
      }
    }
  }

  /** The queue's promises in every reachable state, whatever producers and workers do. */
  lemma QueueSafety(cfg: Config, actions: seq<Action>)
    requires CanRun(cfg, NEW_QUEUE, actions)
    ensures Safe(cfg, StateAfter(cfg, NEW_QUEUE, actions))
  {
    NewQueueInv(cfg);
    RunKeepsInv(cfg, NEW_QUEUE, actions);
    InvImpliesSafe(cfg, StateAfter(cfg, NEW_QUEUE, actions));
  }

  // ---------------------------------------------------------------- shutdown

  predicate IsWorkerStep(a: Action) { a.Spawn? || a.Receive? || a.Finish? || a.Exit? }

  predicate OnlyWorkerSteps(actions: seq<Action>) { forall i :: 0 <= i < |actions| ==> IsWorkerStep(actions[i]) }

  function WorkLeft(s: State): nat { 2 * |s.ch| + 2 * s.toSpawn + Sum(s.workers, LOAD) }

  /** Each step of a worker brings the end nearer by one, whichever branch its select takes. */
  lemma WorkerStepProgress(cfg: Config, s: State, a: Action)
    requires Enabled(cfg, s, a) && IsWorkerStep(a)
    ensures WorkLeft(Apply(cfg, s, a)) + 1 == WorkLeft(s)
  {
    match a
    case Spawn => AppendSum(s.workers, LOAD, Idle);
    case Receive(w) => ReplaceSum(s.workers, LOAD, w, Running(s.ch[0]));
    case Finish(w) => ReplaceSum(s.workers, LOAD, w, Idle);
    case Exit(w) => ReplaceSum(s.workers, LOAD, w, Exited);
  }

  /** Worker w has not returned and is not blocked in its select. */
  predicate CanStep(s: State, w: nat)
  {
    w < |s.workers| && (s.workers[w].Running? || (s.workers[w] == Idle && (s.ch != [] || s.stopped)))
  }

  predicate AllReturned(s: State)
  {
    s.toSpawn == 0 && forall w :: 0 <= w < |s.workers| ==> s.workers[w] == Exited
  }

  /** After the stop some worker can always move, until all have returned. */
  lemma ShutdownNotStuck(cfg: Config, s: State)
    requires s.stopped
    ensures AllReturned(s) <==> forall a :: IsWorkerStep(a) ==> !Enabled(cfg, s, a)
  {
    if !AllReturned(s) {
      if s.toSpawn > 0 {
        assert Enabled(cfg, s, Spawn);
      } else {
        var w :| 0 <= w < |s.workers| && s.workers[w] != Exited;
        assert Enabled(cfg, s, if s.workers[w] == Idle then Exit(w) else Finish(w));
      }
    }
  }

  /** Once no producer is left, a run of the workers has at most WorkLeft steps, and one that cannot be
      continued after the stop has returned every worker. */
  lemma {:induction false} ShutdownTerminates(cfg: Config, s: State, actions: seq<Action>)
    requires s.stopped && CanRun(cfg, s, actions) && OnlyWorkerSteps(actions)
    ensures |actions| + WorkLeft(StateAfter(cfg, s, actions)) == WorkLeft(s)
    ensures (forall a :: IsWorkerStep(a) ==> !Enabled(cfg, StateAfter(cfg, s, actions), a))
        <==> AllReturned(StateAfter(cfg, s, actions))
  {
    if actions != [] {
      var before, a := actions[..|actions| - 1], actions[|actions| - 1];
      ShutdownTerminates(cfg, s, before);
      WorkerStepProgress(cfg, StateAfter(cfg, s, before), a);
    }
    StopIsKept(cfg, s, actions);
    ShutdownNotStuck(cfg, StateAfter(cfg, s, actions));
  }

  lemma {:induction false} StopIsKept(cfg: Config, s: State, actions: seq<Action>)
    requires s.stopped && CanRun(cfg, s, actions)
    ensures StateAfter(cfg, s, actions).stopped
  {
    if actions != [] {
      StopIsKept(cfg, s, actions[..|actions| - 1]);
    }
  }

  /** Wait may return: the WaitGroup's counter is zero and Start is not still creating workers. */
  predicate WaitReturns(s: State) { s.stopped && s.wg == 0 && s.toSpawn == 0 }

  lemma ReturnedStep(cfg: Config, s: State, a: Action)
    requires AllReturned(s) && Enabled(cfg, s, a) && a != Start
    ensures var t := Apply(cfg, s, a);
      t.workers == s.workers && t.toSpawn == 0 && t.dequeued == s.dequeued && t.finished == s.finished
  {
  }

  lemma {:induction false} ReturnedRun(cfg: Config, s: State, actions: seq<Action>)
    requires AllReturned(s) && CanRun(cfg, s, actions) && Start !in actions
    ensures var t := StateAfter(cfg, s, actions);
      t.workers == s.workers && t.toSpawn == 0 && t.dequeued == s.dequeued && t.finished == s.finished
  {
    if actions != [] {
      var before, a := actions[..|actions| - 1], actions[|actions| - 1];
      assert actions[|actions| - 1] in actions;
      ReturnedRun(cfg, s, before);
      ReturnedStep(cfg, StateAfter(cfg, s, before), a);
    }
  }

  /** After Stop has returned nothing runs or starts, even if producers go on: what was accepted is what has
      been run, and then what stays in the channel. */
  lemma QuiescentAfterStop(cfg: Config, s: State, actions: seq<Action>)
    requires Inv(cfg, s) && WaitReturns(s)
    requires CanRun(cfg, s, actions) && Start !in actions
    ensures var t := StateAfter(cfg, s, actions);
      && AllReturned(t)
      && t.dequeued == s.dequeued
      && t.accepted == t.dequeued + t.ch
      && (forall job :: job in t.dequeued <==> job in t.finished)
  {
    WorkersCounted(s.workers);
    ReturnedRun(cfg, s, actions);
    RunKeepsInv(cfg, s, actions);
  }

  // ---------------------------------------------------------------- jobs left in the channel

  predicate AllAcceptedRun(s: State) { forall job :: job in s.accepted ==> job in s.finished }

  /** When Stop returns all accepted jobs have run if and only if none is left in the channel. */
  lemma AllRunIffDrained(cfg: Config, s: State)
    requires Inv(cfg, s) && WaitReturns(s)
    ensures AllAcceptedRun(s) <==> s.ch == []
  {
    QuiescentAfterStop(cfg, s, []);
    NotYetDequeued(s);
  }

  function Jobs(lo: nat, hi: nat): seq<nat>
    requires lo <= hi
  {
    seq(hi - lo, i requires 0 <= i => lo + i)
  }

  /** The queue has been started once and d jobs sent, the first r of which have run; its workers are idle. */
  predicate Serving(cfg: Config, s: State, d: nat, r: nat)
    requires r <= d
  {
    && s.toSpawn == 0 && |s.workers| == Max(0, cfg.numWorker)
    && (forall w :: 0 <= w < |s.workers| ==> s.workers[w] == Idle)
    && s.nextJob == d && s.accepted == Jobs(0, d) && s.dequeued == Jobs(0, r) && s.ch == Jobs(r, d)
  }

  lemma {:induction false} SendsJobs(cfg: Config, d: nat) returns (actions: seq<Action>)
    requires d <= cfg.maxQueue
    ensures CanRun(cfg, NEW_QUEUE, actions) && Serving(cfg, StateAfter(cfg, NEW_QUEUE, actions), d, 0)
  {
    if d == 0 {
      var n := Max(0, cfg.numWorker);
      StartRun(cfg, NEW_QUEUE, n);
      actions := StartSteps(n);
    } else {
      var before := SendsJobs(cfg, d - 1);
      RunExtends(cfg, NEW_QUEUE, before, Send);
      actions := before + [Send];
    }
  }

  /** After the close the first worker still takes r jobs. */
  lemma {:induction false} DrainsJobs(cfg: Config, d: nat, r: nat) returns (actions: seq<Action>)
    requires r <= d <= cfg.maxQueue && (r > 0 ==> cfg.numWorker >= 1)
    ensures CanRun(cfg, NEW_QUEUE, actions) && Serving(cfg, StateAfter(cfg, NEW_QUEUE, actions), d, r)
    ensures StateAfter(cfg, NEW_QUEUE, actions).stopped
  {
    if r == 0 {
      var before := SendsJobs(cfg, d);
      RunExtends(cfg, NEW_QUEUE, before, Close);
      actions := before + [Close];
    } else {
      var before := DrainsJobs(cfg, d, r - 1);
      RunExtends(cfg, NEW_QUEUE, before, Receive(0));
      RunExtends(cfg, NEW_QUEUE, before + [Receive(0)], Finish(0));
      actions := before + [Receive(0)] + [Finish(0)];
    }
  }

  /** Then the workers, the first j so far, take the branch of the stop. */
  lemma {:induction false} WorkersExit(cfg: Config, d: nat, r: nat, j: nat) returns (actions: seq<Action>)
    requires r <= d <= cfg.maxQueue && (r > 0 ==> cfg.numWorker >= 1) && j <= Max(0, cfg.numWorker)
    ensures CanRun(cfg, NEW_QUEUE, actions)
    ensures var s := StateAfter(cfg, NEW_QUEUE, actions);
      && s.stopped && s.toSpawn == 0 && |s.workers| == Max(0, cfg.numWorker)
      && (forall w :: 0 <= w < |s.workers| ==> s.workers[w] == if w < j then Exited else Idle)
      && s.accepted == Jobs(0, d) && s.dequeued == Jobs(0, r)
  {
    if j == 0 {
      actions := DrainsJobs(cfg, d, r);
    } else {
      var before := WorkersExit(cfg, d, r, j - 1);
      RunExtends(cfg, NEW_QUEUE, before, Exit(j - 1));
      actions := before + [Exit(j - 1)];
    }
  }

  /** With workers, Stop may leave any number of the waiting jobs: the select is free to go on taking jobs after
      the close, and free not to. */
  lemma StopMayLeaveAny(cfg: Config, d: nat, r: nat) returns (actions: seq<Action>)
    requires r <= d <= cfg.maxQueue && (r > 0 ==> cfg.numWorker >= 1)
    ensures CanRun(cfg, NEW_QUEUE, actions)
    ensures var s := StateAfter(cfg, NEW_QUEUE, actions);
      WaitReturns(s) && |s.accepted| == d && |s.dequeued| == r && |s.ch| == d - r
  {
    actions := WorkersExit(cfg, d, r, Max(0, cfg.numWorker));
    NewQueueInv(cfg);
    RunKeepsInv(cfg, NEW_QUEUE, actions);
    WorkersCounted(StateAfter(cfg, NEW_QUEUE, actions).workers);
  }

  /** Only a queue without a buffer runs every job it accepts: with one, a job can stay behind in the channel. */
  lemma EveryJobRunsIff(cfg: Config)
    ensures cfg.maxQueue == 0 <==>
            forall actions :: CanRun(cfg, NEW_QUEUE, actions) && WaitReturns(StateAfter(cfg, NEW_QUEUE, actions)) ==>
              AllAcceptedRun(StateAfter(cfg, NEW_QUEUE, actions))
  {
    NewQueueInv(cfg);
    if cfg.maxQueue == 0 {
      forall actions | CanRun(cfg, NEW_QUEUE, actions) && WaitReturns(StateAfter(cfg, NEW_QUEUE, actions))
        ensures AllAcceptedRun(StateAfter(cfg, NEW_QUEUE, actions))
      {
        RunKeepsInv(cfg, NEW_QUEUE, actions);
        AllRunIffDrained(cfg, StateAfter(cfg, NEW_QUEUE, actions));
      }
    } else {
      var actions := StopMayLeaveAny(cfg, 1, 0);
      RunKeepsInv(cfg, NEW_QUEUE, actions);
      AllRunIffDrained(cfg, StateAfter(cfg, NEW_QUEUE, actions));
    }
  }

  // ---------------------------------------------------------------- the queue as the program holds it

  function StartSteps(n: nat): seq<Action> { [Start] + seq(n, i => Spawn) }

  /** The state when Start has created n of its workers. */
  function Started(cfg: Config, s: State, n: nat): State
    requires n <= Max(0, cfg.numWorker)
  {
    s.(starts := s.starts + 1, toSpawn := s.toSpawn + Max(0, cfg.numWorker) - n,
       workers := s.workers + seq(n, i => Idle), wg := s.wg + n)
  }

  lemma {:induction false} StartRun(cfg: Config, s: State, n: nat)
    requires n <= Max(0, cfg.numWorker)
    ensures CanRun(cfg, s, StartSteps(n)) && StateAfter(cfg, s, StartSteps(n)) == Started(cfg, s, n)
  {
    hide StateAfter;
    if n == 0 {
      StateAtFirst(cfg, s);
      RunExtends(cfg, s, [], Start);
      assert [] + [Start] == StartSteps(0);
    } else {
      hide CanRun;
      StartRun(cfg, s, n - 1);
      SpawnsOne(cfg, s, n);
      RunExtends(cfg, s, StartSteps(n - 1), Spawn);
      assert StartSteps(n - 1) + [Spawn] == StartSteps(n);
    }
  }

  lemma StateAtFirst(cfg: Config, s: State)
    ensures CanRun(cfg, s, []) && StateAfter(cfg, s, []) == s
    ensures Apply(cfg, s, Start) == Started(cfg, s, 0)
  {
  }

  lemma SpawnsOne(cfg: Config, s: State, n: nat)
    requires 1 <= n <= Max(0, cfg.numWorker)
    ensures Enabled(cfg, Started(cfg, s, n - 1), Spawn)
    ensures Apply(cfg, Started(cfg, s, n - 1), Spawn) == Started(cfg, s, n)
  {
  }

  /** Each method but Stop is one or more steps of the machine, taken in place. */
  class Queue {
    const cfg: Config
    var ch: seq<nat>
    var stopped: bool
    var workers: seq<Worker>
    var wg: int
    var nextJob: nat
    ghost var toSpawn: nat
    ghost var starts: nat
    ghost var accepted: seq<nat>
    ghost var refused: set<nat>
    ghost var dequeued: seq<nat>
    ghost var finished: set<nat>

    ghost function Contents(): State
      reads this
    {
      State(ch, stopped, workers, toSpawn, wg, nextJob, starts, accepted, refused, dequeued, finished)
    }

    constructor (cfg: Config)
      ensures this.cfg == cfg && Contents() == NEW_QUEUE
    {
      this.cfg := cfg;
      ch, stopped, workers, wg, nextJob := [], false, [], 0, 0;
      toSpawn, starts, accepted, refused, dequeued, finished := 0, 0, [], {}, [], {};
    }

    /** Starts the workers, one `go` statement after the other. */
    method Start()
      modifies this
      ensures var n := Max(0, cfg.numWorker);
        CanRun(cfg, old(Contents()), StartSteps(n)) && Contents() == StateAfter(cfg, old(Contents()), StartSteps(n))
      ensures workers == old(workers) + seq(Max(0, cfg.numWorker), i => Idle)
    {
      starts, toSpawn := starts + 1, toSpawn + Max(0, cfg.numWorker);
      var i := 0;
      while i < cfg.numWorker
        invariant 0 <= i <= Max(0, cfg.numWorker)
        invariant Contents() == Started(cfg, old(Contents()), i)
      {
        workers, wg, toSpawn := workers + [Idle], wg + 1, toSpawn - 1;
        i := i + 1;
      }
      StartRun(cfg, old(Contents()), i);
    }

    /** `waiting` is a worker parked in its select, if the channel operation finds one. */
    method Enqueue(waiting: Option<nat>) returns (ok: bool)
      requires waiting.Some? ==> ch == [] && !stopped && IsIdle(Contents(), waiting.value)
      modifies this
      ensures ok <==> waiting.Some? || |old(ch)| < cfg.maxQueue
      ensures var action := if waiting.Some? then HandOff(waiting.value) else if ok then Send else Refuse;
        Enabled(cfg, old(Contents()), action) && Contents() == Apply(cfg, old(Contents()), action)
    {
      var job := nextJob;
      nextJob := nextJob + 1;
      if waiting.Some? {
        workers := workers[waiting.value := Running(job)];
        accepted, dequeued := accepted + [job], dequeued + [job];
        return true;
      } else if |ch| < cfg.maxQueue {
        ch := ch + [job];
        accepted := accepted + [job];
        return true;
      }
      refused := refused + {job};
      return false;
    }

    /** The accepted jobs that no worker has taken yet; never more than the queue's capacity. */
    method Depth() returns (n: nat)
      requires Inv(cfg, Contents())
      ensures n == |accepted| - |dequeued| && n <= cfg.maxQueue
    {
      return |ch|;
    }

    /** One step of worker w, before or after the stop, if it is not blocked; when both branches of its select
        are ready it is free to take either. */
    method WorkerStep(w: nat) returns (ghost action: Action)
      requires CanStep(Contents(), w)
      modifies this
      ensures action in {Receive(w), Finish(w), Exit(w)} && Enabled(cfg, old(Contents()), action)
      ensures Contents() == Apply(cfg, old(Contents()), action)
    {
      var prefersJob := *;
      if workers[w].Running? {
        action := Finish(w);
        finished := finished + {workers[w].job};
        workers := workers[w := Idle];
      } else if ch != [] && (prefersJob || !stopped) {
        action := Receive(w);
        workers, dequeued, ch := workers[w := Running(ch[0])], dequeued + [ch[0]], ch[1..];
      } else {
        action := Exit(w);
        workers, wg := workers[w := Exited], wg - 1;
      }
    }

    /** A worker that has not returned takes a step. */
    method SomeWorkerSteps()
      requires Inv(cfg, Contents()) && stopped && wg != 0
      modifies this
      ensures Inv(cfg, Contents()) && stopped && toSpawn == old(toSpawn)
      ensures accepted == old(accepted) && old(dequeued) <= dequeued
      ensures WorkLeft(Contents()) < WorkLeft(old(Contents()))
    {
      hide Conserved, Numbered, Exclusive;
      WorkersCounted(workers);
      var w :| 0 <= w < |workers| && workers[w] != Exited;
      ghost var before := Contents();
      ghost var action := WorkerStep(w);
      WorkerStepProgress(cfg, before, action);
      StepKeepsInv(cfg, before, action);
    }

    /** Stop, with no producer at work: close, then the workers run in any order until Wait returns. */
    method Stop()
      requires Inv(cfg, Contents()) && toSpawn == 0
      modifies this
      ensures Inv(cfg, Contents()) && WaitReturns(Contents())
      ensures accepted == old(accepted) && old(dequeued) <= dequeued && accepted == dequeued + ch
      ensures forall job :: job in dequeued <==> job in finished
    {
      StepKeepsInv(cfg, Contents(), Close);
      stopped := true;
      RunWorkers();
      QuiescentAfterStop(cfg, Contents(), []);
    }

    method RunWorkers()
      requires Inv(cfg, Contents()) && stopped && toSpawn == 0
      modifies this
      ensures Inv(cfg, Contents()) && WaitReturns(Contents())
      ensures accepted == old(accepted) && old(dequeued) <= dequeued
    {
      hide Inv;
      while wg != 0
        invariant Inv(cfg, Contents()) && stopped && toSpawn == 0
        invariant accepted == old(accepted) && old(dequeued) <= dequeued
        decreases WorkLeft(Contents())
      {
        SomeWorkerSteps();
      }
    }
  }
}
