/** What holds in every run of the concurrent cache, whatever the interleaving. */
module CacheRuns {
  import opened Common
  import opened CacheTypes
  import opened CacheSpec
  import opened CacheProtocol
  import opened CacheSafety
  import opened CacheFreshness
  import opened CacheFlights
  import opened CacheRefinement
  import CacheLaws

  ghost predicate Inv(cfg: Config, s: State)
  {
    && Linked(s) && Led(s) && Locked(s)
    && Clocked(cfg, s) && AllReading(cfg, s)
    && Flying(s)
    && InPlace(cfg, s) && WellFormed(cfg, Contents(s.mem))
  }

  lemma InvStep(cfg: Config, s: State, a: Action)
    requires Inv(cfg, s) && Enabled(s, a)
    ensures Inv(cfg, Apply(cfg, s, a))
  {
    hide Led, Locked, Clocked, AllReading, Flying, InPlace, WellFormed, Apply, Contents, Enabled;
    LinkedStep(cfg, s, a);
    LedStep(cfg, s, a);
    LockedStep(cfg, s, a);
    ClockedStep(cfg, s, a);
    AllReadingStep(cfg, s, a);
    FlyingStep(cfg, s, a);
    InPlaceStep(cfg, s, a);
    StepRefines(cfg, s, a);
    CacheLaws.UpdatedWellFormed(cfg, Contents(s.mem), UpdateOf(s, a));
  }

  lemma {:induction false} RunKeepsInv(cfg: Config, clock: int, actions: seq<Action>)
    requires CanRun(cfg, clock, actions)
    ensures Inv(cfg, StateAfter(cfg, clock, actions))
  {
    if actions != [] {
      hide Inv;
      var before, a := actions[..|actions| - 1], actions[|actions| - 1];
      RunKeepsInv(cfg, clock, before);
      InvStep(cfg, StateAfter(cfg, clock, before), a);
    }
  }

  // ---------------------------------------------------------------- what a caller gets

  /** A hit returns a value that was stored for its key, at a time whose window reaches past the caller's `now`:
      ttl for a fresh hit, and staleExtension more for a stale one. */
  lemma HitsAreFresh(cfg: Config, clock: int, actions: seq<Action>, i: nat)
    requires CanRun(cfg, clock, actions) && i < |StateAfter(cfg, clock, actions).threads|
    ensures var s := StateAfter(cfg, clock, actions);
      var t := s.threads[i];
      t.pc.Ended? && t.pc.answer.Hit? ==>
        && t.role.Caller?
        && WithinWindow(s.mem.log, t.key, t.pc.answer.value, t.role.now, WindowOf(cfg, t.pc.answer.stale))
  {
    RunKeepsInv(cfg, clock, actions);
    assert Reading(cfg, StateAfter(cfg, clock, actions).mem, StateAfter(cfg, clock, actions).threads[i]);
  }

  /** At most one thread at a time runs the load and the set of a key. */
  lemma OneLeaderPerKey(cfg: Config, clock: int, actions: seq<Action>, i: nat, j: nat)
    requires CanRun(cfg, clock, actions) && i < j < |StateAfter(cfg, clock, actions).threads|
    ensures var s := StateAfter(cfg, clock, actions);
      Leads(s.threads[i].pc) && Leads(s.threads[j].pc) ==> s.threads[i].key != s.threads[j].key
  {
    RunKeepsInv(cfg, clock, actions);
    var s := StateAfter(cfg, clock, actions);
    assert LeadsFlight(s.group, s.threads[i], i) && LeadsFlight(s.group, s.threads[j], j);
  }

  /** A call that missed gets the outcome of a flight of its key that ended during the call. If a call of
      GetOrLoad led that flight, that is the one value the flight stored, or the flight's error and nothing was
      stored. The assertion on line 115 fails if and only if refreshAsync led the flight and its load succeeded. */
  lemma MissesGetTheirFlight(cfg: Config, clock: int, actions: seq<Action>, i: nat)
    requires CanRun(cfg, clock, actions) && i < |StateAfter(cfg, clock, actions).threads|
    requires var t := StateAfter(cfg, clock, actions).threads[i];
      t.role.Caller? && t.pc.Ended? && !t.pc.answer.Hit?
    ensures var s := StateAfter(cfg, clock, actions);
      var t := s.threads[i];
      var f := t.pc.answer.flight;
      && f < |s.group.flights|
      && var flight := s.group.flights[f];
         && flight.key == t.key && flight.outcome.Some?
         && t.startedAt < flight.endedAt <= s.step
         && (t.pc.answer.FromFlight? ==> StoredOnly(s.mem.log, t.key, t.pc.answer.value, f))
         && (t.pc.answer.Failure? <==> NothingStored(s.mem.log, f))
         && (t.pc.answer.Failure? ==> flight.outcome.value == Broken(t.pc.answer.err))
         && (t.pc.answer.Panic? <==> flight.async && !flight.outcome.value.Broken?)
         && !t.pc.answer.Finished?
  {
    RunKeepsInv(cfg, clock, actions);
    var s := StateAfter(cfg, clock, actions);
    var t := s.threads[i];
    var f := t.pc.answer.flight;
    assert Joined(s.group, s.step, t);
    assert Concluded(s.mem.log, s.group, s.step, f);
    match s.group.flights[f].outcome.value
    case Carried(value) =>
      var at :| Stored(t.key, value, at, f) in s.mem.log;
    case NilValue =>
      var value, at :| Stored(t.key, value, at, f) in s.mem.log;
    case Broken(_) =>
  }

  /** The flight stored the value for the key, and nothing else. */
  ghost predicate StoredOnly(log: set<Stored>, key: Key, value: Value, f: nat)
  {
    && (exists x :: x in log && x.flight == f)
    && (forall x :: x in log && x.flight == f ==> x.key == key && x.value == value)
  }

  // ---------------------------------------------------------------- the store

  /** A bounded cache never holds more than maxItems entries, not even in the middle of an update. */
  lemma BoundHolds(cfg: Config, clock: int, actions: seq<Action>)
    requires CanRun(cfg, clock, actions) && cfg.maxItems > 0
    ensures |StateAfter(cfg, clock, actions).mem.items| <= cfg.maxItems
  {
    RunKeepsInv(cfg, clock, actions);
    var s := StateAfter(cfg, clock, actions);
    ViewKeys(s.mem);
    if s.mem.lock.Some? {
      var i := s.mem.lock.value.tid;
      assert LockFits(s.mem, s.threads[i], i) && Midway(cfg, s.mem, s.threads[i]);
      var before := s.mem.lock.value.before;
      assert View(s.mem).records.Keys == before.records.Keys;
      assert |View(s.mem).records| == |View(s.mem).records.Keys|;
      assert |before.records| == |before.records.Keys|;
    }
  }

  /** The updates that a run completes, in the order in which they take effect. */
  function UpdatesOf(cfg: Config, clock: int, actions: seq<Action>): seq<CacheLaws.Update>
    requires CanRun(cfg, clock, actions)
  {
    if actions == [] then []
    else
      var before, a := actions[..|actions| - 1], actions[|actions| - 1];
      UpdatesOf(cfg, clock, before) + [UpdateOf(StateAfter(cfg, clock, before), a)]
  }

  /** Every run leaves the cache with the contents that its updates give when done one at a time. */
  lemma {:induction false} RunsAreSerial(cfg: Config, clock: int, actions: seq<Action>)
    requires CanRun(cfg, clock, actions)
    ensures Contents(StateAfter(cfg, clock, actions).mem) == CacheLaws.StoreAfter(cfg, UpdatesOf(cfg, clock, actions))
  {
    if actions == [] {
      PurgeRefines(Initial(clock).mem);
    } else {
      hide Contents, CacheLaws.Updated, Apply, UpdateOf;
      var before, a := actions[..|actions| - 1], actions[|actions| - 1];
      RunsAreSerial(cfg, clock, before);
      RunKeepsInv(cfg, clock, before);
      StepRefines(cfg, StateAfter(cfg, clock, before), a);
    }
  }

  /** In every interleaving a key that leaves the cache, other than by Delete or Purge, is the one whose last
      set or touch is oldest. */
  lemma EvictionsAreLeastRecent(cfg: Config, clock: int, actions: seq<Action>, a: Action, victim: Key, other: Key)
    requires CanRun(cfg, clock, actions) && Enabled(StateAfter(cfg, clock, actions), a) && !a.Delete? && !a.Purge?
    requires victim in Contents(StateAfter(cfg, clock, actions).mem).records
    requires CanRun(cfg, clock, actions + [a])
    requires victim !in Contents(StateAfter(cfg, clock, actions + [a]).mem).records
    requires other in Contents(StateAfter(cfg, clock, actions).mem).records && other != victim
    ensures var updates := UpdatesOf(cfg, clock, actions);
      CacheLaws.LastUse(cfg, updates, victim) < CacheLaws.LastUse(cfg, updates, other)
    ensures other in Contents(StateAfter(cfg, clock, actions + [a]).mem).records
  {
    hide Contents, CacheLaws.Updated, Apply, Enabled;
    var s := StateAfter(cfg, clock, actions);
    assert (actions + [a])[..|actions|] == actions;
    RunsAreSerial(cfg, clock, actions);
    RunKeepsInv(cfg, clock, actions);
    StepRefines(cfg, s, a);
    CacheLaws.EvictsLeastRecentlyUsed(cfg, UpdatesOf(cfg, clock, actions), UpdateOf(s, a), victim, other);
  }

  // ---------------------------------------------------------------- every call returns

  predicate AllEnded(s: State) { forall i :: 0 <= i < |s.threads| ==> s.threads[i].pc.Ended? }

  /** Unless all calls have ended, some thread can take a step. */
  lemma SomeThreadMoves(cfg: Config, clock: int, actions: seq<Action>, load: Load)
    requires CanRun(cfg, clock, actions)
    ensures var s := StateAfter(cfg, clock, actions);
      AllEnded(s) <==> forall i: nat :: !Enabled(s, Step(i, load))
  {
    hide StateAfter, CanRun, Clocked, AllReading, Flying, InPlace, WellFormed;
    RunKeepsInv(cfg, clock, actions);
    var s := StateAfter(cfg, clock, actions);
    if !AllEnded(s) {
      var i :| 0 <= i < |s.threads| && !s.threads[i].pc.Ended?;
      if s.mem.lock.Some? {
        i := s.mem.lock.value.tid;
        assert LockFits(s.mem, s.threads[i], i);
      } else if s.threads[i].pc.Waiting? && s.group.flights[s.threads[i].pc.f].outcome == None {
        var f := s.threads[i].pc.f;
        assert Attended(s.threads, s.group, f);
        i := s.group.flights[f].leader;
      }
      assert Placed(s.mem, s.group, s.threads[i]);
      assert Enabled(s, Step(i, load));
    }
  }

  const STEPS_LEFT: Thread -> nat := (t: Thread) =>
    match t.pc
    case Lookup => 19
    case FreshHas(_) => 18
    case FreshExpires(_) => 17
    case FreshTouch(_) => 2
    case FreshValue(_) => 1
    case StaleHas(_) => 16
    case StaleUntil(_) => 15
    case StaleTouch(_) => 14
    case StaleSpawn(_) => 13
    case StaleValue(_) => 1
    case Enter => 11
    case Loading(_) => 10
    case Clock(_, _) => 9
    case Lock(_, _, _) => 8
    case WriteValue(_, _, _, _) => 7
    case WriteExpires(_, _, _, _) => 6
    case WriteStale(_, _, _, _) => 5
    case WriteHas(_, _, _, _) => 4
    case WriteTouch(_, _, _, _) => 3
    case Ending(_, _) => 2
    case Waiting(_) => 1
    case Ended(_) => 0

  lemma ThreadProgress(clock: int, m: Memory, g: Group, t: Thread, load: Load)
    requires Ready(m, g, t.pc)
    ensures STEPS_LEFT(t.(pc := NextPc(clock, m, g, t, load))) + (if t.pc.StaleSpawn? then 11 else 0) < STEPS_LEFT(t)
  {
  }

  lemma SpawnSum(threads: seq<Thread>, t: Thread, step: nat)
    ensures Sum(threads + Spawned(t, step), STEPS_LEFT) == Sum(threads, STEPS_LEFT) + if t.pc.StaleSpawn? then 11 else 0
  {
    if t.pc.StaleSpawn? {
      AppendSum(threads, STEPS_LEFT, Thread(Refresher, t.key, step, Enter));
    } else {
      assert threads + Spawned(t, step) == threads;
    }
  }

  function CallsIn(actions: seq<Action>): nat
  {
    if actions == [] then 0
    else CallsIn(actions[..|actions| - 1]) + if actions[|actions| - 1].Call? then 1 else 0
  }

  function StepsIn(actions: seq<Action>): nat
  {
    if actions == [] then 0
    else StepsIn(actions[..|actions| - 1]) + if actions[|actions| - 1].Step? then 1 else 0
  }

  lemma StepProgress(cfg: Config, s: State, a: Action)
    requires ItemsInRange(s.mem) && Enabled(s, a)
    ensures Sum(Apply(cfg, s, a).threads, STEPS_LEFT) + (if a.Step? then 1 else 0)
      <= Sum(s.threads, STEPS_LEFT) + (if a.Call? then 19 else 0)
  {
    hide NextPc, MemoryStep, GroupStep, Spawned, Sum;
    if a.Step? {
      var t := s.threads[a.tid];
      var next := t.(pc := NextPc(s.clock, s.mem, s.group, t, a.load));
      ThreadProgress(s.clock, s.mem, s.group, t, a.load);
      ReplaceSum(s.threads, STEPS_LEFT, a.tid, next);
      SpawnSum(s.threads[a.tid := next], t, s.step + 1);
    } else if a.Call? {
      AppendSum(s.threads, STEPS_LEFT, Thread(Caller(a.now), a.key, s.step + 1, Lookup));
    }
  }

  /** Every call returns: with the refresh it may start, it takes at most 19 steps, however long the run. */
  lemma {:induction false} CallsEnd(cfg: Config, clock: int, actions: seq<Action>)
    requires CanRun(cfg, clock, actions)
    ensures StepsIn(actions) + Sum(StateAfter(cfg, clock, actions).threads, STEPS_LEFT) <= 19 * CallsIn(actions)
  {
    if actions != [] {
      hide Apply, Enabled;
      var before, a := actions[..|actions| - 1], actions[|actions| - 1];
      CallsEnd(cfg, clock, before);
      StepProgress(cfg, StateAfter(cfg, clock, before), a);
    }
  }
}
