/** What calls of the concurrent cache leave behind: the use of a key that was hit, the refresh of a stale hit, and
    the value that a loader returned. */
module CacheEffects {
  import opened Common
  import opened CacheTypes
  import opened CacheSpec
  import opened CacheProtocol
  import opened CacheSafety
  import opened CacheFlights
  import opened CacheRefinement
  import opened CacheRuns
  import opened CacheHistory
  import opened CacheDecisions
  import opened CacheLaws

  // ---------------------------------------------------------------- every hit is a use

  /** Past the touch of a hit. */
  predicate HasTouched(pc: Pc)
  {
    pc.FreshValue? || pc.StaleSpawn? || pc.StaleValue? || (pc.Ended? && pc.answer.Hit?)
  }

  /** A touch of the key is done from the given position on. */
  predicate UsedSince(updates: seq<Update>, from: int, key: Key)
  {
    exists q :: 0 <= q < |updates| && from <= q && updates[q] == Use(key)
  }

  lemma UsedSinceStays(updates: seq<Update>, update: Update, from: int, key: Key)
    requires UsedSince(updates, from, key)
    ensures UsedSince(updates + [update], from, key)
  {
    var q :| 0 <= q < |updates| && from <= q && updates[q] == Use(key);
    assert (updates + [update])[q] == Use(key);
  }

  /** The one step that leads past the touch is the touch. */
  lemma TouchesFirst(clock: int, m: Memory, g: Group, t: Thread, load: Load)
    requires Ready(m, g, t.pc) && HasTouched(NextPc(clock, m, g, t, load)) && !HasTouched(t.pc)
    ensures (t.pc.FreshTouch? || t.pc.StaleTouch?) && UpdateBy(m, t) == Use(t.key)
  {
  }

  /** A call that ends with a hit has used its key between its lookup and its return. */
  lemma {:induction false} HitsUseTheirKey(cfg: Config, clock: int, actions: seq<Action>, i: nat)
    requires CanRun(cfg, clock, actions) && i < |StateAfter(cfg, clock, actions).threads|
    requires HasTouched(StateAfter(cfg, clock, actions).threads[i].pc)
    ensures UsedSince(UpdatesOf(cfg, clock, actions), LookupAt(cfg, clock, actions, i),
                      StateAfter(cfg, clock, actions).threads[i].key)
  {
    if actions != [] {
      hide NextPc, MemoryStep, GroupStep, UsedSince, UpdatesOf, UpdateBy, HasTouched;
      var before, a := actions[..|actions| - 1], actions[|actions| - 1];
      assert actions == before + [a];
      var s := StateAfter(cfg, clock, before);
      LastUpdate(cfg, clock, before, a);
      NotYetTouched();
      if i < |s.threads| && HasTouched(s.threads[i].pc) {
        LookupStays(cfg, clock, before, a, i);
        HitsUseTheirKey(cfg, clock, before, i);
        UsedSinceStays(UpdatesOf(cfg, clock, before), UpdateOf(s, a), LookupAt(cfg, clock, before, i), s.threads[i].key);
      } else if a.Step? && a.tid == i {
        TouchesFirst(s.clock, s.mem, s.group, s.threads[i], a.load);
        LookupStays(cfg, clock, before, a, i);
        LookupInPast(cfg, clock, before, i);
        UsedNow(UpdatesOf(cfg, clock, before), LookupAt(cfg, clock, before, i), s.threads[i].key);
      }
    }
  }

  lemma NotYetTouched()
    ensures !HasTouched(Lookup) && !HasTouched(Enter)
  {
  }

  lemma UsedNow(updates: seq<Update>, from: int, key: Key)
    requires from <= |updates|
    ensures UsedSince(updates + [Use(key)], from, key)
  {
    assert (updates + [Use(key)])[|updates|] == Use(key);
  }

  lemma LookupStays(cfg: Config, clock: int, before: seq<Action>, a: Action, i: nat)
    requires CanRun(cfg, clock, before) && Enabled(StateAfter(cfg, clock, before), a) && CanRun(cfg, clock, before + [a])
    requires i < |StateAfter(cfg, clock, before).threads|
    requires !StateAfter(cfg, clock, before).threads[i].pc.Lookup?
    ensures LookupAt(cfg, clock, before + [a], i) == LookupAt(cfg, clock, before, i)
  {
    assert (before + [a])[..|before|] == before;
  }

  // ---------------------------------------------------------------- every stale hit refreshes once

  function RefreshOf(key: Key): Thread -> nat
  {
    (t: Thread) => if t.role.Refresher? && t.key == key then 1 else 0
  }

  predicate IsStaleHit(pc: Pc) { pc.StaleValue? || (pc.Ended? && pc.answer.Hit? && pc.answer.stale) }

  function StaleHitOf(key: Key): Thread -> nat
  {
    (t: Thread) => if t.key == key && IsStaleHit(t.pc) then 1 else 0
  }

  lemma StaleHitBegins(clock: int, m: Memory, g: Group, t: Thread, load: Load)
    requires Ready(m, g, t.pc)
    ensures IsStaleHit(NextPc(clock, m, g, t, load)) <==> IsStaleHit(t.pc) || t.pc.StaleSpawn?
  {
  }

  lemma SpawnCounts(threads: seq<Thread>, t: Thread, step: nat, key: Key)
    ensures Sum(threads + Spawned(t, step), RefreshOf(key))
         == Sum(threads, RefreshOf(key)) + if t.pc.StaleSpawn? && t.key == key then 1 else 0
    ensures Sum(threads + Spawned(t, step), StaleHitOf(key)) == Sum(threads, StaleHitOf(key))
  {
    if t.pc.StaleSpawn? {
      AppendSum(threads, RefreshOf(key), Thread(Refresher, t.key, step, Enter));
      AppendSum(threads, StaleHitOf(key), Thread(Refresher, t.key, step, Enter));
    } else {
      assert threads + Spawned(t, step) == threads;
    }
  }

  lemma RefreshesStep(cfg: Config, s: State, a: Action, key: Key)
    requires ItemsInRange(s.mem) && Enabled(s, a)
    requires Sum(s.threads, RefreshOf(key)) == Sum(s.threads, StaleHitOf(key))
    ensures var threads := Apply(cfg, s, a).threads; Sum(threads, RefreshOf(key)) == Sum(threads, StaleHitOf(key))
  {
    hide NextPc, MemoryStep, GroupStep, Spawned, Sum, IsStaleHit;
    if a.Step? {
      var t := s.threads[a.tid];
      var next := t.(pc := NextPc(s.clock, s.mem, s.group, t, a.load));
      StaleHitBegins(s.clock, s.mem, s.group, t, a.load);
      NotYetStaleHit();
      ReplaceSum(s.threads, RefreshOf(key), a.tid, next);
      ReplaceSum(s.threads, StaleHitOf(key), a.tid, next);
      SpawnCounts(s.threads[a.tid := next], t, s.step + 1, key);
    } else if a.Call? {
      NotYetStaleHit();
      AppendSum(s.threads, RefreshOf(key), Thread(Caller(a.now), a.key, s.step + 1, Lookup));
      AppendSum(s.threads, StaleHitOf(key), Thread(Caller(a.now), a.key, s.step + 1, Lookup));
    }
  }

  lemma NotYetStaleHit()
    ensures !IsStaleHit(Lookup) && forall e :: !IsStaleHit(StaleSpawn(e))
  {
  }

  /** In every reachable state as many refreshes of a key have been started as stale hits of it have got that far. */
  lemma {:induction false} RefreshesAreStaleHits(cfg: Config, clock: int, actions: seq<Action>, key: Key)
    requires CanRun(cfg, clock, actions)
    ensures var threads := StateAfter(cfg, clock, actions).threads;
      Sum(threads, RefreshOf(key)) == Sum(threads, StaleHitOf(key))
  {
    if actions != [] {
      hide Apply, Enabled;
      var before, a := actions[..|actions| - 1], actions[|actions| - 1];
      RefreshesAreStaleHits(cfg, clock, before, key);
      RefreshesStep(cfg, StateAfter(cfg, clock, before), a, key);
    }
  }

  // ---------------------------------------------------------------- what is stored is what was loaded

  /** In step q of the run the leader of flight f was in its loader, which returned `load`. */
  predicate ReturnedAt(cfg: Config, clock: int, actions: seq<Action>, q: int, f: nat, load: Load)
  {
    && 0 <= q < |actions|
    && CanRun(cfg, clock, actions[..q])
    && actions[q].Step? && actions[q].load == load
    && actions[q].tid < |StateAfter(cfg, clock, actions[..q]).threads|
    && StateAfter(cfg, clock, actions[..q]).threads[actions[q].tid].pc == Loading(f)
  }

  ghost predicate LoaderReturned(cfg: Config, clock: int, actions: seq<Action>, f: nat, load: Load)
  {
    exists q :: ReturnedAt(cfg, clock, actions, q, f, load)
  }

  /** In step q the leader of flight f, with the loaded value in hand, read the time `at` off the clock. */
  predicate ClockReadAt(cfg: Config, clock: int, actions: seq<Action>, q: int, f: nat, value: Value, at: int)
  {
    && 0 <= q < |actions|
    && CanRun(cfg, clock, actions[..q])
    && actions[q].Step?
    && actions[q].tid < |StateAfter(cfg, clock, actions[..q]).threads|
    && StateAfter(cfg, clock, actions[..q]).threads[actions[q].tid].pc == Clock(f, value)
    && StateAfter(cfg, clock, actions[..q]).clock == at
  }

  ghost predicate ClockRead(cfg: Config, clock: int, actions: seq<Action>, f: nat, value: Value, at: int)
  {
    exists q :: ClockReadAt(cfg, clock, actions, q, f, value, at)
  }

  lemma EventsStay(cfg: Config, clock: int, actions: seq<Action>, a: Action)
    ensures forall f, load :: LoaderReturned(cfg, clock, actions, f, load) ==>
      LoaderReturned(cfg, clock, actions + [a], f, load)
    ensures forall f, value, at :: ClockRead(cfg, clock, actions, f, value, at) ==>
      ClockRead(cfg, clock, actions + [a], f, value, at)
  {
    forall f, load | LoaderReturned(cfg, clock, actions, f, load)
      ensures LoaderReturned(cfg, clock, actions + [a], f, load)
    {
      var q :| ReturnedAt(cfg, clock, actions, q, f, load);
      assert (actions + [a])[..q] == actions[..q];
      assert ReturnedAt(cfg, clock, actions + [a], q, f, load);
    }
    forall f, value, at | ClockRead(cfg, clock, actions, f, value, at)
      ensures ClockRead(cfg, clock, actions + [a], f, value, at)
    {
      var q :| ClockReadAt(cfg, clock, actions, q, f, value, at);
      assert (actions + [a])[..q] == actions[..q];
      assert ClockReadAt(cfg, clock, actions + [a], q, f, value, at);
    }
  }

  /** The value, the time and the error that a leader carries come from its loader and from the clock. */
  ghost predicate Carries(cfg: Config, clock: int, actions: seq<Action>, pc: Pc)
  {
    && (pc.Clock? || pc.Lock? || Writes(pc) ==> LoaderReturned(cfg, clock, actions, pc.f, Loaded(pc.v)))
    && (pc.Lock? || Writes(pc) ==> ClockRead(cfg, clock, actions, pc.f, pc.v, pc.at))
    && (pc.Ending? && pc.outcome.Broken? ==> LoaderReturned(cfg, clock, actions, pc.f, Failed(pc.outcome.err)))
  }

  /** Whatever is stored was loaded by its flight, and dated by the clock after the load; so was every error. */
  ghost predicate Told(cfg: Config, clock: int, actions: seq<Action>, s: State)
  {
    && (forall i :: 0 <= i < |s.threads| ==> Carries(cfg, clock, actions, s.threads[i].pc))
    && (forall x :: x in s.mem.log ==>
          && LoaderReturned(cfg, clock, actions, x.flight, Loaded(x.value))
          && ClockRead(cfg, clock, actions, x.flight, x.value, x.at))
    && (forall f :: 0 <= f < |s.group.flights| ==> ErrorTold(cfg, clock, actions, f, s.group.flights[f]))
  }

  ghost predicate ErrorTold(cfg: Config, clock: int, actions: seq<Action>, f: nat, flight: Flight)
  {
    flight.outcome.Some? && flight.outcome.value.Broken? ==>
      LoaderReturned(cfg, clock, actions, f, Failed(flight.outcome.value.err))
  }

  lemma EventNow(cfg: Config, clock: int, before: seq<Action>, a: Action)
    requires CanRun(cfg, clock, before) && Enabled(StateAfter(cfg, clock, before), a) && a.Step?
    ensures var s := StateAfter(cfg, clock, before);
      var pc := s.threads[a.tid].pc;
      && (pc.Loading? ==> LoaderReturned(cfg, clock, before + [a], pc.f, a.load))
      && (pc.Clock? ==> ClockRead(cfg, clock, before + [a], pc.f, pc.v, s.clock))
  {
    var s, actions := StateAfter(cfg, clock, before), before + [a];
    var pc := s.threads[a.tid].pc;
    assert actions[..|before|] == before;
    if pc.Loading? {
      assert ReturnedAt(cfg, clock, actions, |before|, pc.f, a.load);
    } else if pc.Clock? {
      assert ClockReadAt(cfg, clock, actions, |before|, pc.f, pc.v, s.clock);
    }
  }

  lemma CarriesNext(cfg: Config, clock: int, actions: seq<Action>, now: int, m: Memory, g: Group, t: Thread, load: Load)
    requires Ready(m, g, t.pc) && Carries(cfg, clock, actions, t.pc)
    requires t.pc.Loading? ==> LoaderReturned(cfg, clock, actions, t.pc.f, load)
    requires t.pc.Clock? ==> ClockRead(cfg, clock, actions, t.pc.f, t.pc.v, now)
    ensures Carries(cfg, clock, actions, NextPc(now, m, g, t, load))
  {
    hide LoaderReturned, ClockRead;
  }

  lemma CarriesStays(cfg: Config, clock: int, actions: seq<Action>, a: Action, pc: Pc)
    requires Carries(cfg, clock, actions, pc)
    ensures Carries(cfg, clock, actions + [a], pc)
  {
    hide LoaderReturned, ClockRead;
    EventsStay(cfg, clock, actions, a);
  }

  lemma NothingCarried(cfg: Config, clock: int, actions: seq<Action>)
    ensures Carries(cfg, clock, actions, Lookup) && Carries(cfg, clock, actions, Enter)
  {
  }

  lemma LogTold(cfg: Config, clock: int, actions: seq<Action>, m: Memory, t: Thread, tid: nat)
    requires ItemsInRange(m) && (Writes(t.pc) ==> t.pc.e < |m.cells|) && Carries(cfg, clock, actions, t.pc)
    ensures forall x :: x in MemoryStep(cfg, m, t, tid).log && x !in m.log ==>
      && LoaderReturned(cfg, clock, actions, x.flight, Loaded(x.value))
      && ClockRead(cfg, clock, actions, x.flight, x.value, x.at)
  {
    hide LoaderReturned, ClockRead, MemoryStep;
    LogStep(cfg, m, t, tid);
  }

  lemma ErrorsTold(cfg: Config, clock: int, actions: seq<Action>, g: Group, t: Thread, tid: nat, step: nat, f: nat)
    requires (Leads(t.pc) ==> t.pc.f < |g.flights|) && Carries(cfg, clock, actions, t.pc)
    requires f < |g.flights| ==> ErrorTold(cfg, clock, actions, f, g.flights[f])
    requires f < |GroupStep(g, t, tid, step).flights|
    ensures ErrorTold(cfg, clock, actions, f, GroupStep(g, t, tid, step).flights[f])
  {
    hide LoaderReturned, ClockRead;
  }

  lemma ToldStays(cfg: Config, clock: int, actions: seq<Action>, a: Action, s: State)
    requires Told(cfg, clock, actions, s)
    ensures Told(cfg, clock, actions + [a], s)
  {
    hide LoaderReturned, ClockRead;
    EventsStay(cfg, clock, actions, a);
    forall f | 0 <= f < |s.group.flights|
      ensures ErrorTold(cfg, clock, actions + [a], f, s.group.flights[f])
    {
      assert ErrorTold(cfg, clock, actions, f, s.group.flights[f]);
    }
    forall i | 0 <= i < |s.threads|
      ensures Carries(cfg, clock, actions + [a], s.threads[i].pc)
    {
      CarriesStays(cfg, clock, actions, a, s.threads[i].pc);
    }
  }

  lemma ToldStep(cfg: Config, clock: int, before: seq<Action>, a: Action)
    requires CanRun(cfg, clock, before) && Enabled(StateAfter(cfg, clock, before), a)
    requires Told(cfg, clock, before + [a], StateAfter(cfg, clock, before))
    ensures Told(cfg, clock, before + [a], Apply(cfg, StateAfter(cfg, clock, before), a))
  {
    hide LoaderReturned, ClockRead, Carries, ErrorTold, NextPc, MemoryStep, GroupStep;
    var s, actions := StateAfter(cfg, clock, before), before + [a];
    NothingCarried(cfg, clock, actions);
    if a.Step? {
      var t := s.threads[a.tid];
      EventNow(cfg, clock, before, a);
      CarriesNext(cfg, clock, actions, s.clock, s.mem, s.group, t, a.load);
      LogTold(cfg, clock, actions, s.mem, t, a.tid);
      forall f | 0 <= f < |Apply(cfg, s, a).group.flights|
        ensures ErrorTold(cfg, clock, actions, f, Apply(cfg, s, a).group.flights[f])
      {
        ErrorsTold(cfg, clock, actions, s.group, t, a.tid, s.step + 1, f);
      }
    }
  }

  lemma {:induction false} RunIsTold(cfg: Config, clock: int, actions: seq<Action>)
    requires CanRun(cfg, clock, actions)
    ensures Told(cfg, clock, actions, StateAfter(cfg, clock, actions))
  {
    if actions != [] {
      hide Told, Apply, Enabled;
      var before, a := actions[..|actions| - 1], actions[|actions| - 1];
      assert actions == before + [a];
      RunIsTold(cfg, clock, before);
      ToldStays(cfg, clock, before, a, StateAfter(cfg, clock, before));
      ToldStep(cfg, clock, before, a);
    }
  }

  /** A miss answers with what a loader returned in the flight that the call led or joined: the value, stored for
      the key under a time read off the clock after that, or the error. */
  lemma MissesReturnALoad(cfg: Config, clock: int, actions: seq<Action>, i: nat)
    requires CanRun(cfg, clock, actions) && i < |StateAfter(cfg, clock, actions).threads|
    requires StateAfter(cfg, clock, actions).threads[i].role.Caller?
    ensures var s := StateAfter(cfg, clock, actions);
      var t := s.threads[i];
      && (t.pc.Ended? && t.pc.answer.FromFlight? ==>
            var f, value := t.pc.answer.flight, t.pc.answer.value;
            && LoaderReturned(cfg, clock, actions, f, Loaded(value))
            && exists at :: Stored(t.key, value, at, f) in s.mem.log && ClockRead(cfg, clock, actions, f, value, at))
      && (t.pc.Ended? && t.pc.answer.Failure? ==>
            LoaderReturned(cfg, clock, actions, t.pc.answer.flight, Failed(t.pc.answer.err)))
  {
    hide Inv, LoaderReturned, ClockRead, Carries;
    var s := StateAfter(cfg, clock, actions);
    RunIsTold(cfg, clock, actions);
    var t := s.threads[i];
    if t.pc.Ended? && !t.pc.answer.Hit? {
      FlightOf(cfg, clock, actions, i);
      var f := t.pc.answer.flight;
      assert ErrorTold(cfg, clock, actions, f, s.group.flights[f]);
      if t.pc.answer.FromFlight? {
        var at :| Stored(t.key, t.pc.answer.value, at, f) in s.mem.log;
      }
    }
  }

  /** The flight that a miss answers from. */
  lemma FlightOf(cfg: Config, clock: int, actions: seq<Action>, i: nat)
    requires CanRun(cfg, clock, actions) && i < |StateAfter(cfg, clock, actions).threads|
    requires var pc := StateAfter(cfg, clock, actions).threads[i].pc; pc.Ended? && !pc.answer.Hit?
    ensures var s := StateAfter(cfg, clock, actions);
      var t := s.threads[i];
      && Answered(s.group, t, t.pc.answer)
      && Justified(s.mem.log, s.group.flights, t.pc.answer.flight, s.group.flights[t.pc.answer.flight].outcome.value)
  {
    RunKeepsInv(cfg, clock, actions);
    var s := StateAfter(cfg, clock, actions);
    assert Joined(s.group, s.step, s.threads[i]);
    assert Concluded(s.mem.log, s.group, s.step, s.threads[i].pc.answer.flight);
  }
}
