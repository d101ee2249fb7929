/** Singleflight in every interleaving of the concurrent cache: what a flight stores, and what its callers get. */
module CacheFlights {
  import opened Common
  import opened CacheTypes
  import opened CacheSpec
  import opened CacheProtocol
  import opened CacheSafety

  ghost predicate NothingStored(log: set<Stored>, f: nat) { forall x :: x in log ==> x.flight != f }

  /** What a flight returns fits what it stored. */
  ghost predicate Justified(log: set<Stored>, flights: seq<Flight>, f: nat, outcome: Outcome)
    requires f < |flights|
  {
    match outcome
    case Carried(value) => !flights[f].async && exists at :: Stored(flights[f].key, value, at, f) in log
    case NilValue => flights[f].async && exists value, at :: Stored(flights[f].key, value, at, f) in log
    case Broken(_) => NothingStored(log, f)
  }

  /** A flight stores at most one value, for its own key. */
  ghost predicate Logged(log: set<Stored>, g: Group)
  {
    && (forall x :: x in log ==> x.flight < |g.flights| && g.flights[x.flight].key == x.key)
    && (forall x, y :: x in log && y in log && x.flight == y.flight ==> x == y)
  }

  /** How far the leader of a flight has come. */
  ghost predicate Storing(log: set<Stored>, g: Group, t: Thread)
  {
    && (Leads(t.pc) ==> t.pc.f < |g.flights|)
    && (t.pc.Loading? || t.pc.Clock? || t.pc.Lock? || t.pc.WriteValue? ==> NothingStored(log, t.pc.f))
    && (Writes(t.pc) && !t.pc.WriteValue? ==> Stored(t.key, t.pc.v, t.pc.at, t.pc.f) in log)
    && (t.pc.Ending? ==> Justified(log, g.flights, t.pc.f, t.pc.outcome))
  }

  ghost predicate Concluded(log: set<Stored>, g: Group, step: nat, f: nat)
    requires f < |g.flights|
  {
    g.flights[f].outcome.Some? ==>
      g.flights[f].endedAt <= step && Justified(log, g.flights, f, g.flights[f].outcome.value)
  }

  /** A thread waits for, and gets the outcome of, a flight that ends after the thread started. */
  predicate Joined(g: Group, step: nat, t: Thread)
  {
    && t.startedAt <= step
    && (t.pc.Waiting? ==>
          t.pc.f < |g.flights| && (g.flights[t.pc.f].outcome.Some? ==> t.startedAt < g.flights[t.pc.f].endedAt))
    && (t.pc.Ended? && !t.pc.answer.Hit? ==> Answered(g, t, t.pc.answer))
  }

  predicate Answered(g: Group, t: Thread, answer: Answer)
    requires !answer.Hit?
  {
    && answer.flight < |g.flights|
    && var flight := g.flights[answer.flight];
       && flight.key == t.key && flight.outcome.Some?
       && t.startedAt < flight.endedAt
       && answer == AnswerOf(t.role, answer.flight, flight.outcome.value)
  }

  // ---------------------------------------------------------------- the log

  lemma LoggedStep(cfg: Config, m: Memory, g: Group, t: Thread, tid: nat, step: nat)
    requires Placed(m, g, t) && ItemsInRange(m) && LeadsFlight(g, t, tid)
    requires Logged(m.log, g) && Storing(m.log, g, t)
    ensures Logged(MemoryStep(cfg, m, t, tid).log, GroupStep(g, t, tid, step))
  {
    hide MemoryStep, GroupStep;
    LogStep(cfg, m, t, tid);
    GroupGrows(g, t, tid, step);
  }

  lemma JustifiedStays(log: set<Stored>, log': set<Stored>, g: Group, g': Group, f: nat, outcome: Outcome)
    requires f < |g.flights| && Justified(log, g.flights, f, outcome) && FlightsGrow(g, g')
    requires log <= log' && (NothingStored(log, f) ==> NothingStored(log', f))
    ensures Justified(log', g'.flights, f, outcome)
  {
    match outcome
    case Carried(value) =>
      var at :| Stored(g.flights[f].key, value, at, f) in log;
      assert Stored(g'.flights[f].key, value, at, f) in log';
    case NilValue =>
      var value, at :| Stored(g.flights[f].key, value, at, f) in log;
      assert Stored(g'.flights[f].key, value, at, f) in log';
    case Broken(_) =>
  }

  /** Only the leader of a flight stores for it. */
  lemma NothingStoredStays(cfg: Config, m: Memory, g: Group, actor: Thread, actorId: nat, f: nat)
    requires ItemsInRange(m) && Placed(m, g, actor) && LeadsFlight(g, actor, actorId)
    requires f < |g.flights| && (g.flights[f].outcome.Some? || g.flights[f].leader != actorId)
    ensures var log' := MemoryStep(cfg, m, actor, actorId).log;
      m.log <= log' && (NothingStored(m.log, f) ==> NothingStored(log', f))
  {
    LogStep(cfg, m, actor, actorId);
  }

  // ---------------------------------------------------------------- leaders

  lemma StoringStays(cfg: Config, m: Memory, g: Group, t: Thread, tid: nat, actor: Thread, actorId: nat, step: nat)
    requires Placed(m, g, t) && Placed(m, g, actor) && ItemsInRange(m) && tid != actorId
    requires LeadsFlight(g, t, tid) && LeadsFlight(g, actor, actorId) && Storing(m.log, g, t)
    ensures Storing(MemoryStep(cfg, m, actor, actorId).log, GroupStep(g, actor, actorId, step), t)
  {
    hide MemoryStep, GroupStep;
    GroupGrows(g, actor, actorId, step);
    if Leads(t.pc) {
      NothingStoredStays(cfg, m, g, actor, actorId, t.pc.f);
      if t.pc.Ending? {
        JustifiedStays(m.log, MemoryStep(cfg, m, actor, actorId).log, g, GroupStep(g, actor, actorId, step),
                       t.pc.f, t.pc.outcome);
      }
    }
  }

  lemma EndsJustified(cfg: Config, m: Memory, g: Group, t: Thread, tid: nat)
    requires Placed(m, g, t) && ItemsInRange(m) && LeadsFlight(g, t, tid) && Storing(m.log, g, t)
    requires t.pc.WriteTouch? || (t.pc.Lock? && t.key !in m.items)
    ensures Justified(MemoryStep(cfg, m, t, tid).log, g.flights, t.pc.f, OutcomeOf(t.role, t.pc.v))
  {
    hide MemoryStep;
    LogStep(cfg, m, t, tid);
    assert Stored(t.key, t.pc.v, t.pc.at, t.pc.f) in MemoryStep(cfg, m, t, tid).log;
  }

  lemma StoringNext(cfg: Config, clock: int, m: Memory, g: Group, t: Thread, tid: nat, load: Load)
    requires Placed(m, g, t) && ItemsInRange(m) && LeadsFlight(g, t, tid) && Ready(m, g, t.pc)
    requires Storing(m.log, g, t) && Leads(t.pc)
    ensures Storing(MemoryStep(cfg, m, t, tid).log, g, t.(pc := NextPc(clock, m, g, t, load)))
  {
    hide MemoryStep, Justified;
    LogStep(cfg, m, t, tid);
    if t.pc.WriteTouch? || (t.pc.Lock? && t.key !in m.items) {
      EndsJustified(cfg, m, g, t, tid);
    } else if t.pc.Loading? && load.Failed? {
      NothingStoredJustifies(m.log, g.flights, t.pc.f, load.err);
    }
  }

  lemma NothingStoredJustifies(log: set<Stored>, flights: seq<Flight>, f: nat, err: LoadError)
    requires f < |flights| && NothingStored(log, f)
    ensures Justified(log, flights, f, Broken(err))
  {
  }

  lemma StoringStarts(clock: int, m: Memory, g: Group, t: Thread, tid: nat, step: nat, load: Load)
    requires Ready(m, g, t.pc) && !Leads(t.pc) && Logged(m.log, g)
    ensures Storing(m.log, GroupStep(g, t, tid, step), t.(pc := NextPc(clock, m, g, t, load)))
  {
  }

  lemma StoringAfter(cfg: Config, s: State, tid: nat, load: Load)
    requires Linked(s) && Led(s) && tid < |s.threads| && Ready(s.mem, s.group, s.threads[tid].pc)
    requires Storing(s.mem.log, s.group, s.threads[tid]) && Logged(s.mem.log, s.group)
    ensures var t := s.threads[tid];
      Storing(MemoryStep(cfg, s.mem, t, tid).log, GroupStep(s.group, t, tid, s.step + 1),
              t.(pc := NextPc(s.clock, s.mem, s.group, t, load)))
  {
    hide MemoryStep, NextPc, Justified, Attended, InFlightLinked, Logged;
    var t := s.threads[tid];
    LogStep(cfg, s.mem, t, tid);
    if !Leads(t.pc) {
      StoringStarts(s.clock, s.mem, s.group, t, tid, s.step + 1, load);
    } else if t.pc.Ending? {
      EndingWaits(s.clock, s.mem, s.group, t, load);
    } else {
      StoringNext(cfg, s.clock, s.mem, s.group, t, tid, load);
    }
  }

  lemma EndingWaits(clock: int, m: Memory, g: Group, t: Thread, load: Load)
    requires Ready(m, g, t.pc) && t.pc.Ending?
    ensures NextPc(clock, m, g, t, load) == Waiting(t.pc.f)
  {
  }

  // ---------------------------------------------------------------- flights

  lemma ConcludedStep(cfg: Config, m: Memory, g: Group, t: Thread, tid: nat, step: nat, f: nat)
    requires Placed(m, g, t) && ItemsInRange(m) && LeadsFlight(g, t, tid) && Storing(m.log, g, t)
    requires f < |g.flights| && Concluded(m.log, g, step, f)
    ensures f < |GroupStep(g, t, tid, step + 1).flights|
    ensures Concluded(MemoryStep(cfg, m, t, tid).log, GroupStep(g, t, tid, step + 1), step + 1, f)
  {
    hide MemoryStep;
    var m', g' := MemoryStep(cfg, m, t, tid), GroupStep(g, t, tid, step + 1);
    GroupGrows(g, t, tid, step + 1);
    if g.flights[f].outcome.Some? {
      NothingStoredStays(cfg, m, g, t, tid, f);
      JustifiedStays(m.log, m'.log, g, g', f, g.flights[f].outcome.value);
    } else if t.pc.Ending? && t.pc.f == f {
      LogStep(cfg, m, t, tid);
      JustifiedStays(m.log, m'.log, g, g', f, t.pc.outcome);
    }
  }

  lemma NotYetConcluded(g: Group, t: Thread, tid: nat, step: nat, f: nat)
    requires Leads(t.pc) ==> t.pc.f < |g.flights|
    requires |g.flights| <= f < |GroupStep(g, t, tid, step + 1).flights|
    ensures GroupStep(g, t, tid, step + 1).flights[f].outcome == None
  {
  }

  lemma JoinedStays(g: Group, t: Thread, actor: Thread, actorId: nat, step: nat)
    requires Joined(g, step, t) && LeadsFlight(g, actor, actorId)
    ensures Joined(GroupStep(g, actor, actorId, step + 1), step + 1, t)
  {
  }

  /** Only Do makes a thread wait, or ends it without a hit. */
  lemma NeedNotJoin(clock: int, m: Memory, g: Group, t: Thread, load: Load)
    requires Ready(m, g, t.pc) && !t.pc.Enter? && !t.pc.Ending? && !t.pc.Waiting?
    ensures var pc := NextPc(clock, m, g, t, load); !pc.Waiting? && (pc.Ended? ==> pc.answer.Hit?)
  {
  }

  lemma JoinedNext(m: Memory, clock: int, g: Group, t: Thread, tid: nat, step: nat, load: Load)
    requires Placed(m, g, t) && InFlightLinked(g) && Ready(m, g, t.pc) && LeadsFlight(g, t, tid)
    requires Joined(g, step, t)
    ensures Joined(GroupStep(g, t, tid, step + 1), step + 1, t.(pc := NextPc(clock, m, g, t, load)))
  {
    hide Reads, NeedsLock, NextPc;
    if t.pc.Waiting? {
      WaitingEnds(clock, m, g, t, load);
    } else if t.pc.Ending? {
      EndingWaits(clock, m, g, t, load);
    } else if t.pc.Enter? {
      EnterJoins(clock, m, g, t, load);
    } else {
      NeedNotJoin(clock, m, g, t, load);
    }
  }

  lemma WaitingEnds(clock: int, m: Memory, g: Group, t: Thread, load: Load)
    requires Ready(m, g, t.pc) && t.pc.Waiting?
    ensures NextPc(clock, m, g, t, load) == Ended(AnswerOf(t.role, t.pc.f, g.flights[t.pc.f].outcome.value))
  {
  }

  lemma EnterJoins(clock: int, m: Memory, g: Group, t: Thread, load: Load)
    requires Ready(m, g, t.pc) && t.pc.Enter?
    ensures NextPc(clock, m, g, t, load) ==
      if t.key in g.inFlight then Waiting(g.inFlight[t.key]) else Loading(|g.flights|)
  {
  }

  // ---------------------------------------------------------------- every step

  ghost predicate Flying(s: State)
  {
    && Logged(s.mem.log, s.group)
    && (forall f :: 0 <= f < |s.group.flights| ==> Concluded(s.mem.log, s.group, s.step, f))
    && (forall i :: 0 <= i < |s.threads| ==> Storing(s.mem.log, s.group, s.threads[i]))
    && (forall i :: 0 <= i < |s.threads| ==> Joined(s.group, s.step, s.threads[i]))
  }

  lemma FlightsStep(cfg: Config, s: State, a: Action)
    requires Linked(s) && Led(s) && Flying(s) && Enabled(s, a)
    ensures var s' := Apply(cfg, s, a);
      forall f :: 0 <= f < |s'.group.flights| ==> Concluded(s'.mem.log, s'.group, s'.step, f)
  {
    hide GroupStep, MemoryStep, NextPc, Justified, Storing, Joined, Logged;
    var s' := Apply(cfg, s, a);
    forall f | 0 <= f < |s'.group.flights|
      ensures Concluded(s'.mem.log, s'.group, s'.step, f)
    {
      if !a.Step? {
        assert Concluded(s.mem.log, s.group, s.step, f);
      } else if f < |s.group.flights| {
        ConcludedStep(cfg, s.mem, s.group, s.threads[a.tid], a.tid, s.step, f);
      } else {
        NotYetConcluded(s.group, s.threads[a.tid], a.tid, s.step, f);
      }
    }
  }

  lemma LeadersStep(cfg: Config, s: State, a: Action)
    requires Linked(s) && Led(s) && Flying(s) && Enabled(s, a)
    ensures var s' := Apply(cfg, s, a);
      forall i :: 0 <= i < |s'.threads| ==> Storing(s'.mem.log, s'.group, s'.threads[i])
  {
    hide GroupStep, MemoryStep, NextPc, Justified, Joined, Concluded, Logged;
    if a.Step? {
      StoringAfter(cfg, s, a.tid, a.load);
      forall i | 0 <= i < |s.threads| && i != a.tid
        ensures Storing(Apply(cfg, s, a).mem.log, Apply(cfg, s, a).group, s.threads[i])
      {
        StoringStays(cfg, s.mem, s.group, s.threads[i], i, s.threads[a.tid], a.tid, s.step + 1);
      }
    }
  }

  lemma CallersStep(cfg: Config, s: State, a: Action)
    requires Linked(s) && Led(s) && Flying(s) && Enabled(s, a)
    ensures var s' := Apply(cfg, s, a);
      forall i :: 0 <= i < |s'.threads| ==> Joined(s'.group, s'.step, s'.threads[i])
  {
    hide GroupStep, MemoryStep, NextPc, Justified, Storing, Concluded, Logged;
    var s' := Apply(cfg, s, a);
    if a.Step? {
      JoinedNext(s.mem, s.clock, s.group, s.threads[a.tid], a.tid, s.step, a.load);
    }
    forall i | 0 <= i < |s.threads| && !(a.Step? && i == a.tid)
      ensures Joined(s'.group, s'.step, s.threads[i])
    {
      if a.Step? {
        JoinedStays(s.group, s.threads[i], s.threads[a.tid], a.tid, s.step);
      }
    }
  }

  lemma FlyingStep(cfg: Config, s: State, a: Action)
    requires Linked(s) && Led(s) && Flying(s) && Enabled(s, a)
    ensures Flying(Apply(cfg, s, a))
  {
    hide GroupStep, MemoryStep, NextPc, Justified, Storing, Joined, Concluded;
    FlightsStep(cfg, s, a);
    LeadersStep(cfg, s, a);
    CallersStep(cfg, s, a);
    if a.Step? {
      LoggedStep(cfg, s.mem, s.group, s.threads[a.tid], a.tid, s.step + 1);
    }
  }
}
