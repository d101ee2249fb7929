/** What every step of the concurrent cache keeps. */
module CacheSafety {
  import opened Common
  import opened CacheTypes
  import opened CacheSpec
  import opened CacheProtocol

  // ---------------------------------------------------------------- what no step takes back

  ghost predicate CellsGrow(m: Memory, m': Memory)
  {
    && |m.cells| <= |m'.cells|
    && (forall e :: 0 <= e < |m.cells| ==> m'.cells[e].key == m.cells[e].key)
    && m.log <= m'.log
  }

  ghost predicate FlightsGrow(g: Group, g': Group)
  {
    && |g.flights| <= |g'.flights|
    && forall f :: 0 <= f < |g.flights| ==>
         && g'.flights[f].key == g.flights[f].key
         && g'.flights[f].leader == g.flights[f].leader
         && g'.flights[f].async == g.flights[f].async
         && (g.flights[f].outcome.Some? ==> g'.flights[f] == g.flights[f])
  }

  /** A step of a thread writes one field of an entry, or adds an entry, or leaves all entries alone. */
  lemma CellsStep(cfg: Config, m: Memory, t: Thread, tid: nat)
    requires ItemsInRange(m) && (Writes(t.pc) ==> t.pc.e < |m.cells|)
    ensures MemoryStep(cfg, m, t, tid).cells ==
      if Writes(t.pc) then m.cells[t.pc.e := Written(cfg, m.cells[t.pc.e], t.pc)]
      else if t.pc.Lock? && t.key !in m.items then m.cells + [NewCell(cfg, t.key, t.pc.v, t.pc.at)]
      else m.cells
  {
  }

  predicate LogsNow(m: Memory, t: Thread) { t.pc.WriteValue? || (t.pc.Lock? && t.key !in m.items) }

  lemma LogStep(cfg: Config, m: Memory, t: Thread, tid: nat)
    requires ItemsInRange(m) && (Writes(t.pc) ==> t.pc.e < |m.cells|)
    ensures MemoryStep(cfg, m, t, tid).log ==
      if LogsNow(m, t) then m.log + {Stored(t.key, t.pc.v, t.pc.at, t.pc.f)} else m.log
  {
  }

  lemma MemoryGrows(cfg: Config, m: Memory, t: Thread, tid: nat)
    requires ItemsInRange(m) && (Writes(t.pc) ==> t.pc.e < |m.cells|)
    ensures CellsGrow(m, MemoryStep(cfg, m, t, tid))
  {
    hide MemoryStep;
    CellsStep(cfg, m, t, tid);
    LogStep(cfg, m, t, tid);
  }

  lemma GroupGrows(g: Group, t: Thread, tid: nat, step: nat)
    requires Leads(t.pc) ==> t.pc.f < |g.flights| && g.flights[t.pc.f].outcome == None
    ensures FlightsGrow(g, GroupStep(g, t, tid, step))
  {
  }

  // ---------------------------------------------------------------- references

  /** The entry and the flight a thread refers to exist and are those of its key; a refresh never reads. */
  predicate Placed(m: Memory, g: Group, t: Thread)
  {
    && InRange(m, g, t.pc)
    && (Reads(t.pc) || Writes(t.pc) ==> m.cells[t.pc.e].key == t.key)
    && (Leads(t.pc) || t.pc.Waiting? ==> g.flights[t.pc.f].key == t.key)
    && (t.role.Refresher? ==> !t.pc.Lookup? && !Reads(t.pc))
  }

  ghost predicate ItemsLinked(m: Memory)
  {
    forall key :: key in m.items ==> m.items[key] < |m.cells| && m.cells[m.items[key]].key == key
  }

  ghost predicate InFlightLinked(g: Group)
  {
    forall key :: key in g.inFlight ==>
      && g.inFlight[key] < |g.flights|
      && g.flights[g.inFlight[key]].key == key
      && g.flights[g.inFlight[key]].outcome == None
  }

  ghost predicate Linked(s: State)
  {
    && ItemsLinked(s.mem)
    && InFlightLinked(s.group)
    && forall i :: 0 <= i < |s.threads| ==> Placed(s.mem, s.group, s.threads[i])
  }

  lemma PlacedStays(m: Memory, m': Memory, g: Group, g': Group, t: Thread)
    requires Placed(m, g, t) && CellsGrow(m, m') && FlightsGrow(g, g')
    ensures Placed(m', g', t)
  {
  }

  lemma PlacedNext(clock: int, m: Memory, g: Group, t: Thread, tid: nat, step: nat, load: Load)
    requires Placed(m, g, t) && ItemsLinked(m) && InFlightLinked(g) && Ready(m, g, t.pc)
    ensures var t' := t.(pc := NextPc(clock, m, g, t, load));
      if t.pc.Enter? then Placed(m, GroupStep(g, t, tid, step), t') else Placed(m, g, t')
  {
  }

  lemma PlacedAfter(cfg: Config, s: State, tid: nat, load: Load)
    requires Linked(s) && Led(s) && tid < |s.threads| && Ready(s.mem, s.group, s.threads[tid].pc)
    ensures var t := s.threads[tid];
      Placed(MemoryStep(cfg, s.mem, t, tid), GroupStep(s.group, t, tid, s.step + 1),
             t.(pc := NextPc(s.clock, s.mem, s.group, t, load)))
  {
    hide NextPc, GroupStep, MemoryStep;
    var t := s.threads[tid];
    var m', g', t' := MemoryStep(cfg, s.mem, t, tid), GroupStep(s.group, t, tid, s.step + 1),
                      t.(pc := NextPc(s.clock, s.mem, s.group, t, load));
    MemoryGrows(cfg, s.mem, t, tid);
    GroupGrows(s.group, t, tid, s.step + 1);
    PlacedNext(s.clock, s.mem, s.group, t, tid, s.step + 1, load);
    if t.pc.Enter? {
      assert FlightsGrow(g', g');
      PlacedStays(s.mem, m', g', g', t');
    } else {
      PlacedStays(s.mem, m', s.group, g', t');
    }
  }

  lemma InsertLinked(cfg: Config, m: Memory, key: Key, value: Value, at: int, flight: nat)
    requires ItemsLinked(m)
    ensures ItemsLinked(Insert(cfg, m, key, value, at, flight))
  {
    var room := if cfg.maxItems > 0 && |m.items| >= cfg.maxItems then EvictLast(m) else m;
    assert ItemsLinked(room);
  }

  lemma ItemsLinkedStep(cfg: Config, m: Memory, t: Thread, tid: nat)
    requires ItemsLinked(m) && (Writes(t.pc) ==> t.pc.e < |m.cells|)
    ensures ItemsLinked(MemoryStep(cfg, m, t, tid))
  {
    hide Insert, Records;
    if t.pc.Lock? {
      InsertLinked(cfg, m, t.key, t.pc.v, t.pc.at, t.pc.f);
    }
  }

  lemma InFlightLinkedStep(m: Memory, g: Group, t: Thread, tid: nat, step: nat)
    requires InFlightLinked(g) && Placed(m, g, t) && LeadsFlight(g, t, tid)
    ensures InFlightLinked(GroupStep(g, t, tid, step))
  {
  }

  lemma AllPlacedStep(cfg: Config, s: State, a: Action)
    requires Linked(s) && Led(s) && Enabled(s, a) && a.Step?
    ensures var s' := Apply(cfg, s, a); forall i :: 0 <= i < |s'.threads| ==> Placed(s'.mem, s'.group, s'.threads[i])
  {
    hide GroupStep, MemoryStep, NextPc;
    var t, s' := s.threads[a.tid], Apply(cfg, s, a);
    MemoryGrows(cfg, s.mem, t, a.tid);
    GroupGrows(s.group, t, a.tid, s.step + 1);
    PlacedAfter(cfg, s, a.tid, a.load);
    forall i | 0 <= i < |s.threads| && i != a.tid
      ensures Placed(s'.mem, s'.group, s.threads[i])
    {
      PlacedStays(s.mem, s'.mem, s.group, s'.group, s.threads[i]);
    }
  }

  lemma LinkedStep(cfg: Config, s: State, a: Action)
    requires Linked(s) && Led(s) && Enabled(s, a)
    ensures Linked(Apply(cfg, s, a))
  {
    hide GroupStep, MemoryStep, NextPc;
    if a.Step? {
      ItemsLinkedStep(cfg, s.mem, s.threads[a.tid], a.tid);
      InFlightLinkedStep(s.mem, s.group, s.threads[a.tid], a.tid, s.step + 1);
      AllPlacedStep(cfg, s, a);
    }
  }

  // ---------------------------------------------------------------- one leader a key

  /** A thread that runs the function of a flight leads it, and the flight is the one under way for its key. */
  predicate LeadsFlight(g: Group, t: Thread, tid: nat)
  {
    Leads(t.pc) ==>
      && t.key in g.inFlight && g.inFlight[t.key] == t.pc.f < |g.flights|
      && g.flights[t.pc.f] == Flight(t.key, tid, t.role.Refresher?, None, 0)
  }

  /** A flight that has not ended has a thread that runs it. */
  predicate Attended(threads: seq<Thread>, g: Group, f: nat)
    requires f < |g.flights|
  {
    var i := g.flights[f].leader;
    g.flights[f].outcome == None ==> i < |threads| && Leads(threads[i].pc) && threads[i].pc.f == f
  }

  ghost predicate Led(s: State)
  {
    && (forall i :: 0 <= i < |s.threads| ==> LeadsFlight(s.group, s.threads[i], i))
    && (forall f :: 0 <= f < |s.group.flights| ==> Attended(s.threads, s.group, f))
  }

  lemma LeadsStays(g: Group, t: Thread, tid: nat, actor: Thread, actorId: nat, step: nat)
    requires LeadsFlight(g, t, tid) && LeadsFlight(g, actor, actorId) && tid != actorId
    ensures LeadsFlight(GroupStep(g, actor, actorId, step), t, tid)
  {
  }

  lemma LeadsNext(cfg: Config, s: State, tid: nat, load: Load)
    requires Linked(s) && tid < |s.threads| && Ready(s.mem, s.group, s.threads[tid].pc)
    requires LeadsFlight(s.group, s.threads[tid], tid)
    ensures var t := s.threads[tid];
      LeadsFlight(GroupStep(s.group, t, tid, s.step + 1),
                  t.(pc := NextPc(s.clock, s.mem, s.group, t, load)), tid)
  {
  }

  lemma KeepsLeading(clock: int, m: Memory, g: Group, t: Thread, load: Load)
    requires Ready(m, g, t.pc) && Leads(t.pc) && !t.pc.Ending?
    ensures var pc := NextPc(clock, m, g, t, load); Leads(pc) && pc.f == t.pc.f
  {
  }

  lemma AttendedStep(cfg: Config, s: State, a: Action, f: nat)
    requires Linked(s) && Led(s) && Enabled(s, a) && a.Step? && f < |s.group.flights|
    ensures Attended(Apply(cfg, s, a).threads, Apply(cfg, s, a).group, f)
  {
    hide MemoryStep, NextPc;
    var t := s.threads[a.tid];
    assert Attended(s.threads, s.group, f);
    assert LeadsFlight(s.group, t, a.tid);
    if Leads(t.pc) && !t.pc.Ending? {
      KeepsLeading(s.clock, s.mem, s.group, t, a.load);
    }
  }

  lemma AttendedNew(cfg: Config, s: State, a: Action, f: nat)
    requires Linked(s) && Led(s) && Enabled(s, a) && a.Step?
    requires |s.group.flights| <= f < |Apply(cfg, s, a).group.flights|
    ensures Attended(Apply(cfg, s, a).threads, Apply(cfg, s, a).group, f)
  {
    hide MemoryStep;
  }

  lemma LedStep(cfg: Config, s: State, a: Action)
    requires Linked(s) && Led(s) && Enabled(s, a)
    ensures Led(Apply(cfg, s, a))
  {
    hide GroupStep, MemoryStep, NextPc;
    var s' := Apply(cfg, s, a);
    forall f | 0 <= f < |s'.group.flights|
      ensures Attended(s'.threads, s'.group, f)
    {
      if !a.Step? {
        assert Attended(s.threads, s.group, f);
      } else if f < |s.group.flights| {
        AttendedStep(cfg, s, a, f);
      } else {
        AttendedNew(cfg, s, a, f);
      }
    }
    if a.Step? {
      LeadsNext(cfg, s, a.tid, a.load);
      forall i | 0 <= i < |s.threads| && i != a.tid
        ensures LeadsFlight(s'.group, s.threads[i], i)
      {
        LeadsStays(s.group, s.threads[i], i, s.threads[a.tid], a.tid, s.step + 1);
      }
    }
  }

  // ---------------------------------------------------------------- the write lock

  predicate LockFits(m: Memory, t: Thread, tid: nat)
  {
    && (Writes(t.pc) <==> m.lock.Some? && m.lock.value.tid == tid)
    && (Writes(t.pc) ==> t.key in m.items && m.items[t.key] == t.pc.e)
  }

  ghost predicate Locked(s: State)
  {
    && (s.mem.lock.Some? ==> s.mem.lock.value.tid < |s.threads|)
    && (forall i :: 0 <= i < |s.threads| ==> LockFits(s.mem, s.threads[i], i))
  }

  lemma LockFitsNext(cfg: Config, s: State, tid: nat, load: Load)
    requires Linked(s) && tid < |s.threads| && Ready(s.mem, s.group, s.threads[tid].pc)
    requires LockFits(s.mem, s.threads[tid], tid)
    ensures var t, m' := s.threads[tid], MemoryStep(cfg, s.mem, s.threads[tid], tid);
      && LockFits(m', t.(pc := NextPc(s.clock, s.mem, s.group, t, load)), tid)
      && (m'.lock.Some? ==> m'.lock == s.mem.lock || m'.lock.value.tid == tid)
  {
  }

  lemma LockFitsStays(cfg: Config, m: Memory, g: Group, t: Thread, tid: nat, actor: Thread, actorId: nat)
    requires LockFits(m, t, tid) && LockFits(m, actor, actorId) && tid != actorId
    requires ItemsInRange(m) && Ready(m, g, actor.pc)
    ensures LockFits(MemoryStep(cfg, m, actor, actorId), t, tid)
  {
  }

  lemma LockedStep(cfg: Config, s: State, a: Action)
    requires Linked(s) && Locked(s) && Enabled(s, a)
    ensures Locked(Apply(cfg, s, a))
  {
    hide GroupStep, MemoryStep, NextPc;
    if a.Step? {
      LockFitsNext(cfg, s, a.tid, a.load);
      forall i | 0 <= i < |s.threads| && i != a.tid
        ensures LockFits(Apply(cfg, s, a).mem, s.threads[i], i)
      {
        LockFitsStays(cfg, s.mem, s.group, s.threads[i], i, s.threads[a.tid], a.tid);
      }
    }
  }
}
