/** Freshness of hits in every interleaving of the concurrent cache. */
module CacheFreshness {
  import opened CacheTypes
  import opened CacheSpec
  import opened CacheProtocol
  import opened CacheSafety

  // ---------------------------------------------------------------- entries

  /** The windows of an entry never reach past those of the value it holds, even in the middle of an update. */
  ghost predicate Backed(cfg: Config, clock: int, log: set<Stored>, c: Cell)
  {
    && c.hasValue
    && c.expiresAt <= c.writtenAt + cfg.ttl
    && c.staleUntil <= c.writtenAt + cfg.ttl + cfg.staleExtension
    && c.writtenAt <= clock
    && exists f :: Stored(c.key, c.value, c.writtenAt, f) in log
  }

  ghost predicate NotBefore(m: Memory, key: Key, at: int)
  {
    forall e :: 0 <= e < |m.cells| && m.cells[e].key == key ==> m.cells[e].writtenAt <= at
  }

  /** The time that a set read is not older than any entry of its key: the sets of a key do not overlap. */
  ghost predicate Timely(clock: int, m: Memory, t: Thread)
  {
    && (t.pc.Lock? || t.pc.WriteValue? ==> t.pc.at <= clock && NotBefore(m, t.key, t.pc.at))
    && (Writes(t.pc) && !t.pc.WriteValue? ==> t.pc.e < |m.cells| && m.cells[t.pc.e].writtenAt == t.pc.at)
  }

  ghost predicate Clocked(cfg: Config, s: State)
  {
    && (forall e :: 0 <= e < |s.mem.cells| ==> Backed(cfg, s.clock, s.mem.log, s.mem.cells[e]))
    && (forall i :: 0 <= i < |s.threads| ==> Timely(s.clock, s.mem, s.threads[i]))
  }

  ghost predicate AllBacked(cfg: Config, clock: int, m: Memory)
  {
    forall e :: 0 <= e < |m.cells| ==> Backed(cfg, clock, m.log, m.cells[e])
  }

  lemma BackedStays(cfg: Config, clock: int, clock': int, log: set<Stored>, log': set<Stored>, c: Cell)
    requires Backed(cfg, clock, log, c) && clock <= clock' && log <= log'
    ensures Backed(cfg, clock', log', c)
  {
    var f :| Stored(c.key, c.value, c.writtenAt, f) in log;
    assert Stored(c.key, c.value, c.writtenAt, f) in log';
  }

  lemma BackedWritten(cfg: Config, clock: int, m: Memory, g: Group, t: Thread, tid: nat)
    requires Placed(m, g, t) && Writes(t.pc) && Timely(clock, m, t) && Backed(cfg, clock, m.log, m.cells[t.pc.e])
    requires ItemsInRange(m)
    ensures Backed(cfg, clock, MemoryStep(cfg, m, t, tid).log, Written(cfg, m.cells[t.pc.e], t.pc))
  {
    hide MemoryStep;
    LogStep(cfg, m, t, tid);
    var log' := MemoryStep(cfg, m, t, tid).log;
    var c := m.cells[t.pc.e];
    if t.pc.WriteValue? {
      assert Stored(t.key, t.pc.v, t.pc.at, t.pc.f) in log';
    } else {
      var f :| Stored(c.key, c.value, c.writtenAt, f) in m.log;
      assert Stored(c.key, c.value, c.writtenAt, f) in log';
    }
  }

  lemma BackedStep(cfg: Config, clock: int, m: Memory, g: Group, t: Thread, tid: nat)
    requires Placed(m, g, t) && AllBacked(cfg, clock, m) && Timely(clock, m, t) && ItemsInRange(m)
    ensures AllBacked(cfg, clock, MemoryStep(cfg, m, t, tid))
  {
    hide MemoryStep;
    var m' := MemoryStep(cfg, m, t, tid);
    CellsStep(cfg, m, t, tid);
    LogStep(cfg, m, t, tid);
    forall e | 0 <= e < |m'.cells|
      ensures Backed(cfg, clock, m'.log, m'.cells[e])
    {
      if e == |m.cells| {
        assert Stored(t.key, t.pc.v, t.pc.at, t.pc.f) in m'.log;
      } else if Writes(t.pc) && t.pc.e == e {
        BackedWritten(cfg, clock, m, g, t, tid);
      } else {
        BackedStays(cfg, clock, clock, m.log, m'.log, m.cells[e]);
      }
    }
  }

  /** Entries are only ever overwritten by later sets. */
  ghost predicate Ages(m: Memory, m': Memory)
  {
    |m.cells| <= |m'.cells| && forall e :: 0 <= e < |m.cells| ==> m.cells[e].writtenAt <= m'.cells[e].writtenAt
  }

  lemma MemoryAges(cfg: Config, clock: int, m: Memory, g: Group, t: Thread, tid: nat)
    requires Placed(m, g, t) && Timely(clock, m, t) && ItemsInRange(m)
    ensures Ages(m, MemoryStep(cfg, m, t, tid))
  {
    hide MemoryStep;
    CellsStep(cfg, m, t, tid);
  }

  lemma NotBeforeNow(cfg: Config, clock: int, m: Memory, key: Key)
    requires AllBacked(cfg, clock, m)
    ensures NotBefore(m, key, clock)
  {
  }

  lemma TimelyNext(cfg: Config, clock: int, m: Memory, g: Group, t: Thread, tid: nat, load: Load)
    requires Placed(m, g, t) && ItemsLinked(m) && Ready(m, g, t.pc)
    requires Timely(clock, m, t) && AllBacked(cfg, clock, m)
    ensures Timely(clock, MemoryStep(cfg, m, t, tid), t.(pc := NextPc(clock, m, g, t, load)))
  {
    hide AllBacked, MemoryStep;
    CellsStep(cfg, m, t, tid);
    if t.pc.Clock? {
      NotBeforeNow(cfg, clock, m, t.key);
    } else if t.pc.Lock? {
      assert NotBefore(m, t.key, t.pc.at);
    }
  }

  lemma TimelyStays(cfg: Config, clock: int, m: Memory, g: Group, t: Thread, tid: nat, actor: Thread, actorId: nat)
    requires Placed(m, g, t) && Placed(m, g, actor) && ItemsInRange(m) && tid != actorId
    requires LeadsFlight(g, t, tid) && LeadsFlight(g, actor, actorId)
    requires Timely(clock, m, t)
    ensures Timely(clock, MemoryStep(cfg, m, actor, actorId), t)
  {
    hide MemoryStep;
    CellsStep(cfg, m, actor, actorId);
  }

  lemma AllTimelyStep(cfg: Config, s: State, a: Action)
    requires Linked(s) && Led(s) && Clocked(cfg, s) && Enabled(s, a) && a.Step?
    ensures var s' := Apply(cfg, s, a); forall i :: 0 <= i < |s'.threads| ==> Timely(s'.clock, s'.mem, s'.threads[i])
  {
    hide GroupStep, MemoryStep, NextPc, Backed;
    TimelyNext(cfg, s.clock, s.mem, s.group, s.threads[a.tid], a.tid, a.load);
    forall i | 0 <= i < |s.threads| && i != a.tid
      ensures Timely(s.clock, Apply(cfg, s, a).mem, s.threads[i])
    {
      TimelyStays(cfg, s.clock, s.mem, s.group, s.threads[i], i, s.threads[a.tid], a.tid);
    }
  }

  lemma ClockedOtherwise(cfg: Config, s: State, a: Action)
    requires ItemsInRange(s.mem) && Clocked(cfg, s) && Enabled(s, a) && !a.Step?
    ensures Clocked(cfg, Apply(cfg, s, a))
  {
    hide Backed;
    var s' := Apply(cfg, s, a);
    forall e | 0 <= e < |s.mem.cells|
      ensures Backed(cfg, s'.clock, s'.mem.log, s.mem.cells[e])
    {
      BackedStays(cfg, s.clock, s'.clock, s.mem.log, s'.mem.log, s.mem.cells[e]);
    }
  }

  lemma ClockedStep(cfg: Config, s: State, a: Action)
    requires Linked(s) && Led(s) && Clocked(cfg, s) && Enabled(s, a)
    ensures Clocked(cfg, Apply(cfg, s, a))
  {
    hide GroupStep, MemoryStep, NextPc, Backed, Timely, Led;
    if a.Step? {
      BackedStep(cfg, s.clock, s.mem, s.group, s.threads[a.tid], a.tid);
      AllTimelyStep(cfg, s, a);
    } else {
      ClockedOtherwise(cfg, s, a);
    }
  }

  // ---------------------------------------------------------------- readers

  /** The value was stored for the key at a time whose window reaches past `now`. */
  ghost predicate WithinWindow(log: set<Stored>, key: Key, value: Value, now: int, window: int)
  {
    exists at, f :: Stored(key, value, at, f) in log && now < at + window
  }

  function WindowOf(cfg: Config, stale: bool): int { if stale then cfg.ttl + cfg.staleExtension else cfg.ttl }

  predicate FoundFresh(pc: Pc) { pc.FreshTouch? || pc.FreshValue? }

  predicate FoundStale(pc: Pc) { pc.StaleTouch? || pc.StaleSpawn? || pc.StaleValue? }

  /** A reader past its check holds an entry whose window reaches past `now`; a hit got such a value. */
  ghost predicate Reading(cfg: Config, m: Memory, t: Thread)
  {
    && (FoundFresh(t.pc) ==>
          t.pc.e < |m.cells| && NowOf(t.role) < m.cells[t.pc.e].writtenAt + WindowOf(cfg, false))
    && (FoundStale(t.pc) ==>
          t.pc.e < |m.cells| && NowOf(t.role) < m.cells[t.pc.e].writtenAt + WindowOf(cfg, true))
    && (t.pc.Ended? && t.pc.answer.Hit? ==>
          && t.role.Caller?
          && WithinWindow(m.log, t.key, t.pc.answer.value, t.role.now, WindowOf(cfg, t.pc.answer.stale)))
  }

  lemma ReadingStays(cfg: Config, m: Memory, m': Memory, t: Thread)
    requires Reading(cfg, m, t) && Ages(m, m') && m.log <= m'.log
    ensures Reading(cfg, m', t)
  {
    if t.pc.Ended? && t.pc.answer.Hit? {
      var hit := t.pc.answer;
      var at, f :| Stored(t.key, hit.value, at, f) in m.log && t.role.now < at + WindowOf(cfg, hit.stale);
      assert Stored(t.key, hit.value, at, f) in m'.log;
    }
  }

  lemma ReadingNext(cfg: Config, clock: int, m: Memory, g: Group, t: Thread, load: Load)
    requires Placed(m, g, t) && Ready(m, g, t.pc) && Reading(cfg, m, t) && AllBacked(cfg, clock, m)
    ensures Reading(cfg, m, t.(pc := NextPc(clock, m, g, t, load)))
  {
    if t.pc.FreshValue? || t.pc.StaleValue? {
      var c := m.cells[t.pc.e];
      assert Backed(cfg, clock, m.log, c);
      var f :| Stored(c.key, c.value, c.writtenAt, f) in m.log;
      assert Stored(t.key, c.value, c.writtenAt, f) in m.log;
    }
  }

  ghost predicate AllReading(cfg: Config, s: State)
  {
    forall i :: 0 <= i < |s.threads| ==> Reading(cfg, s.mem, s.threads[i])
  }

  lemma AllReadingStep(cfg: Config, s: State, a: Action)
    requires Linked(s) && Clocked(cfg, s) && AllReading(cfg, s) && Enabled(s, a)
    ensures AllReading(cfg, Apply(cfg, s, a))
  {
    hide GroupStep, MemoryStep, NextPc, Backed;
    var s' := Apply(cfg, s, a);
    if a.Step? {
      var t := s.threads[a.tid];
      MemoryAges(cfg, s.clock, s.mem, s.group, t, a.tid);
      MemoryGrows(cfg, s.mem, t, a.tid);
      ReadingNext(cfg, s.clock, s.mem, s.group, t, a.load);
      ReadingStays(cfg, s.mem, s'.mem, s'.threads[a.tid]);
    }
    forall i | 0 <= i < |s.threads| && !(a.Step? && i == a.tid)
      ensures Reading(cfg, s'.mem, s'.threads[i])
    {
      ReadingStays(cfg, s.mem, s'.mem, s.threads[i]);
    }
  }
}
