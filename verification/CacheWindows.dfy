/** The windows of the concurrent cache's entries, told from the sets of the run. */
module CacheWindows {
  import opened CacheTypes
  import opened CacheSpec
  import opened CacheProtocol
  import opened CacheSafety
  import opened CacheFreshness
  import opened CacheRefinement
  import opened CacheRuns
  import opened CacheHistory

  /** The entry's windows end ttl and ttl + staleExtension after the set that wrote its value. */
  predicate Exact(cfg: Config, c: Cell)
  {
    c.expiresAt == c.writtenAt + cfg.ttl && c.staleUntil == c.writtenAt + cfg.ttl + cfg.staleExtension
  }

  /** The lock is held for an update in place of entry e. */
  predicate BeingWritten(s: State, e: nat)
  {
    && s.mem.lock.Some?
    && s.mem.lock.value.tid < |s.threads|
    && var pc := s.threads[s.mem.lock.value.tid].pc;
       Writes(pc) && pc.e == e
  }

  /** The lock is held for an update in place of the key's entry. */
  predicate Overwriting(s: State, key: Key)
  {
    && s.mem.lock.Some?
    && s.mem.lock.value.tid < |s.threads|
    && s.threads[s.mem.lock.value.tid].key == key
  }

  /** The windows that an update in place has written so far. */
  predicate Windowed(cfg: Config, m: Memory, t: Thread)
  {
    && (t.pc.WriteStale? || t.pc.WriteHas? || t.pc.WriteTouch? ==>
          t.pc.e < |m.cells| && m.cells[t.pc.e].expiresAt == t.pc.at + cfg.ttl)
    && (t.pc.WriteHas? || t.pc.WriteTouch? ==> m.cells[t.pc.e].staleUntil == t.pc.at + cfg.ttl + cfg.staleExtension)
  }

  ghost predicate AllExact(cfg: Config, s: State)
  {
    && (forall e :: 0 <= e < |s.mem.cells| ==> Exact(cfg, s.mem.cells[e]) || BeingWritten(s, e))
    && (forall i :: 0 <= i < |s.threads| ==> Windowed(cfg, s.mem, s.threads[i]))
  }

  lemma WindowedNext(cfg: Config, clock: int, m: Memory, g: Group, t: Thread, tid: nat, load: Load)
    requires ItemsInRange(m) && Ready(m, g, t.pc) && Windowed(cfg, m, t)
    ensures Windowed(cfg, MemoryStep(cfg, m, t, tid), t.(pc := NextPc(clock, m, g, t, load)))
  {
    hide MemoryStep;
    CellsStep(cfg, m, t, tid);
  }

  lemma WindowedStays(cfg: Config, m: Memory, g: Group, t: Thread, tid: nat, actor: Thread, actorId: nat)
    requires LockFits(m, t, tid) && LockFits(m, actor, actorId) && tid != actorId
    requires ItemsInRange(m) && Ready(m, g, actor.pc) && Windowed(cfg, m, t)
    ensures Windowed(cfg, MemoryStep(cfg, m, actor, actorId), t)
  {
    if Writes(t.pc) {
      OthersWait(cfg, m, g, t, tid, actor, actorId);
    }
  }

  /** A step leaves an entry as it is, or makes it exact, or leaves it to the thread's next step. */
  lemma ExactCell(cfg: Config, clock: int, m: Memory, g: Group, t: Thread, tid: nat, load: Load, e: nat)
    requires ItemsInRange(m) && Ready(m, g, t.pc) && Windowed(cfg, m, t) && Timely(clock, m, t)
    requires e < |MemoryStep(cfg, m, t, tid).cells|
    ensures var m', pc := MemoryStep(cfg, m, t, tid), NextPc(clock, m, g, t, load);
      || (e < |m.cells| && m'.cells[e] == m.cells[e] && !(Writes(t.pc) && t.pc.e == e))
      || Exact(cfg, m'.cells[e])
      || (Writes(pc) && pc.e == e)
  {
    hide MemoryStep;
    CellsStep(cfg, m, t, tid);
  }

  lemma ExactAfterThread(cfg: Config, s: State, a: Action, e: nat)
    requires Inv(cfg, s) && AllExact(cfg, s) && Enabled(s, a) && a.Step? && e < |Apply(cfg, s, a).mem.cells|
    ensures var s' := Apply(cfg, s, a); Exact(cfg, s'.mem.cells[e]) || BeingWritten(s', e)
  {
    hide Inv, MemoryStep, GroupStep, NextPc, Exact, Timely;
    InvAt(cfg, s, a.tid);
    var t, s' := s.threads[a.tid], Apply(cfg, s, a);
    ClockedAt(cfg, s, a.tid);
    ExactCell(cfg, s.clock, s.mem, s.group, t, a.tid, a.load, e);
    InvStep(cfg, s, a);
    InvAt(cfg, s', a.tid);
    if e < |s.mem.cells| && BeingWritten(s, e) && s.mem.lock.value.tid != a.tid {
      var i := s.mem.lock.value.tid;
      InvAt(cfg, s, i);
      OthersWait(cfg, s.mem, s.group, s.threads[i], i, t, a.tid);
    }
  }

  lemma ClockedAt(cfg: Config, s: State, i: nat)
    requires Inv(cfg, s) && i < |s.threads|
    ensures Timely(s.clock, s.mem, s.threads[i])
  {
  }

  lemma InvInRange(cfg: Config, s: State)
    requires Inv(cfg, s)
    ensures ItemsInRange(s.mem)
  {
  }

  lemma AllExactStep(cfg: Config, s: State, a: Action)
    requires Inv(cfg, s) && AllExact(cfg, s) && Enabled(s, a)
    ensures AllExact(cfg, Apply(cfg, s, a))
  {
    hide Inv, MemoryStep, GroupStep, NextPc, Exact, Windowed;
    InvInRange(cfg, s);
    var s' := Apply(cfg, s, a);
    forall e | 0 <= e < |s'.mem.cells|
      ensures Exact(cfg, s'.mem.cells[e]) || BeingWritten(s', e)
    {
      if a.Step? {
        ExactAfterThread(cfg, s, a, e);
      }
    }
    forall i | 0 <= i < |s'.threads|
      ensures Windowed(cfg, s'.mem, s'.threads[i])
    {
      WindowedAfter(cfg, s, a, i);
    }
  }

  lemma WindowedAfter(cfg: Config, s: State, a: Action, i: nat)
    requires Inv(cfg, s) && AllExact(cfg, s) && Enabled(s, a) && i < |Apply(cfg, s, a).threads|
    ensures Windowed(cfg, Apply(cfg, s, a).mem, Apply(cfg, s, a).threads[i])
  {
    hide Inv, MemoryStep, GroupStep, NextPc, Exact;
    if a.Step? {
      InvAt(cfg, s, a.tid);
      if i == a.tid {
        WindowedNext(cfg, s.clock, s.mem, s.group, s.threads[i], i, a.load);
      } else if i < |s.threads| {
        InvAt(cfg, s, i);
        WindowedStays(cfg, s.mem, s.group, s.threads[i], i, s.threads[a.tid], a.tid);
      }
    }
  }

  /** In every reachable state an entry that is not being overwritten is exact, whether it is still stored or not. */
  lemma {:induction false} EntriesAreExact(cfg: Config, clock: int, actions: seq<Action>)
    requires CanRun(cfg, clock, actions)
    ensures AllExact(cfg, StateAfter(cfg, clock, actions))
  {
    if actions != [] {
      hide Inv, AllExact, Apply, Enabled;
      var before, a := actions[..|actions| - 1], actions[|actions| - 1];
      EntriesAreExact(cfg, clock, before);
      RunKeepsInv(cfg, clock, before);
      AllExactStep(cfg, StateAfter(cfg, clock, before), a);
    }
  }

  /** While nobody overwrites a stored key's entry, its value is that of the latest set of the key, and its windows
      end ttl and ttl + staleExtension after that set. */
  lemma StoredWindows(cfg: Config, clock: int, actions: seq<Action>, key: Key)
    requires CanRun(cfg, clock, actions)
    requires key in StateAfter(cfg, clock, actions).mem.items && !Overwriting(StateAfter(cfg, clock, actions), key)
    ensures LatestSet(cfg, clock, actions, key).Some?
    ensures var m, latest := StateAfter(cfg, clock, actions).mem, LatestSet(cfg, clock, actions, key).value;
      var c := m.cells[m.items[key]];
      && c.value == latest.value
      && c.expiresAt == latest.at + cfg.ttl
      && c.staleUntil == latest.at + cfg.ttl + cfg.staleExtension
  {
    hide Inv;
    var s := StateAfter(cfg, clock, actions);
    RunKeepsInv(cfg, clock, actions);
    EntriesAreExact(cfg, clock, actions);
    StoredIsLatest(cfg, clock, actions, key);
    if BeingWritten(s, s.mem.items[key]) {
      InvAt(cfg, s, s.mem.lock.value.tid);
    }
  }
}
