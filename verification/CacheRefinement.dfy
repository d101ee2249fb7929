/** In every interleaving the lock makes the cache behave as its operations on values, one at a time. */
module CacheRefinement {
  import opened Common
  import opened CacheTypes
  import opened CacheSpec
  import opened CacheProtocol
  import opened CacheSafety
  import opened CacheLaws

  /** The update that a step completes: an update in place takes effect at once, when the lock is released. */
  function UpdateOf(s: State, a: Action): Update
    requires Enabled(s, a)
  {
    match a
    case Delete(key) => Forget(key)
    case Purge => Clear
    case Step(tid, _) => UpdateBy(s.mem, s.threads[tid])
    case _ => Nothing
  }

  function UpdateBy(m: Memory, t: Thread): Update
  {
    if t.pc.FreshTouch? || t.pc.StaleTouch? then Use(t.key)
    else if t.pc.WriteTouch? || (t.pc.Lock? && t.key !in m.items) then Put(t.key, t.pc.v, t.pc.at)
    else Nothing
  }

  // ---------------------------------------------------------------- updates in place

  /** The record of the key after the steps of the update in place that are done. */
  function Partial(cfg: Config, record: Record, pc: Pc): Record
    requires Writes(pc)
  {
    match pc
    case WriteValue(_, _, _, _) => record
    case WriteExpires(_, v, _, _) => record.(value := v)
    case WriteStale(_, v, at, _) => record.(value := v, expiresAt := at + cfg.ttl)
    case WriteHas(_, v, at, _) => NewRecord(cfg, v, at)
    case WriteTouch(_, v, at, _) => NewRecord(cfg, v, at)
  }

  /** The lock holder has changed the record of its key, as far as it has come, and nothing else. */
  ghost predicate Midway(cfg: Config, m: Memory, t: Thread)
    requires ItemsInRange(m)
  {
    Writes(t.pc) ==>
      && m.lock.Some?
      && var before := m.lock.value.before;
         && t.key in before.records
         && View(m) == before.(records := before.records[t.key := Partial(cfg, before.records[t.key], t.pc)])
  }

  ghost predicate InPlace(cfg: Config, s: State)
    requires ItemsInRange(s.mem)
  {
    forall i :: 0 <= i < |s.threads| ==> Midway(cfg, s.mem, s.threads[i])
  }

  lemma ViewWritten(m: Memory, key: Key, cell: Cell)
    requires ItemsLinked(m) && key in m.items
    ensures var m' := m.(cells := m.cells[m.items[key] := cell]);
      View(m') == View(m).(records := View(m).records[key := RecordOf(cell)])
  {
  }

  /** While a thread holds the lock no other changes the cache. */
  lemma OthersWait(cfg: Config, m: Memory, g: Group, t: Thread, tid: nat, actor: Thread, actorId: nat)
    requires LockFits(m, t, tid) && LockFits(m, actor, actorId) && tid != actorId && Writes(t.pc)
    requires ItemsInRange(m) && Ready(m, g, actor.pc)
    ensures MemoryStep(cfg, m, actor, actorId) == m
  {
  }

  lemma MidwayStarts(cfg: Config, m: Memory, t: Thread, tid: nat)
    requires ItemsInRange(m) && t.pc.Lock? && t.key in m.items
    ensures var m' := MemoryStep(cfg, m, t, tid);
      Midway(cfg, m', t.(pc := WriteValue(t.pc.f, t.pc.v, t.pc.at, m.items[t.key])))
  {
    var before := View(m);
    assert before.records[t.key := before.records[t.key]] == before.records;
  }

  lemma MidwayContinues(cfg: Config, clock: int, m: Memory, g: Group, t: Thread, tid: nat, load: Load)
    requires ItemsLinked(m) && LockFits(m, t, tid) && Ready(m, g, t.pc)
    requires Midway(cfg, m, t) && Writes(t.pc) && !t.pc.WriteTouch?
    ensures ItemsInRange(MemoryStep(cfg, m, t, tid))
    ensures Midway(cfg, MemoryStep(cfg, m, t, tid), t.(pc := NextPc(clock, m, g, t, load)))
  {
    hide View;
    ViewWritten(m, t.key, Written(cfg, m.cells[t.pc.e], t.pc));
    ViewIgnoresLog(m.(cells := m.cells[t.pc.e := Written(cfg, m.cells[t.pc.e], t.pc)]), MemoryStep(cfg, m, t, tid));
    ViewAt(m, t.key);
  }

  lemma ViewIgnoresLog(m: Memory, m': Memory)
    requires ItemsInRange(m) && m'.cells == m.cells && m'.items == m.items && m'.recency == m.recency
    ensures View(m') == View(m)
  {
  }

  lemma ViewAt(m: Memory, key: Key)
    requires ItemsInRange(m) && key in m.items
    ensures key in View(m).records && View(m).records[key] == RecordOf(m.cells[m.items[key]])
  {
  }

  lemma BeginsWriting(clock: int, m: Memory, g: Group, t: Thread, load: Load)
    requires Ready(m, g, t.pc) && !Writes(t.pc)
    ensures var pc := NextPc(clock, m, g, t, load);
      if t.pc.Lock? && t.key in m.items then pc == WriteValue(t.pc.f, t.pc.v, t.pc.at, m.items[t.key])
      else !Writes(pc)
  {
  }

  lemma StopsWriting(clock: int, m: Memory, g: Group, t: Thread, load: Load)
    requires Ready(m, g, t.pc) && t.pc.WriteTouch?
    ensures !Writes(NextPc(clock, m, g, t, load))
  {
  }

  lemma MidwayNext(cfg: Config, s: State, a: Action)
    requires Linked(s) && Locked(s) && InPlace(cfg, s) && Enabled(s, a) && a.Step?
    ensures ItemsInRange(Apply(cfg, s, a).mem)
    ensures Midway(cfg, Apply(cfg, s, a).mem, Apply(cfg, s, a).threads[a.tid])
  {
    hide NextPc, View, GroupStep, MemoryStep, Partial;
    ItemsStayInRange(cfg, s, a);
    var t := s.threads[a.tid];
    if t.pc.WriteTouch? {
      StopsWriting(s.clock, s.mem, s.group, t, a.load);
    } else if Writes(t.pc) {
      MidwayContinues(cfg, s.clock, s.mem, s.group, t, a.tid, a.load);
    } else {
      BeginsWriting(s.clock, s.mem, s.group, t, a.load);
      if t.pc.Lock? && t.key in s.mem.items {
        MidwayStarts(cfg, s.mem, t, a.tid);
      }
    }
  }

  lemma InPlaceStep(cfg: Config, s: State, a: Action)
    requires Linked(s) && Locked(s) && InPlace(cfg, s) && Enabled(s, a)
    ensures ItemsInRange(Apply(cfg, s, a).mem)
    ensures InPlace(cfg, Apply(cfg, s, a))
  {
    hide NextPc, View, GroupStep, MemoryStep, Partial;
    ItemsStayInRange(cfg, s, a);
    var s' := Apply(cfg, s, a);
    if a.Step? {
      MidwayNext(cfg, s, a);
    }
    forall i | 0 <= i < |s.threads| && !(a.Step? && i == a.tid)
      ensures Midway(cfg, s'.mem, s.threads[i])
    {
      assert LockFits(s.mem, s.threads[i], i);
      if a.Step? && Writes(s.threads[i].pc) {
        OthersWait(cfg, s.mem, s.group, s.threads[i], i, s.threads[a.tid], a.tid);
      }
    }
  }

  // ---------------------------------------------------------------- every step is an update of the store

  lemma RecordsDropped(cells: seq<Cell>, items: map<Key, nat>, key: Key)
    requires Within(items, |cells|)
    ensures Within(Drop(items, key), |cells|) && Records(cells, Drop(items, key)) == Drop(Records(cells, items), key)
  {
  }

  lemma ViewDropped(m: Memory, key: Key, recency: seq<Key>)
    requires ItemsInRange(m)
    ensures Within(Drop(m.items, key), |m.cells|)
    ensures View(m.(items := Drop(m.items, key), recency := recency)) == Store(Drop(View(m).records, key), recency)
  {
    RecordsDropped(m.cells, m.items, key);
  }

  lemma EvictIsEvict(m: Memory)
    requires ItemsInRange(m)
    ensures ItemsInRange(EvictLast(m)) && View(EvictLast(m)) == EvictOne(View(m))
  {
    hide View;
    ViewKeys(m);
    if m.recency != [] {
      ViewDropped(m, m.recency[|m.recency| - 1], m.recency[..|m.recency| - 1]);
    }
  }

  lemma PushIsPut(m: Memory, cell: Cell)
    requires ItemsInRange(m)
    ensures ItemsInRange(PushCell(m, cell))
    ensures View(PushCell(m, cell)) == Store(View(m).records[cell.key := RecordOf(cell)], [cell.key] + m.recency)
  {
    assert View(PushCell(m, cell)).records == View(m).records[cell.key := RecordOf(cell)];
  }

  lemma ViewKeys(m: Memory)
    requires ItemsInRange(m)
    ensures View(m).records.Keys == m.items.Keys && |View(m).records| == |m.items|
    ensures View(m).recency == m.recency
  {
    assert |View(m).records| == |View(m).records.Keys|;
    assert |m.items| == |m.items.Keys|;
  }

  lemma InsertIsSet(cfg: Config, m: Memory, key: Key, value: Value, at: int, flight: nat)
    requires ItemsInRange(m) && key !in m.items
    ensures ItemsInRange(Insert(cfg, m, key, value, at, flight))
    ensures View(Insert(cfg, m, key, value, at, flight)) == Set(cfg, View(m), key, value, at)
  {
    hide View, EvictLast, EvictOne, PushCell;
    var room := if cfg.maxItems > 0 && |m.items| >= cfg.maxItems then EvictLast(m) else m;
    var cell := NewCell(cfg, key, value, at);
    ViewKeys(m);
    EvictIsEvict(m);
    ViewKeys(room);
    PushIsPut(room, cell);
    ViewIgnoresLog(PushCell(room, cell), Insert(cfg, m, key, value, at, flight));
  }

  lemma TouchIsTouch(m: Memory, key: Key)
    requires ItemsInRange(m)
    ensures ItemsInRange(TouchKey(m, key)) && View(TouchKey(m, key)) == Touch(View(m), key)
  {
  }

  lemma ReleaseIsSet(cfg: Config, m: Memory, t: Thread, tid: nat)
    requires ItemsLinked(m) && LockFits(m, t, tid) && Midway(cfg, m, t) && t.pc.WriteTouch?
    ensures ItemsInRange(MemoryStep(cfg, m, t, tid))
    ensures Contents(MemoryStep(cfg, m, t, tid)) == Set(cfg, m.lock.value.before, t.key, t.pc.v, t.pc.at)
  {
    var m' := MemoryStep(cfg, m, t, tid);
    assert View(m').records == View(m).records;
  }

  lemma ThreadRefines(cfg: Config, m: Memory, g: Group, t: Thread, tid: nat)
    requires ItemsLinked(m) && LockFits(m, t, tid) && Midway(cfg, m, t) && Ready(m, g, t.pc)
    ensures ItemsInRange(MemoryStep(cfg, m, t, tid))
    ensures Contents(MemoryStep(cfg, m, t, tid)) == Updated(cfg, Contents(m), UpdateBy(m, t))
  {
    hide View, Insert, Touch, Set, Records;
    if t.pc.FreshTouch? || t.pc.StaleTouch? {
      TouchIsTouch(m, t.key);
    } else if t.pc.Lock? {
      if t.key !in m.items {
        InsertIsSet(cfg, m, t.key, t.pc.v, t.pc.at, t.pc.f);
      }
    } else if t.pc.WriteTouch? {
      ReleaseIsSet(cfg, m, t, tid);
    }
  }

  lemma DeleteRefines(m: Memory, key: Key)
    requires ItemsInRange(m) && key in m.items
    ensures Within(Drop(m.items, key), |m.cells|)
    ensures View(m.(items := Drop(m.items, key), recency := Removed(m.recency, key))) == CacheSpec.Delete(View(m), key)
  {
    hide View, Drop;
    ViewKeys(m);
    ViewDropped(m, key, Removed(m.recency, key));
  }

  lemma PurgeRefines(m: Memory)
    requires ItemsInRange(m)
    ensures View(m.(items := map[], recency := [])) == Purged()
  {
    assert Records(m.cells, map[]) == map[];
  }

  /** Every step changes the contents by the update it completes, and by nothing else. */
  lemma StepRefines(cfg: Config, s: State, a: Action)
    requires Linked(s) && Locked(s) && InPlace(cfg, s) && Enabled(s, a)
    ensures ItemsInRange(Apply(cfg, s, a).mem)
    ensures Contents(Apply(cfg, s, a).mem) == Updated(cfg, Contents(s.mem), UpdateOf(s, a))
  {
    hide View, MemoryStep, GroupStep, NextPc, UpdateBy, Midway, LockFits, Placed, Drop, Removed;
    if a.Step? {
      ThreadRefines(cfg, s.mem, s.group, s.threads[a.tid], a.tid);
    } else if a.Purge? {
      PurgeRefines(s.mem);
    } else if a.Delete? {
      ViewKeys(s.mem);
      if a.key in s.mem.items {
        DeleteRefines(s.mem, a.key);
      }
    }
  }
}
