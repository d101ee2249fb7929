/** The cache under concurrency: callers, background refreshes, flights and field accesses as atomic steps.

    A thread is a call of GetOrLoad or of refreshAsync. The read lock and the write lock exclude each other; the
    fast path reads entry fields after it has released the lock, and `set` overwrites them one by one. Fields that
    only record what happened: `writtenAt`, `log`, `step`, `startedAt`, `endedAt`, and `before` of the holder. */
module CacheProtocol {
  import opened Common
  import opened CacheTypes
  import opened CacheSpec

  /** An entry of the cache; `writtenAt` is the time of the set that wrote the value. */
  datatype Cell = Cell(key: Key, value: Value, expiresAt: int, staleUntil: int, hasValue: bool, writtenAt: int)

  /** A value was stored for a key by the set at time `at` of a flight. */
  datatype Stored = Stored(key: Key, value: Value, at: int, flight: nat)

  /** What the function of a flight returned; refreshAsync's returns a nil interface. */
  datatype Outcome = Carried(value: Value) | NilValue | Broken(err: LoadError)

  /** A call of singleflight.Do that runs its function. */
  datatype Flight = Flight(key: Key, leader: nat, async: bool, outcome: Option<Outcome>, endedAt: nat)

  datatype Role = Caller(now: int) | Refresher

  /** How a thread ended: a hit, or the outcome of the flight it led or joined. */
  datatype Answer =
    | Hit(value: Value, stale: bool)
    | FromFlight(flight: nat, value: Value)
    | Failure(flight: nat, err: LoadError)
    | Panic(flight: nat)
    | Finished(flight: nat)

  /** The next step of a thread, with what it has read so far. */
  datatype Pc =
    | Lookup
    | FreshHas(e: nat) | FreshExpires(e: nat) | FreshTouch(e: nat) | FreshValue(e: nat)
    | StaleHas(e: nat) | StaleUntil(e: nat) | StaleTouch(e: nat) | StaleSpawn(e: nat) | StaleValue(e: nat)
    | Enter
    | Loading(f: nat)
    | Clock(f: nat, v: Value)
    | Lock(f: nat, v: Value, at: int)
    | WriteValue(f: nat, v: Value, at: int, e: nat)
    | WriteExpires(f: nat, v: Value, at: int, e: nat)
    | WriteStale(f: nat, v: Value, at: int, e: nat)
    | WriteHas(f: nat, v: Value, at: int, e: nat)
    | WriteTouch(f: nat, v: Value, at: int, e: nat)
    | Ending(f: nat, outcome: Outcome)
    | Waiting(f: nat)
    | Ended(answer: Answer)

  datatype Thread = Thread(role: Role, key: Key, startedAt: nat, pc: Pc)

  /** Who holds the write lock for an update in place, and the store it found. */
  datatype Holder = Holder(tid: nat, before: Store)

  /** The cache's own fields. */
  datatype Memory = Memory(
    cells: seq<Cell>, items: map<Key, nat>, recency: seq<Key>, lock: Option<Holder>, log: set<Stored>)

  /** The singleflight group: every flight so far, and the one under way for a key. */
  datatype Group = Group(flights: seq<Flight>, inFlight: map<Key, nat>)

  datatype State = State(clock: int, step: nat, threads: seq<Thread>, mem: Memory, group: Group)

  function Initial(clock: int): State
  {
    State(clock, 0, [], Memory([], map[], [], None, {}), Group([], map[]))
  }

  datatype Action =
    | Tick(duration: nat)
    | Call(key: Key, now: int)
    | Delete(key: Key)
    | Purge
    | Step(tid: nat, load: Load)

  // ---------------------------------------------------------------- the store a lock holder sees

  predicate Within(items: map<Key, nat>, n: nat) { forall key :: key in items ==> items[key] < n }

  predicate ItemsInRange(m: Memory) { Within(m.items, |m.cells|) }

  function RecordOf(cell: Cell): Record { Record(cell.value, cell.expiresAt, cell.staleUntil) }

  function Records(cells: seq<Cell>, items: map<Key, nat>): (r: map<Key, Record>)
    requires Within(items, |cells|)
    ensures forall key :: key in r <==> key in items
    ensures forall key :: key in items ==> r[key] == RecordOf(cells[items[key]])
  {
    map key | key in items :: RecordOf(cells[items[key]])
  }

  function View(m: Memory): Store
    requires ItemsInRange(m)
  {
    Store(Records(m.cells, m.items), m.recency)
  }

  /** The store as anyone who takes the lock finds it: an update in place counts only when it is complete. */
  function Contents(m: Memory): Store
    requires ItemsInRange(m)
  {
    if m.lock.Some? then m.lock.value.before else View(m)
  }

  // ---------------------------------------------------------------- what a thread is doing

  predicate NeedsLock(pc: Pc) { pc.Lookup? || pc.FreshTouch? || pc.StaleTouch? || pc.Lock? }

  /** Between the lookup and the end of a hit, with entry pc.e in hand. */
  predicate Reads(pc: Pc)
  {
    || pc.FreshHas? || pc.FreshExpires? || pc.FreshTouch? || pc.FreshValue?
    || pc.StaleHas? || pc.StaleUntil? || pc.StaleTouch? || pc.StaleSpawn? || pc.StaleValue?
  }

  /** In the middle of an update in place of entry pc.e, holding the write lock. */
  predicate Writes(pc: Pc)
  {
    pc.WriteValue? || pc.WriteExpires? || pc.WriteStale? || pc.WriteHas? || pc.WriteTouch?
  }

  /** Running the function of flight pc.f. */
  predicate Leads(pc: Pc) { pc.Loading? || pc.Clock? || pc.Lock? || Writes(pc) || pc.Ending? }

  /** The entry and the flight a thread refers to exist. */
  predicate InRange(m: Memory, g: Group, pc: Pc)
  {
    && (Reads(pc) || Writes(pc) ==> pc.e < |m.cells|)
    && (Leads(pc) || pc.Waiting? ==> pc.f < |g.flights|)
  }

  predicate Enabled(s: State, a: Action)
  {
    match a
    case Tick(_) => true
    case Call(_, _) => true
    case Delete(_) => s.mem.lock == None
    case Purge => s.mem.lock == None
    case Step(tid, _) => tid < |s.threads| && Ready(s.mem, s.group, s.threads[tid].pc)
  }

  predicate Ready(m: Memory, g: Group, pc: Pc)
  {
    && InRange(m, g, pc) && !pc.Ended?
    && (NeedsLock(pc) ==> m.lock == None)
    && (pc.Waiting? ==> g.flights[pc.f].outcome.Some?)
  }

  // ---------------------------------------------------------------- a step of a thread

  function NowOf(role: Role): int { if role.Caller? then role.now else 0 }

  /** What the function of a flight returns once it has stored the value. */
  function OutcomeOf(role: Role, value: Value): Outcome
  {
    if role.Caller? then Carried(value) else NilValue
  }

  /** What Do's caller makes of the outcome: line 115 asserts that it is a V, and panics on nil. */
  function AnswerOf(role: Role, f: nat, outcome: Outcome): Answer
  {
    if role.Refresher? then Finished(f)
    else
      match outcome
      case Broken(err) => Failure(f, err)
      case Carried(value) => FromFlight(f, value)
      case NilValue => Panic(f)
  }

  /** Where the step leads: the reads of the fast path, the phases of Do and of `set`. */
  function NextPc(clock: int, m: Memory, g: Group, t: Thread, load: Load): Pc
    requires Ready(m, g, t.pc)
  {
    match t.pc
    case Lookup => if t.key in m.items then FreshHas(m.items[t.key]) else Enter
    case FreshHas(e) => if m.cells[e].hasValue then FreshExpires(e) else StaleHas(e)
    case FreshExpires(e) => if NowOf(t.role) < m.cells[e].expiresAt then FreshTouch(e) else StaleHas(e)
    case FreshTouch(e) => FreshValue(e)
    case FreshValue(e) => Ended(Hit(m.cells[e].value, false))
    case StaleHas(e) => if m.cells[e].hasValue then StaleUntil(e) else Enter
    case StaleUntil(e) => if NowOf(t.role) < m.cells[e].staleUntil then StaleTouch(e) else Enter
    case StaleTouch(e) => StaleSpawn(e)
    case StaleSpawn(e) => StaleValue(e)
    case StaleValue(e) => Ended(Hit(m.cells[e].value, true))
    case Enter => if t.key in g.inFlight then Waiting(g.inFlight[t.key]) else Loading(|g.flights|)
    case Loading(f) => (match load case Loaded(v) => Clock(f, v) case Failed(err) => Ending(f, Broken(err)))
    case Clock(f, v) => Lock(f, v, clock)
    case Lock(f, v, at) =>
      if t.key in m.items then WriteValue(f, v, at, m.items[t.key]) else Ending(f, OutcomeOf(t.role, v))
    case WriteValue(f, v, at, e) => WriteExpires(f, v, at, e)
    case WriteExpires(f, v, at, e) => WriteStale(f, v, at, e)
    case WriteStale(f, v, at, e) => WriteHas(f, v, at, e)
    case WriteHas(f, v, at, e) => WriteTouch(f, v, at, e)
    case WriteTouch(f, v, at, e) => Ending(f, OutcomeOf(t.role, v))
    case Ending(f, outcome) => Waiting(f)
    case Waiting(f) => Ended(AnswerOf(t.role, f, g.flights[f].outcome.value))
  }

  function TouchKey(m: Memory, key: Key): Memory
  {
    if key in m.items then m.(recency := Touched(m.recency, key)) else m
  }

  function EvictLast(m: Memory): Memory
  {
    if m.recency == [] then m
    else
      var n := |m.recency| - 1;
      m.(items := Drop(m.items, m.recency[n]), recency := m.recency[..n])
  }

  function PushCell(m: Memory, cell: Cell): Memory
  {
    m.(cells := m.cells + [cell], items := m.items[cell.key := |m.cells|], recency := [cell.key] + m.recency)
  }

  function NewCell(cfg: Config, key: Key, value: Value, at: int): Cell
  {
    Cell(key, value, at + cfg.ttl, at + (cfg.ttl + cfg.staleExtension), true, at)
  }

  /** `set` for a key that is not stored, in one step: no other thread can see the new entry before the last. */
  function Insert(cfg: Config, m: Memory, key: Key, value: Value, at: int, flight: nat): (after: Memory)
    ensures after.lock == m.lock
  {
    var room := if cfg.maxItems > 0 && |m.items| >= cfg.maxItems then EvictLast(m) else m;
    PushCell(room, NewCell(cfg, key, value, at)).(log := m.log + {Stored(key, value, at, flight)})
  }

  /** The field that a step of the update in place assigns. */
  function Written(cfg: Config, cell: Cell, pc: Pc): Cell
    requires Writes(pc)
  {
    match pc
    case WriteValue(f, v, at, e) => cell.(value := v, writtenAt := at)
    case WriteExpires(f, v, at, e) => cell.(expiresAt := at + cfg.ttl)
    case WriteStale(f, v, at, e) => cell.(staleUntil := at + (cfg.ttl + cfg.staleExtension))
    case WriteHas(f, v, at, e) => cell.(hasValue := true)
    case WriteTouch(f, v, at, e) => cell
  }

  /** What the step does to the cache: touch, insert, or update in place field by field under the lock. */
  function MemoryStep(cfg: Config, m: Memory, t: Thread, tid: nat): Memory
    requires ItemsInRange(m)
    requires Writes(t.pc) ==> t.pc.e < |m.cells|
  {
    if t.pc.FreshTouch? || t.pc.StaleTouch? then TouchKey(m, t.key)
    else if t.pc.Lock? then
      if t.key in m.items then m.(lock := Some(Holder(tid, View(m))))
      else Insert(cfg, m, t.key, t.pc.v, t.pc.at, t.pc.f)
    else if t.pc.WriteTouch? then m.(recency := Touched(m.recency, t.key), lock := None)
    else if Writes(t.pc) then
      m.(cells := m.cells[t.pc.e := Written(cfg, m.cells[t.pc.e], t.pc)],
         log := m.log + if t.pc.WriteValue? then {Stored(t.key, t.pc.v, t.pc.at, t.pc.f)} else {})
    else m
  }

  /** What the step does to the group: a flight starts, or ends with an outcome. */
  function GroupStep(g: Group, t: Thread, tid: nat, step: nat): Group
    requires Leads(t.pc) ==> t.pc.f < |g.flights|
  {
    if t.pc.Enter? && t.key !in g.inFlight then
      Group(g.flights + [Flight(t.key, tid, t.role.Refresher?, None, 0)], g.inFlight[t.key := |g.flights|])
    else if t.pc.Ending? then
      var ended := g.flights[t.pc.f].(outcome := Some(t.pc.outcome), endedAt := step);
      Group(g.flights[t.pc.f := ended], Drop(g.inFlight, t.key))
    else g
  }

  /** A stale hit starts a refresh in the background. */
  function Spawned(t: Thread, step: nat): seq<Thread>
  {
    if t.pc.StaleSpawn? then [Thread(Refresher, t.key, step, Enter)] else []
  }

  function Apply(cfg: Config, s: State, a: Action): State
    requires ItemsInRange(s.mem) && Enabled(s, a)
  {
    var step := s.step + 1;
    match a
    case Tick(duration) => s.(step := step, clock := s.clock + duration)
    case Call(key, now) => s.(step := step, threads := s.threads + [Thread(Caller(now), key, step, Lookup)])
    case Delete(key) =>
      if key !in s.mem.items then s.(step := step)
      else s.(step := step, mem := s.mem.(items := Drop(s.mem.items, key), recency := Removed(s.mem.recency, key)))
    case Purge => s.(step := step, mem := s.mem.(items := map[], recency := []))
    case Step(tid, load) =>
      var t := s.threads[tid];
      var next := t.(pc := NextPc(s.clock, s.mem, s.group, t, load));
      s.(step := step, threads := s.threads[tid := next] + Spawned(t, step),
         mem := MemoryStep(cfg, s.mem, t, tid),
         group := GroupStep(s.group, t, tid, step))
  }

  lemma InsertInRange(cfg: Config, m: Memory, key: Key, value: Value, at: int, flight: nat)
    requires ItemsInRange(m)
    ensures ItemsInRange(Insert(cfg, m, key, value, at, flight))
  {
    var room := if cfg.maxItems > 0 && |m.items| >= cfg.maxItems then EvictLast(m) else m;
    assert ItemsInRange(room);
  }

  lemma MemoryInRange(cfg: Config, m: Memory, t: Thread, tid: nat)
    requires ItemsInRange(m) && (Writes(t.pc) ==> t.pc.e < |m.cells|)
    ensures ItemsInRange(MemoryStep(cfg, m, t, tid))
  {
    hide Insert, Records;
    if t.pc.Lock? {
      InsertInRange(cfg, m, t.key, t.pc.v, t.pc.at, t.pc.f);
    }
  }

  lemma ItemsStayInRange(cfg: Config, s: State, a: Action)
    requires ItemsInRange(s.mem) && Enabled(s, a)
    ensures ItemsInRange(Apply(cfg, s, a).mem)
  {
    hide MemoryStep, GroupStep, NextPc, Records;
    if a.Step? {
      MemoryInRange(cfg, s.mem, s.threads[a.tid], a.tid);
    }
  }

  predicate CanRun(cfg: Config, clock: int, actions: seq<Action>)
    decreases |actions|, 0
  {
    actions == [] || (CanRun(cfg, clock, actions[..|actions| - 1])
      && Enabled(StateAfter(cfg, clock, actions[..|actions| - 1]), actions[|actions| - 1]))
  }

  /** The state a run reaches; the clock starts anywhere. */
  function StateAfter(cfg: Config, clock: int, actions: seq<Action>): (s: State)
    requires CanRun(cfg, clock, actions)
    ensures ItemsInRange(s.mem)
    decreases |actions|, 1
  {
    if actions == [] then Initial(clock)
    else
      var before, a := StateAfter(cfg, clock, actions[..|actions| - 1]), actions[|actions| - 1];
      ItemsStayInRange(cfg, before, a);
      Apply(cfg, before, a)
  }
}
