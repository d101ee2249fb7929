/** Runs of the concurrent cache that do not keep what its comments promise. */
module CacheAnomalies {
  import opened Common
  import opened CacheTypes
  import opened CacheSpec
  import opened CacheProtocol

  ghost predicate Reaches(cfg: Config, actions: seq<Action>, s: State)
  {
    CanRun(cfg, 0, actions) && StateAfter(cfg, 0, actions) == s
  }

  lemma Extend(cfg: Config, actions: seq<Action>, s: State, a: Action) returns (longer: seq<Action>, s': State)
    requires Reaches(cfg, actions, s) && Enabled(s, a)
    ensures ItemsInRange(s.mem) && s' == Apply(cfg, s, a) && Reaches(cfg, longer, s')
  {
    longer := actions + [a];
    assert longer[..|longer| - 1] == actions;
    s' := Apply(cfg, s, a);
  }

  // ---------------------------------------------------------------- pieces of a run

  ghost predicate Moved(s: State, s': State, i: nat, pc: Pc)
  {
    i < |s.threads| && s'.clock == s.clock && s'.threads == s.threads[i := s.threads[i].(pc := pc)]
  }

  /** A step of thread i that changes no more than where the thread is. */
  lemma Moves(cfg: Config, actions: seq<Action>, s: State, i: nat, load: Load, pc: Pc)
    returns (longer: seq<Action>, s': State)
    requires Reaches(cfg, actions, s) && Enabled(s, Step(i, load)) && !s.threads[i].pc.StaleSpawn?
    requires MemoryStep(cfg, s.mem, s.threads[i], i) == s.mem
    requires GroupStep(s.group, s.threads[i], i, s.step + 1) == s.group
    requires NextPc(s.clock, s.mem, s.group, s.threads[i], load) == pc
    ensures Reaches(cfg, longer, s') && Moved(s, s', i, pc) && s'.mem == s.mem && s'.group == s.group
  {
    hide MemoryStep, GroupStep, NextPc;
    longer, s' := Extend(cfg, actions, s, Step(i, load));
  }

  lemma Calls(cfg: Config, actions: seq<Action>, s: State, key: Key, now: int)
    returns (longer: seq<Action>, s': State)
    requires Reaches(cfg, actions, s)
    ensures Reaches(cfg, longer, s') && s'.clock == s.clock && s'.mem == s.mem && s'.group == s.group
    ensures s'.threads == s.threads + [Thread(Caller(now), key, s.step + 1, Lookup)]
  {
    longer, s' := Extend(cfg, actions, s, Call(key, now));
  }

  lemma Deletes(cfg: Config, actions: seq<Action>, s: State, key: Key) returns (longer: seq<Action>, s': State)
    requires Reaches(cfg, actions, s) && s.mem.lock == None
    ensures Reaches(cfg, longer, s') && s'.threads == s.threads && s'.group == s.group
    ensures s'.mem.lock == None && key !in s'.mem.items
  {
    longer, s' := Extend(cfg, actions, s, Action.Delete(key));
  }

  lemma StartsFlight(cfg: Config, actions: seq<Action>, s: State, i: nat, load: Load)
    returns (longer: seq<Action>, s': State)
    requires Reaches(cfg, actions, s) && i < |s.threads| && s.threads[i].pc == Enter
    requires s.threads[i].key !in s.group.inFlight
    ensures Reaches(cfg, longer, s') && s'.mem == s.mem
    ensures var t, f := s.threads[i], |s.group.flights|;
      && Moved(s, s', i, Loading(f))
      && s'.group == Group(s.group.flights + [Flight(t.key, i, t.role.Refresher?, None, 0)], s.group.inFlight[t.key := f])
  {
    longer, s' := Extend(cfg, actions, s, Step(i, load));
  }

  lemma LoadsValue(cfg: Config, actions: seq<Action>, s: State, i: nat, value: Value)
    returns (longer: seq<Action>, s': State)
    requires Reaches(cfg, actions, s) && i < |s.threads| && s.threads[i].pc.Loading?
    requires s.threads[i].pc.f < |s.group.flights|
    ensures Reaches(cfg, longer, s') && s'.mem == s.mem && s'.group == s.group
    ensures Moved(s, s', i, Lock(s.threads[i].pc.f, value, s.clock))
  {
    var f := s.threads[i].pc.f;
    var run, s1 := Moves(cfg, actions, s, i, Loaded(value), Clock(f, value));
    longer, s' := Moves(cfg, run, s1, i, Loaded(value), Lock(f, value, s.clock));
  }

  lemma InsertsValue(cfg: Config, actions: seq<Action>, s: State, i: nat, load: Load)
    returns (longer: seq<Action>, s': State)
    requires Reaches(cfg, actions, s) && i < |s.threads| && s.threads[i].pc.Lock? && s.mem.lock == None
    requires s.threads[i].key !in s.mem.items && s.threads[i].pc.f < |s.group.flights|
    ensures Reaches(cfg, longer, s') && s'.group == s.group
    ensures var t := s.threads[i];
      && Moved(s, s', i, Ending(t.pc.f, OutcomeOf(t.role, t.pc.v)))
      && s'.mem == Insert(cfg, s.mem, t.key, t.pc.v, t.pc.at, t.pc.f)
  {
    longer, s' := Extend(cfg, actions, s, Step(i, load));
  }

  lemma EndsFlight(cfg: Config, actions: seq<Action>, s: State, i: nat, load: Load)
    returns (longer: seq<Action>, s': State)
    requires Reaches(cfg, actions, s) && i < |s.threads| && s.threads[i].pc.Ending?
    requires s.threads[i].pc.f < |s.group.flights|
    ensures Reaches(cfg, longer, s') && s'.mem == s.mem
    ensures var t := s.threads[i];
      && Moved(s, s', i, Waiting(t.pc.f))
      && |s'.group.flights| == |s.group.flights|
      && s'.group.flights[t.pc.f].outcome == Some(t.pc.outcome)
      && s'.group.inFlight == Drop(s.group.inFlight, t.key)
  {
    longer, s' := Extend(cfg, actions, s, Step(i, load));
  }

  /** From Enter to the end of a flight that loads the value of a key that is not stored. */
  lemma LeadsToStore(cfg: Config, actions: seq<Action>, s: State, i: nat, value: Value)
    returns (longer: seq<Action>, s': State)
    requires Reaches(cfg, actions, s) && i < |s.threads| && s.threads[i].pc == Enter && s.mem.lock == None
    requires s.threads[i].key !in s.group.inFlight && s.threads[i].key !in s.mem.items
    ensures Reaches(cfg, longer, s') && Moved(s, s', i, Waiting(|s.group.flights|))
    ensures s'.mem == Insert(cfg, s.mem, s.threads[i].key, value, s.clock, |s.group.flights|)
    ensures |s'.group.flights| == |s.group.flights| + 1 && s.threads[i].key !in s'.group.inFlight
  {
    hide Reaches, Insert;
    var run, s1 := StartsFlight(cfg, actions, s, i, Loaded(value));
    var run2, s2 := LoadsValue(cfg, run, s1, i, value);
    var run3, s3 := InsertsValue(cfg, run2, s2, i, Loaded(value));
    longer, s' := EndsFlight(cfg, run3, s3, i, Loaded(value));
  }

  lemma Misses(cfg: Config, actions: seq<Action>, s: State, i: nat, load: Load)
    returns (longer: seq<Action>, s': State)
    requires Reaches(cfg, actions, s) && i < |s.threads| && s.threads[i].pc == Lookup && s.mem.lock == None
    requires s.threads[i].key !in s.mem.items
    ensures Reaches(cfg, longer, s') && Moved(s, s', i, Enter) && s'.mem == s.mem && s'.group == s.group
  {
    longer, s' := Moves(cfg, actions, s, i, load, Enter);
  }

  /** A caller of the key misses and waits for the flight that is under way. */
  lemma Joins(cfg: Config, actions: seq<Action>, s: State, i: nat, load: Load)
    returns (longer: seq<Action>, s': State)
    requires Reaches(cfg, actions, s) && i < |s.threads| && s.threads[i].pc == Lookup && s.mem.lock == None
    requires s.threads[i].key !in s.mem.items && s.threads[i].key in s.group.inFlight
    ensures Reaches(cfg, longer, s') && s'.mem == s.mem && s'.group == s.group
    ensures Moved(s, s', i, Waiting(s.group.inFlight[s.threads[i].key]))
  {
    var run, s1 := Misses(cfg, actions, s, i, load);
    longer, s' := Moves(cfg, run, s1, i, load, Waiting(s.group.inFlight[s.threads[i].key]));
  }

  lemma GetsOutcome(cfg: Config, actions: seq<Action>, s: State, i: nat, load: Load)
    returns (longer: seq<Action>, s': State)
    requires Reaches(cfg, actions, s) && i < |s.threads| && s.threads[i].pc.Waiting?
    requires s.threads[i].pc.f < |s.group.flights| && s.group.flights[s.threads[i].pc.f].outcome.Some?
    ensures Reaches(cfg, longer, s')
    ensures var t := s.threads[i];
      Moved(s, s', i, Ended(AnswerOf(t.role, t.pc.f, s.group.flights[t.pc.f].outcome.value)))
  {
    longer, s' := Extend(cfg, actions, s, Step(i, load));
  }

  predicate OnlyReads(pc: Pc) { pc.Lookup? || pc.FreshHas? || pc.FreshExpires? || pc.StaleHas? || pc.StaleUntil? }

  lemma ReadsOn(cfg: Config, actions: seq<Action>, s: State, i: nat, load: Load, pc: Pc)
    returns (longer: seq<Action>, s': State)
    requires Reaches(cfg, actions, s) && Enabled(s, Step(i, load)) && OnlyReads(s.threads[i].pc)
    requires pc == NextPc(s.clock, s.mem, s.group, s.threads[i], load)
    ensures Reaches(cfg, longer, s') && Moved(s, s', i, pc) && s'.mem == s.mem && s'.group == s.group
  {
    longer, s' := Moves(cfg, actions, s, i, load, pc);
  }

  lemma FindsExpired(cfg: Config, actions: seq<Action>, s: State, i: nat, load: Load)
    returns (longer: seq<Action>, s': State)
    requires Reaches(cfg, actions, s) && i < |s.threads| && s.threads[i].pc == Lookup && s.mem.lock == None
    requires s.threads[i].key in s.mem.items && s.mem.items[s.threads[i].key] == 0
    requires |s.mem.cells| == 1 && s.mem.cells[0].hasValue
    requires s.mem.cells[0].expiresAt <= NowOf(s.threads[i].role)
    ensures Reaches(cfg, longer, s') && s'.mem == s.mem && s'.group == s.group && Moved(s, s', i, StaleHas(0))
  {
    hide Reaches, MemoryStep, GroupStep;
    var run, s1 := ReadsOn(cfg, actions, s, i, load, FreshHas(0));
    var run2, s2 := ReadsOn(cfg, run, s1, i, load, FreshExpires(0));
    longer, s' := ReadsOn(cfg, run2, s2, i, load, StaleHas(0));
  }

  /** From the lookup of the only entry past the check of its first window. */
  lemma ParksAtStaleUntil(cfg: Config, actions: seq<Action>, s: State, i: nat, load: Load)
    returns (longer: seq<Action>, s': State)
    requires Reaches(cfg, actions, s) && i < |s.threads| && s.threads[i].pc == Lookup && s.mem.lock == None
    requires s.threads[i].key in s.mem.items && s.mem.items[s.threads[i].key] == 0
    requires |s.mem.cells| == 1 && s.mem.cells[0].hasValue
    requires s.mem.cells[0].expiresAt <= NowOf(s.threads[i].role)
    ensures Reaches(cfg, longer, s') && s'.mem == s.mem && s'.group == s.group && Moved(s, s', i, StaleUntil(0))
  {
    hide Reaches, MemoryStep, GroupStep;
    var run, s1 := FindsExpired(cfg, actions, s, i, load);
    longer, s' := ReadsOn(cfg, run, s1, i, load, StaleUntil(0));
  }

  // ---------------------------------------------------------------- an overwrite, field by field

  lemma TakesLock(cfg: Config, actions: seq<Action>, s: State, i: nat, load: Load)
    returns (longer: seq<Action>, s': State)
    requires Reaches(cfg, actions, s) && i < |s.threads| && s.threads[i].pc.Lock? && s.mem.lock == None
    requires s.threads[i].key in s.mem.items && s.threads[i].pc.f < |s.group.flights|
    ensures Reaches(cfg, longer, s') && s'.group == s.group
    ensures var t := s.threads[i];
      && Moved(s, s', i, WriteValue(t.pc.f, t.pc.v, t.pc.at, s.mem.items[t.key]))
      && s'.mem.cells == s.mem.cells && s'.mem.items == s.mem.items && s'.mem.recency == s.mem.recency
  {
    longer, s' := Extend(cfg, actions, s, Step(i, load));
  }

  function NextField(pc: Pc): Pc
    requires Writes(pc) && !pc.WriteTouch?
  {
    match pc
    case WriteValue(f, v, at, e) => WriteExpires(f, v, at, e)
    case WriteExpires(f, v, at, e) => WriteStale(f, v, at, e)
    case WriteStale(f, v, at, e) => WriteHas(f, v, at, e)
    case WriteHas(f, v, at, e) => WriteTouch(f, v, at, e)
  }

  lemma WritesField(cfg: Config, actions: seq<Action>, s: State, i: nat, load: Load)
    returns (longer: seq<Action>, s': State)
    requires Reaches(cfg, actions, s) && Enabled(s, Step(i, load))
    requires Writes(s.threads[i].pc) && !s.threads[i].pc.WriteTouch?
    ensures Reaches(cfg, longer, s') && s'.group == s.group && Moved(s, s', i, NextField(s.threads[i].pc))
    ensures s'.mem.items == s.mem.items && s'.mem.recency == s.mem.recency
    ensures var e := s.threads[i].pc.e;
      e < |s.mem.cells| && s'.mem.cells == s.mem.cells[e := Written(cfg, s.mem.cells[e], s.threads[i].pc)]
  {
    longer, s' := Extend(cfg, actions, s, Step(i, load));
  }

  lemma Releases(cfg: Config, actions: seq<Action>, s: State, i: nat, load: Load)
    returns (longer: seq<Action>, s': State)
    requires Reaches(cfg, actions, s) && Enabled(s, Step(i, load)) && s.threads[i].pc.WriteTouch?
    ensures Reaches(cfg, longer, s') && s'.group == s.group && s'.mem.lock == None
    ensures s'.mem.items == s.mem.items && s'.mem.cells == s.mem.cells
    ensures s'.mem.recency == Touched(s.mem.recency, s.threads[i].key)
    ensures var t := s.threads[i]; Moved(s, s', i, Ending(t.pc.f, OutcomeOf(t.role, t.pc.v)))
  {
    longer, s' := Extend(cfg, actions, s, Step(i, load));
  }

  /** The four fields, one after the other. */
  lemma WritesFields(cfg: Config, actions: seq<Action>, s: State, i: nat, load: Load, f: nat, v: Value, at: int)
    returns (longer: seq<Action>, s': State)
    requires Reaches(cfg, actions, s) && i < |s.threads| && s.threads[i].pc == WriteValue(f, v, at, 0)
    requires |s.mem.cells| == 1 && s.mem.cells[0].key == s.threads[i].key && f < |s.group.flights|
    ensures Reaches(cfg, longer, s') && s'.group == s.group && Moved(s, s', i, WriteTouch(f, v, at, 0))
    ensures s'.mem.items == s.mem.items && s'.mem.recency == s.mem.recency
    ensures s'.mem.cells == [NewCell(cfg, s.threads[i].key, v, at)]
  {
    hide Reaches, MemoryStep, GroupStep, NextPc;
    var run, s1 := WritesField(cfg, actions, s, i, load);
    var run2, s2 := WritesField(cfg, run, s1, i, load);
    var run3, s3 := WritesField(cfg, run2, s2, i, load);
    longer, s' := WritesField(cfg, run3, s3, i, load);
  }

  /** From the lock to its release: the entry of the key holds the new value. */
  lemma Overwrites(cfg: Config, actions: seq<Action>, s: State, i: nat, load: Load)
    returns (longer: seq<Action>, s': State)
    requires Reaches(cfg, actions, s) && i < |s.threads| && s.threads[i].pc.Lock? && s.mem.lock == None
    requires s.mem.items == map[s.threads[i].key := 0] && s.mem.recency == [s.threads[i].key]
    requires |s.mem.cells| == 1 && s.mem.cells[0].key == s.threads[i].key && s.threads[i].pc.f < |s.group.flights|
    ensures Reaches(cfg, longer, s') && s'.group == s.group && s'.mem.lock == None
    ensures s'.mem.items == s.mem.items && s'.mem.recency == s.mem.recency
    ensures var t := s.threads[i];
      && Moved(s, s', i, Ending(t.pc.f, OutcomeOf(t.role, t.pc.v)))
      && s'.mem.cells == [NewCell(cfg, t.key, t.pc.v, t.pc.at)]
  {
    hide Reaches, MemoryStep, GroupStep, NewCell;
    var t := s.threads[i];
    RemovedLast(s.mem.recency);
    var run, s1 := TakesLock(cfg, actions, s, i, load);
    var run2, s2 := WritesFields(cfg, run, s1, i, load, t.pc.f, t.pc.v, t.pc.at);
    longer, s' := Releases(cfg, run2, s2, i, load);
  }

  /** From there to the refresh that the hit starts. */
  lemma StartsRefresh(cfg: Config, actions: seq<Action>, s: State, i: nat, load: Load)
    returns (longer: seq<Action>, s': State)
    requires Reaches(cfg, actions, s) && i < |s.threads| && s.threads[i].pc == StaleTouch(0) && s.mem.lock == None
    requires s.mem.recency == [s.threads[i].key] && |s.mem.cells| > 0
    ensures Reaches(cfg, longer, s') && s'.mem == s.mem && s'.group == s.group && s'.clock == s.clock
    ensures var t := s.threads[i];
      s'.threads == s.threads[i := t.(pc := StaleValue(0))] + [Thread(Refresher, t.key, s'.step, Enter)]
  {
    RemovedLast(s.mem.recency);
    var run, s1 := Moves(cfg, actions, s, i, load, StaleSpawn(0));
    longer, s' := Extend(cfg, run, s1, Step(i, load));
  }

  // ---------------------------------------------------------------- two loads in one window

  lemma FreshAtOnce(cfg: Config, key: Key, value: Value)
    requires cfg.ttl > 0
    ensures var m := Insert(cfg, Initial(0).mem, key, value, 0, 0); ItemsInRange(m) && Find(View(m), key, 0) == Fresh
  {
  }

  /** Two callers that looked a key up in vain, one after the other: the second loads while the value that the
      first one stored is fresh. */
  lemma TwoLoadsInOneWindow(cfg: Config, key: Key, value: Value) returns (actions: seq<Action>)
    requires cfg.ttl > 0
    ensures CanRun(cfg, 0, actions)
    ensures var s := StateAfter(cfg, 0, actions);
      && s.clock == 0 && s.mem.lock == None
      && Find(View(s.mem), key, 0) == Fresh
      && |s.threads| == 2 && s.threads[1].key == key && s.threads[1].pc.Loading?
  {
    hide View, Insert, Find;
    FreshAtOnce(cfg, key, value);
    var s: State;
    actions, s := Calls(cfg, [], Initial(0), key, 0);
    actions, s := Calls(cfg, actions, s, key, 0);
    actions, s := Misses(cfg, actions, s, 0, Loaded(value));
    actions, s := Misses(cfg, actions, s, 1, Loaded(value));
    actions, s := LeadsToStore(cfg, actions, s, 0, value);
    actions, s := StartsFlight(cfg, actions, s, 1, Loaded(value));
  }

  // ---------------------------------------------------------------- a refresh that others join

  /** A caller misses at time 0 and stores the value. */
  lemma FirstCall(cfg: Config, key: Key, value: Value) returns (actions: seq<Action>, s: State)
    ensures Reaches(cfg, actions, s) && s.clock == 0 && |s.threads| == 1
    ensures s.mem == Insert(cfg, Initial(0).mem, key, value, 0, 0)
    ensures |s.group.flights| == 1 && key !in s.group.inFlight
  {
    hide Insert;
    actions, s := Calls(cfg, [], Initial(0), key, 0);
    actions, s := Misses(cfg, actions, s, 0, Loaded(value));
    actions, s := LeadsToStore(cfg, actions, s, 0, value);
  }

  /** The cache holds one entry, stored at the given time. */
  predicate HoldsOne(cfg: Config, m: Memory, key: Key, value: Value, at: int)
  {
    && m.lock == None && m.items == map[key := 0] && m.recency == [key]
    && m.cells == [NewCell(cfg, key, value, at)]
  }

  lemma Ticks(cfg: Config, actions: seq<Action>, s: State, duration: nat) returns (longer: seq<Action>, s': State)
    requires Reaches(cfg, actions, s)
    ensures Reaches(cfg, longer, s') && s'.clock == s.clock + duration
    ensures s'.threads == s.threads && s'.mem == s.mem && s'.group == s.group
  {
    longer, s' := Extend(cfg, actions, s, Tick(duration));
  }

  /** How long the writer waits, so that the second window of what it stores reaches past the first of what it
      overwrites. */
  function Pause(cfg: Config): nat { Max(0, -cfg.staleExtension) + 1 }

  /** A second caller finds the entry expired, and stops before it reads the second window. */
  lemma ReaderParks(cfg: Config, key: Key, value: Value) returns (actions: seq<Action>, s: State)
    ensures Reaches(cfg, actions, s) && s.clock == Pause(cfg) && HoldsOne(cfg, s.mem, key, value, 0)
    ensures |s.threads| == 2 && s.threads[1].key == key && s.threads[1].role == Caller(cfg.ttl)
    ensures s.threads[1].pc == StaleUntil(0)
    ensures |s.group.flights| == 1 && key !in s.group.inFlight
  {
    hide Reaches;
    actions, s := FirstCall(cfg, key, value);
    actions, s := Calls(cfg, actions, s, key, cfg.ttl);
    actions, s := ParksAtStaleUntil(cfg, actions, s, 1, Loaded(value));
    actions, s := Ticks(cfg, actions, s, Pause(cfg));
  }

  /** A third caller finds the entry too old, loads and stores the value again. */
  lemma WriterOverwrites(cfg: Config, actions: seq<Action>, s: State, key: Key, value: Value)
    returns (longer: seq<Action>, s': State)
    requires Reaches(cfg, actions, s) && HoldsOne(cfg, s.mem, key, value, 0) && key !in s.group.inFlight
    ensures Reaches(cfg, longer, s') && HoldsOne(cfg, s'.mem, key, value, s.clock) && key !in s'.group.inFlight
    ensures |s'.threads| == |s.threads| + 1 && s'.threads[..|s.threads|] == s.threads
    ensures |s'.group.flights| == |s.group.flights| + 1
  {
    hide Reaches, MemoryStep, GroupStep;
    var i := |s.threads|;
    var run, s1 := Calls(cfg, actions, s, key, cfg.ttl + Max(0, cfg.staleExtension));
    var run2, s2 := ParksAtStaleUntil(cfg, run, s1, i, Loaded(value));
    var run3, s3 := ReadsOn(cfg, run2, s2, i, Loaded(value), Enter);
    longer, s' := LeadsToOverwrite(cfg, run3, s3, i, key, value);
  }

  lemma LeadsToOverwrite(cfg: Config, actions: seq<Action>, s: State, i: nat, key: Key, value: Value)
    returns (longer: seq<Action>, s': State)
    requires Reaches(cfg, actions, s) && i < |s.threads| && s.threads[i].pc == Enter && s.threads[i].key == key
    requires HoldsOne(cfg, s.mem, key, value, 0) && key !in s.group.inFlight
    ensures Reaches(cfg, longer, s') && HoldsOne(cfg, s'.mem, key, value, s.clock) && key !in s'.group.inFlight
    ensures Moved(s, s', i, Waiting(|s.group.flights|)) && |s'.group.flights| == |s.group.flights| + 1
  {
    hide Reaches, MemoryStep, GroupStep;
    var run, s1 := StartsFlight(cfg, actions, s, i, Loaded(value));
    var run2, s2 := LoadsValue(cfg, run, s1, i, value);
    var run3, s3 := Overwrites(cfg, run2, s2, i, Loaded(value));
    longer, s' := EndsFlight(cfg, run3, s3, i, Loaded(value));
  }

  /** The parked reader sees the new second window, takes a stale hit, and its refresh takes off. */
  lemma RefreshTakesOff(cfg: Config, key: Key, value: Value) returns (actions: seq<Action>, s: State)
    ensures Reaches(cfg, actions, s) && s.mem.lock == None
    ensures |s.threads| == 4 && s.threads[3].role == Refresher && s.threads[3].key == key
    ensures |s.group.flights| == 3 && s.threads[3].pc == Loading(2)
    ensures key in s.group.inFlight && s.group.inFlight[key] == 2
  {
    hide Reaches, MemoryStep, GroupStep;
    actions, s := ReaderParks(cfg, key, value);
    actions, s := WriterOverwrites(cfg, actions, s, key, value);
    actions, s := ReadsOn(cfg, actions, s, 1, Loaded(value), StaleTouch(0));
    actions, s := StartsRefresh(cfg, actions, s, 1, Loaded(value));
    actions, s := StartsFlight(cfg, actions, s, 3, Loaded(value));
  }

  /** The refresh loads and stores the value; its flight ends with nil. */
  lemma RefreshLands(cfg: Config, actions: seq<Action>, s: State, i: nat, value: Value)
    returns (longer: seq<Action>, s': State)
    requires Reaches(cfg, actions, s) && i < |s.threads| && s.threads[i].pc.Loading? && s.mem.lock == None
    requires s.threads[i].role == Refresher && s.threads[i].key !in s.mem.items
    requires s.threads[i].pc.f < |s.group.flights|
    ensures Reaches(cfg, longer, s') && |s'.group.flights| == |s.group.flights|
    ensures var f := s.threads[i].pc.f;
      Moved(s, s', i, Waiting(f)) && s'.group.flights[f].outcome == Some(NilValue)
  {
    hide Reaches, Insert;
    var run, s1 := LoadsValue(cfg, actions, s, i, value);
    var run2, s2 := InsertsValue(cfg, run, s1, i, Loaded(value));
    longer, s' := EndsFlight(cfg, run2, s2, i, Loaded(value));
  }

  /** Whatever the configuration, even without a stale window, there are runs in which a caller panics: a stale
      hit starts a refresh, the key is deleted, and another caller misses and joins the flight that the refresh
      leads. The reads of an entry's two windows are separate, so an overwrite between them makes a stale hit. */
  lemma JoinerOfRefreshPanics(cfg: Config, key: Key, value: Value) returns (actions: seq<Action>)
    ensures CanRun(cfg, 0, actions)
    ensures var s := StateAfter(cfg, 0, actions);
      |s.threads| == 5 && s.threads[4].role.Caller? && s.threads[4].key == key && s.threads[4].pc == Ended(Panic(2))
  {
    hide Reaches, MemoryStep, GroupStep;
    var s: State;
    actions, s := RefreshTakesOff(cfg, key, value);
    actions, s := Deletes(cfg, actions, s, key);
    actions, s := Calls(cfg, actions, s, key, 0);
    actions, s := Joins(cfg, actions, s, 4, Loaded(value));
    actions, s := RefreshLands(cfg, actions, s, 3, value);
    actions, s := GetsOutcome(cfg, actions, s, 4, Loaded(value));
  }
}
