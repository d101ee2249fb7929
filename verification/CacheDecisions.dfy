/** How a caller of the concurrent cache decides between a fresh hit, a stale hit and a load, when no set of its key
    is completed meanwhile. */
module CacheDecisions {
  import opened CacheTypes
  import opened CacheSpec
  import opened CacheProtocol
  import opened CacheSafety
  import opened CacheFreshness
  import opened CacheRefinement
  import opened CacheRuns
  import opened CacheHistory
  import opened CacheWindows
  import opened CacheAnomalies
  import opened CacheLaws

  predicate PutsKey(update: Update, key: Key) { update.Put? && update.key == key }

  /** No set of the key is completed from the given position on. */
  predicate NoPutSince(updates: seq<Update>, from: int, key: Key)
  {
    forall q :: 0 <= q < |updates| && from <= q ==> !PutsKey(updates[q], key)
  }

  // ---------------------------------------------------------------- what a caller has found

  /** What a caller knows of the entry of its key from the reads it has done. */
  predicate Knows(m: Memory, t: Thread)
  {
    t.key in m.items && m.items[t.key] < |m.cells| ==>
      var stored, now := m.items[t.key], NowOf(t.role);
      var c := m.cells[stored];
      match t.pc
      case FreshHas(e) => e == stored
      case FreshExpires(e) => e == stored
      case FreshTouch(e) => e == stored && now < c.expiresAt
      case FreshValue(e) => e == stored && now < c.expiresAt
      case StaleHas(e) => e == stored && c.expiresAt <= now
      case StaleUntil(e) => e == stored && c.expiresAt <= now
      case StaleTouch(e) => e == stored && c.expiresAt <= now < c.staleUntil
      case StaleSpawn(e) => e == stored && c.expiresAt <= now < c.staleUntil
      case StaleValue(e) => e == stored && c.expiresAt <= now < c.staleUntil
      case Enter => c.expiresAt <= now && c.staleUntil <= now
      case _ => true
  }

  lemma KnowsNext(cfg: Config, clock: int, m: Memory, g: Group, t: Thread, tid: nat, load: Load)
    requires ItemsInRange(m) && Ready(m, g, t.pc) && t.role.Caller? && (t.pc.Lookup? || Reads(t.pc))
    requires Knows(m, t) && forall e :: 0 <= e < |m.cells| ==> m.cells[e].hasValue
    ensures Knows(MemoryStep(cfg, m, t, tid), t.(pc := NextPc(clock, m, g, t, load)))
  {
  }

  /** The entry of a key is the same one, with the same windows, or the key is gone. */
  predicate Untouched(m: Memory, m': Memory, key: Key)
  {
    key in m'.items && m'.items[key] < |m'.cells| ==>
      && key in m.items && m.items[key] == m'.items[key] < |m.cells|
      && m'.cells[m'.items[key]] == m.cells[m.items[key]]
  }

  lemma KnowsStays(m: Memory, m': Memory, t: Thread)
    requires Knows(m, t) && Untouched(m, m', t.key)
    ensures Knows(m', t)
  {
  }

  /** A step of a thread that neither completes a set of the key nor is in the middle of one. */
  lemma StepLeavesUntouched(cfg: Config, m: Memory, g: Group, t: Thread, tid: nat, key: Key)
    requires ItemsLinked(m) && Placed(m, g, t) && LockFits(m, t, tid)
    requires !PutsKey(UpdateBy(m, t), key) && (Writes(t.pc) ==> t.key != key)
    ensures Untouched(m, MemoryStep(cfg, m, t, tid), key)
  {
  }

  /** An update in place of a key's entry ends with a set of the key. */
  lemma OverwritingEnds(cfg: Config, s: State, a: Action, key: Key)
    requires Inv(cfg, s) && Enabled(s, a) && Overwriting(s, key) && !Overwriting(Apply(cfg, s, a), key)
    ensures PutsKey(UpdateOf(s, a), key)
  {
    hide NextPc, GroupStep, Clocked, AllReading, InPlace;
    var i := s.mem.lock.value.tid;
    assert LockFits(s.mem, s.threads[i], i);
    if a.Step? {
      assert LockFits(s.mem, s.threads[a.tid], a.tid);
    }
  }

  /** As long as no set of its key has been completed since its lookup, and none is under way, what a caller has
      read still holds. */
  ghost predicate StillKnows(cfg: Config, clock: int, actions: seq<Action>, i: nat)
    requires CanRun(cfg, clock, actions)
  {
    var s := StateAfter(cfg, clock, actions);
    i < |s.threads| && s.threads[i].role.Caller? ==>
      var t, from := s.threads[i], LookupAt(cfg, clock, actions, i);
      && (Reads(t.pc) || t.pc.Enter? ==> from >= 0)
      && (NoPutSince(UpdatesOf(cfg, clock, actions), from, t.key) && !Overwriting(s, t.key) ==> Knows(s.mem, t))
  }

  lemma LastUpdate(cfg: Config, clock: int, before: seq<Action>, a: Action)
    requires CanRun(cfg, clock, before) && Enabled(StateAfter(cfg, clock, before), a) && CanRun(cfg, clock, before + [a])
    ensures var u := UpdateOf(StateAfter(cfg, clock, before), a);
      UpdatesOf(cfg, clock, before + [a]) == UpdatesOf(cfg, clock, before) + [u]
    ensures StateAfter(cfg, clock, before + [a]) == Apply(cfg, StateAfter(cfg, clock, before), a)
    ensures |UpdatesOf(cfg, clock, before)| == |before|
  {
    assert (before + [a])[..|before|] == before;
    UpdatesLength(cfg, clock, before);
  }

  lemma {:induction false} UpdatesLength(cfg: Config, clock: int, actions: seq<Action>)
    requires CanRun(cfg, clock, actions)
    ensures |UpdatesOf(cfg, clock, actions)| == |actions|
  {
    if actions != [] {
      UpdatesLength(cfg, clock, actions[..|actions| - 1]);
    }
  }

  /** If no set of the key is completed by the end of a run, none is under way before its last step. */
  lemma NoneUnderWay(cfg: Config, clock: int, before: seq<Action>, a: Action, from: int, key: Key)
    requires CanRun(cfg, clock, before) && Enabled(StateAfter(cfg, clock, before), a) && CanRun(cfg, clock, before + [a])
    requires from <= |before| && NoPutSince(UpdatesOf(cfg, clock, before + [a]), from, key)
    requires !Overwriting(StateAfter(cfg, clock, before + [a]), key)
    ensures NoPutSince(UpdatesOf(cfg, clock, before), from, key)
    ensures !PutsKey(UpdateOf(StateAfter(cfg, clock, before), a), key)
    ensures !Overwriting(StateAfter(cfg, clock, before), key)
  {
    hide Inv, Apply, UpdateOf, Overwriting;
    var s := StateAfter(cfg, clock, before);
    LastUpdate(cfg, clock, before, a);
    var updates, longer := UpdatesOf(cfg, clock, before), UpdatesOf(cfg, clock, before + [a]);
    assert longer[|before|] == UpdateOf(s, a);
    forall q | 0 <= q < |updates| && from <= q
      ensures !PutsKey(updates[q], key)
    {
      assert longer[q] == updates[q];
    }
    RunKeepsInv(cfg, clock, before);
    if Overwriting(s, key) {
      OverwritingEnds(cfg, s, a, key);
    }
  }

  lemma OwnStepKnows(cfg: Config, clock: int, before: seq<Action>, a: Action, i: nat)
    requires CanRun(cfg, clock, before) && Enabled(StateAfter(cfg, clock, before), a) && CanRun(cfg, clock, before + [a])
    requires a.Step? && a.tid == i && StillKnows(cfg, clock, before, i)
    ensures StillKnows(cfg, clock, before + [a], i)
  {
    hide Inv, UpdateOf, Overwriting, NoPutSince, UpdatesOf, MemoryStep, GroupStep, NextPc;
    var s, s' := StateAfter(cfg, clock, before), StateAfter(cfg, clock, before + [a]);
    var t, from := s.threads[i], LookupAt(cfg, clock, before + [a], i);
    assert (before + [a])[..|before|] == before;
    RunKeepsInv(cfg, clock, before);
    HaveValues(cfg, s);
    InvAt(cfg, s, i);
    LookupInPast(cfg, clock, before, i);
    if t.role.Caller? {
      if t.pc.Lookup? || Reads(t.pc) {
        if NoPutSince(UpdatesOf(cfg, clock, before + [a]), from, t.key) && !Overwriting(s', t.key) {
          NoneUnderWay(cfg, clock, before, a, from, t.key);
          KnowsNext(cfg, s.clock, s.mem, s.group, t, i, a.load);
        }
      } else {
        LeavesFastPath(s.clock, s.mem, s.group, t, a.load);
      }
    }
  }

  lemma HaveValues(cfg: Config, s: State)
    requires Inv(cfg, s)
    ensures forall e :: 0 <= e < |s.mem.cells| ==> s.mem.cells[e].hasValue
  {
  }

  lemma LeavesFastPath(clock: int, m: Memory, g: Group, t: Thread, load: Load)
    requires Ready(m, g, t.pc) && !t.pc.Lookup? && !Reads(t.pc)
    ensures var pc := NextPc(clock, m, g, t, load); !Reads(pc) && !pc.Enter?
  {
  }

  lemma OtherStepKnows(cfg: Config, clock: int, before: seq<Action>, a: Action, i: nat)
    requires CanRun(cfg, clock, before) && Enabled(StateAfter(cfg, clock, before), a) && CanRun(cfg, clock, before + [a])
    requires !(a.Step? && a.tid == i) && StillKnows(cfg, clock, before, i)
    ensures StillKnows(cfg, clock, before + [a], i)
  {
    hide Inv, NoPutSince, UpdatesOf, MemoryStep, GroupStep, NextPc, Knows, UpdateBy;
    var s, s' := StateAfter(cfg, clock, before), StateAfter(cfg, clock, before + [a]);
    assert (before + [a])[..|before|] == before;
    LookupInPast(cfg, clock, before, i);
    if i < |s.threads| && s.threads[i].role.Caller? {
      var t, from := s.threads[i], LookupAt(cfg, clock, before, i);
      if NoPutSince(UpdatesOf(cfg, clock, before + [a]), from, t.key) && !Overwriting(s', t.key) {
        NoneUnderWay(cfg, clock, before, a, from, t.key);
        if a.Step? {
          RunKeepsInv(cfg, clock, before);
          InvAt(cfg, s, a.tid);
          StepLeavesUntouched(cfg, s.mem, s.group, s.threads[a.tid], a.tid, t.key);
        }
        KnowsStays(s.mem, s'.mem, t);
      }
    } else if |s.threads| <= i < |s'.threads| && s'.threads[i].role.Caller? {
      NewThreadKnows(cfg, clock, before + [a], i);
    }
  }

  lemma NewThreadKnows(cfg: Config, clock: int, actions: seq<Action>, i: nat)
    requires CanRun(cfg, clock, actions) && i < |StateAfter(cfg, clock, actions).threads|
    requires StateAfter(cfg, clock, actions).threads[i].pc.Lookup?
    ensures StillKnows(cfg, clock, actions, i)
  {
  }

  lemma {:induction false} CallersKnow(cfg: Config, clock: int, actions: seq<Action>, i: nat)
    requires CanRun(cfg, clock, actions)
    ensures StillKnows(cfg, clock, actions, i)
  {
    if actions != [] {
      hide StillKnows;
      var before, a := actions[..|actions| - 1], actions[|actions| - 1];
      assert actions == before + [a];
      CallersKnow(cfg, clock, before, i);
      if a.Step? && a.tid == i {
        OwnStepKnows(cfg, clock, before, a, i);
      } else {
        OtherStepKnows(cfg, clock, before, a, i);
      }
    }
  }

  // ---------------------------------------------------------------- the promises

  /** While no flight of a key is under way, nobody is overwriting its entry. */
  lemma NoFlightNoOverwrite(cfg: Config, s: State, key: Key)
    requires Inv(cfg, s) && key !in s.group.inFlight
    ensures !Overwriting(s, key)
  {
    if Overwriting(s, key) {
      InvAt(cfg, s, s.mem.lock.value.tid);
    }
  }

  /** What the store says of a key that nobody is overwriting is what its entry says. */
  lemma ContentsAt(cfg: Config, s: State, key: Key)
    requires Inv(cfg, s) && !Overwriting(s, key)
    ensures key in Contents(s.mem).records <==> key in s.mem.items
    ensures key in s.mem.items ==> Contents(s.mem).records[key] == RecordOf(s.mem.cells[s.mem.items[key]])
  {
    ViewKeys(s.mem);
    if s.mem.lock.Some? {
      var i := s.mem.lock.value.tid;
      assert LockFits(s.mem, s.threads[i], i) && Midway(cfg, s.mem, s.threads[i]);
      assert View(s.mem).records.Keys == s.mem.lock.value.before.records.Keys;
    }
  }

  /** A caller whose key is stored, with no set of the key completed since its lookup or under way, decides by the
      time of the key's latest set: it is on its way to a fresh hit only before at + ttl, to a stale hit only from
      then to at + ttl + staleExtension, and to a load only after both. */
  lemma CallDecides(cfg: Config, clock: int, actions: seq<Action>, i: nat)
    requires CanRun(cfg, clock, actions) && i < |StateAfter(cfg, clock, actions).threads|
    requires var s := StateAfter(cfg, clock, actions);
      && s.threads[i].role.Caller? && s.threads[i].key in s.mem.items && !Overwriting(s, s.threads[i].key)
      && NoPutSince(UpdatesOf(cfg, clock, actions), LookupAt(cfg, clock, actions, i), s.threads[i].key)
    ensures var s := StateAfter(cfg, clock, actions);
      var t := s.threads[i];
      && LatestSet(cfg, clock, actions, t.key).Some?
      && var at, now := LatestSet(cfg, clock, actions, t.key).value.at, t.role.now;
         && (FoundFresh(t.pc) ==> now < at + cfg.ttl)
         && (FoundStale(t.pc) ==> at + cfg.ttl <= now < at + cfg.ttl + cfg.staleExtension)
         && (t.pc.Enter? ==> at + cfg.ttl <= now && at + cfg.ttl + cfg.staleExtension <= now)
  {
    hide Inv, NoPutSince, UpdatesOf, Overwriting, LatestSet;
    var s := StateAfter(cfg, clock, actions);
    RunKeepsInv(cfg, clock, actions);
    CallersKnow(cfg, clock, actions, i);
    StoredWindows(cfg, clock, actions, s.threads[i].key);
    InvAt(cfg, s, i);
  }

  /** A caller that is about to lead a flight finds its key not stored at that moment, or past both windows of its
      latest set, unless a set of the key has been completed since its lookup: only such a set lets a key be loaded
      twice in one window. */
  lemma LeaderFindsMiss(cfg: Config, clock: int, actions: seq<Action>, i: nat)
    requires CanRun(cfg, clock, actions) && i < |StateAfter(cfg, clock, actions).threads|
    requires var s := StateAfter(cfg, clock, actions);
      s.threads[i].role.Caller? && s.threads[i].pc == Enter && s.threads[i].key !in s.group.inFlight
    requires var key := StateAfter(cfg, clock, actions).threads[i].key;
      NoPutSince(UpdatesOf(cfg, clock, actions), LookupAt(cfg, clock, actions, i), key)
    ensures 0 <= LookupAt(cfg, clock, actions, i) < |actions|
    ensures var s := StateAfter(cfg, clock, actions);
      var t := s.threads[i];
      || t.key !in Contents(s.mem).records
      || (LatestSet(cfg, clock, actions, t.key).Some?
          && var at := LatestSet(cfg, clock, actions, t.key).value.at;
             at + cfg.ttl <= t.role.now && at + cfg.ttl + cfg.staleExtension <= t.role.now)
  {
    hide Inv, NoPutSince, UpdatesOf, Overwriting, Contents, LatestSet;
    var s := StateAfter(cfg, clock, actions);
    RunKeepsInv(cfg, clock, actions);
    CallersKnow(cfg, clock, actions, i);
    LookupInPast(cfg, clock, actions, i);
    NoFlightNoOverwrite(cfg, s, s.threads[i].key);
    ContentsAt(cfg, s, s.threads[i].key);
    if s.threads[i].key in s.mem.items {
      CallDecides(cfg, clock, actions, i);
    }
  }

  /** A thread loads a key that is stored and fresh by the clock. */
  ghost predicate LoadsWhileFresh(cfg: Config, clock: int, actions: seq<Action>, i: nat, key: Key)
  {
    && CanRun(cfg, clock, actions)
    && var s := StateAfter(cfg, clock, actions);
       && i < |s.threads| && s.threads[i].key == key && s.threads[i].pc.Loading?
       && Find(View(s.mem), key, s.clock) == Fresh
  }

  lemma NothingIsFresh(cfg: Config, s: State, key: Key)
    requires Inv(cfg, s) && cfg.ttl <= 0
    ensures Find(View(s.mem), key, s.clock) != Fresh
  {
    if key in s.mem.items {
      assert Backed(cfg, s.clock, s.mem.log, s.mem.cells[s.mem.items[key]]);
    }
  }

  /** Some run loads a key that is fresh if and only if keys can be fresh at all. */
  lemma SecondLoadIff(cfg: Config, key: Key)
    ensures cfg.ttl > 0 <==> exists clock, actions, i :: LoadsWhileFresh(cfg, clock, actions, i, key)
  {
    if cfg.ttl > 0 {
      var value: Value := *;
      var actions := TwoLoadsInOneWindow(cfg, key, value);
      assert LoadsWhileFresh(cfg, 0, actions, 1, key);
    } else if clock, actions, i :| LoadsWhileFresh(cfg, clock, actions, i, key) {
      RunKeepsInv(cfg, clock, actions);
      NothingIsFresh(cfg, StateAfter(cfg, clock, actions), key);
    }
  }
}
