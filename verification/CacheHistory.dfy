/** What a call of the concurrent cache sees between its lookup and its end, told from the history of the run. */
module CacheHistory {
  import opened Common
  import opened CacheTypes
  import opened CacheSpec
  import opened CacheProtocol
  import opened CacheSafety
  import opened CacheFreshness
  import opened CacheRuns
  import opened CacheLaws

  predicate LooksUp(s: State, a: Action, i: nat)
    requires Enabled(s, a)
  {
    a.Step? && a.tid == i && s.threads[i].pc.Lookup?
  }

  /** The position in the run of thread i's lookup; -1 if it has not looked up. */
  function LookupAt(cfg: Config, clock: int, actions: seq<Action>, i: nat): int
    requires CanRun(cfg, clock, actions)
  {
    if actions == [] then -1
    else
      var before, a := actions[..|actions| - 1], actions[|actions| - 1];
      if LooksUp(StateAfter(cfg, clock, before), a, i) then |before| else LookupAt(cfg, clock, before, i)
  }

  lemma {:induction false} LookupInPast(cfg: Config, clock: int, actions: seq<Action>, i: nat)
    requires CanRun(cfg, clock, actions)
    ensures -1 <= LookupAt(cfg, clock, actions, i) < |actions|
  {
    if actions != [] {
      LookupInPast(cfg, clock, actions[..|actions| - 1], i);
    }
  }

  function VersionOf(c: Cell): Version { Version(c.key, c.value, c.writtenAt) }

  /** The version that a step of a thread writes into an entry, if any. */
  function SetBy(m: Memory, t: Thread): Option<Version>
  {
    if LogsNow(m, t) then Some(Version(t.key, t.pc.v, t.pc.at)) else None
  }

  function Later(latest: Option<Version>, written: Option<Version>, key: Key): Option<Version>
  {
    if written.Some? && written.value.key == key then written else latest
  }

  /** The latest set of a key in the run. */
  function LatestSet(cfg: Config, clock: int, actions: seq<Action>, key: Key): Option<Version>
    requires CanRun(cfg, clock, actions)
  {
    if actions == [] then None
    else
      var before, a := actions[..|actions| - 1], actions[|actions| - 1];
      var s := StateAfter(cfg, clock, before);
      Later(LatestSet(cfg, clock, before, key), if a.Step? then SetBy(s.mem, s.threads[a.tid]) else None, key)
  }

  /** After the first r steps the version was the latest of its key. */
  predicate CurrentAt(cfg: Config, clock: int, actions: seq<Action>, r: int, v: Version)
  {
    && 0 <= r <= |actions|
    && CanRun(cfg, clock, actions[..r])
    && LatestSet(cfg, clock, actions[..r], v.key) == Some(v)
  }

  /** The version was the latest of its key at some moment of the run, from the given one on. */
  ghost predicate WasCurrent(cfg: Config, clock: int, actions: seq<Action>, from: int, v: Version)
  {
    0 <= from && exists r :: from <= r <= |actions| && CurrentAt(cfg, clock, actions, r, v)
  }

  lemma WasCurrentStays(cfg: Config, clock: int, actions: seq<Action>, a: Action, from: int, v: Version)
    requires WasCurrent(cfg, clock, actions, from, v)
    ensures from >= 0 && WasCurrent(cfg, clock, actions + [a], from, v)
  {
    var r :| from <= r <= |actions| && CurrentAt(cfg, clock, actions, r, v);
    assert (actions + [a])[..r] == actions[..r];
    assert CurrentAt(cfg, clock, actions + [a], r, v);
  }

  lemma CurrentNow(cfg: Config, clock: int, actions: seq<Action>, from: int, v: Version)
    requires CanRun(cfg, clock, actions) && 0 <= from <= |actions| && LatestSet(cfg, clock, actions, v.key) == Some(v)
    ensures WasCurrent(cfg, clock, actions, from, v)
  {
    assert actions[..|actions|] == actions;
    assert CurrentAt(cfg, clock, actions, |actions|, v);
  }

  // ---------------------------------------------------------------- stored entries are current

  /** A stored key's entry holds the latest version of the key. */
  predicate HoldsLatest(m: Memory, key: Key, latest: Option<Version>)
  {
    key in m.items && m.items[key] < |m.cells| ==> latest == Some(VersionOf(m.cells[m.items[key]]))
  }

  lemma HoldsLatestStep(cfg: Config, m: Memory, g: Group, t: Thread, tid: nat, key: Key, latest: Option<Version>)
    requires ItemsLinked(m) && Placed(m, g, t) && LockFits(m, t, tid) && HoldsLatest(m, key, latest)
    ensures HoldsLatest(MemoryStep(cfg, m, t, tid), key, Later(latest, SetBy(m, t), key))
  {
  }

  lemma {:induction false} StoredIsLatest(cfg: Config, clock: int, actions: seq<Action>, key: Key)
    requires CanRun(cfg, clock, actions)
    ensures HoldsLatest(StateAfter(cfg, clock, actions).mem, key, LatestSet(cfg, clock, actions, key))
  {
    if actions != [] {
      hide MemoryStep, GroupStep, NextPc, SetBy, Inv;
      var before, a := actions[..|actions| - 1], actions[|actions| - 1];
      var s := StateAfter(cfg, clock, before);
      StoredIsLatest(cfg, clock, before, key);
      RunKeepsInv(cfg, clock, before);
      if a.Step? {
        InvAt(cfg, s, a.tid);
        HoldsLatestStep(cfg, s.mem, s.group, s.threads[a.tid], a.tid, key, LatestSet(cfg, clock, before, key));
      }
    }
  }

  /** What the invariant says of one thread. */
  lemma InvAt(cfg: Config, s: State, i: nat)
    requires Inv(cfg, s) && i < |s.threads|
    ensures ItemsLinked(s.mem) && InFlightLinked(s.group)
    ensures var t := s.threads[i];
      && Placed(s.mem, s.group, t) && LockFits(s.mem, t, i) && LeadsFlight(s.group, t, i)
      && Reading(cfg, s.mem, t)
  {
  }

  // ---------------------------------------------------------------- what a hit returns

  /** An entry's version changes only with a set of its key. */
  lemma VersionChange(cfg: Config, m: Memory, g: Group, t: Thread, tid: nat, e: nat)
    requires ItemsInRange(m) && Placed(m, g, t) && e < |m.cells|
    ensures var m' := MemoryStep(cfg, m, t, tid);
      && e < |m'.cells|
      && m'.cells[e].key == m.cells[e].key
      && (VersionOf(m'.cells[e]) == VersionOf(m.cells[e]) || SetBy(m, t) == Some(VersionOf(m'.cells[e])))
  {
    hide MemoryStep;
    CellsStep(cfg, m, t, tid);
  }

  /** A step of the reader leaves entries alone, and the entry it reads is the same one until it ends. */
  lemma ReadsOneEntry(cfg: Config, clock: int, m: Memory, g: Group, t: Thread, tid: nat, load: Load)
    requires ItemsInRange(m) && Ready(m, g, t.pc) && (t.pc.Lookup? || Reads(t.pc))
    ensures MemoryStep(cfg, m, t, tid).cells == m.cells
    ensures var pc := NextPc(clock, m, g, t, load);
      Reads(pc) ==> if t.pc.Lookup? then t.key in m.items && pc.e == m.items[t.key] else pc.e == t.pc.e
  {
  }

  lemma BeginsReading(clock: int, m: Memory, g: Group, t: Thread, load: Load)
    requires Ready(m, g, t.pc) && Reads(NextPc(clock, m, g, t, load))
    ensures t.pc.Lookup? || Reads(t.pc)
  {
  }

  /** The version in the entry that a reader holds was current at some moment since the lookup. */
  ghost predicate ReaderCurrent(cfg: Config, clock: int, actions: seq<Action>, i: nat)
    requires CanRun(cfg, clock, actions)
  {
    var s := StateAfter(cfg, clock, actions);
    i < |s.threads| && Reads(s.threads[i].pc) ==>
      var e := s.threads[i].pc.e;
      && e < |s.mem.cells|
      && WasCurrent(cfg, clock, actions, LookupAt(cfg, clock, actions, i), VersionOf(s.mem.cells[e]))
  }

  lemma OwnStepIsCurrent(cfg: Config, clock: int, before: seq<Action>, a: Action, i: nat)
    requires CanRun(cfg, clock, before) && Enabled(StateAfter(cfg, clock, before), a) && CanRun(cfg, clock, before + [a])
    requires a.Step? && a.tid == i && ReaderCurrent(cfg, clock, before, i)
    ensures ReaderCurrent(cfg, clock, before + [a], i)
  {
    hide MemoryStep, GroupStep, NextPc, WasCurrent, LatestSet, Inv;
    var s := StateAfter(cfg, clock, before);
    var t := s.threads[i];
    assert (before + [a])[..|before|] == before;
    if Reads(NextPc(s.clock, s.mem, s.group, t, a.load)) {
      BeginsReading(s.clock, s.mem, s.group, t, a.load);
      ReadsOneEntry(cfg, s.clock, s.mem, s.group, t, i, a.load);
      if t.pc.Lookup? {
        RunKeepsInv(cfg, clock, before);
        InvAt(cfg, s, i);
        var v := VersionOf(s.mem.cells[s.mem.items[t.key]]);
        StoredIsLatest(cfg, clock, before, t.key);
        CurrentNow(cfg, clock, before, |before|, v);
        WasCurrentStays(cfg, clock, before, a, |before|, v);
      } else {
        WasCurrentStays(cfg, clock, before, a, LookupAt(cfg, clock, before, i), VersionOf(s.mem.cells[t.pc.e]));
      }
    }
  }

  lemma OtherStepIsCurrent(cfg: Config, clock: int, before: seq<Action>, a: Action, i: nat)
    requires CanRun(cfg, clock, before) && Enabled(StateAfter(cfg, clock, before), a) && CanRun(cfg, clock, before + [a])
    requires !(a.Step? && a.tid == i) && ReaderCurrent(cfg, clock, before, i)
    ensures ReaderCurrent(cfg, clock, before + [a], i)
  {
    hide MemoryStep, GroupStep, NextPc, WasCurrent, SetBy, Inv;
    var s, s' := StateAfter(cfg, clock, before), StateAfter(cfg, clock, before + [a]);
    assert (before + [a])[..|before|] == before;
    if i < |s.threads| && Reads(s.threads[i].pc) {
      var e, from := s.threads[i].pc.e, LookupAt(cfg, clock, before, i);
      if a.Step? {
        RunKeepsInv(cfg, clock, before);
        InvAt(cfg, s, a.tid);
        VersionChange(cfg, s.mem, s.group, s.threads[a.tid], a.tid, e);
      }
      WasCurrentStays(cfg, clock, before, a, from, VersionOf(s.mem.cells[e]));
      if VersionOf(s'.mem.cells[e]) != VersionOf(s.mem.cells[e]) {
        LookupInPast(cfg, clock, before, i);
        CurrentNow(cfg, clock, before + [a], from, VersionOf(s'.mem.cells[e]));
      }
    }
  }

  lemma {:induction false} ReaderIsCurrent(cfg: Config, clock: int, actions: seq<Action>, i: nat)
    requires CanRun(cfg, clock, actions)
    ensures ReaderCurrent(cfg, clock, actions, i)
  {
    if actions != [] {
      hide ReaderCurrent;
      var before, a := actions[..|actions| - 1], actions[|actions| - 1];
      assert actions == before + [a];
      ReaderIsCurrent(cfg, clock, before, i);
      if a.Step? && a.tid == i {
        OwnStepIsCurrent(cfg, clock, before, a, i);
      } else {
        OtherStepIsCurrent(cfg, clock, before, a, i);
      }
    } else {
      hide WasCurrent;
    }
  }

  /** A hit returns the value of a set that was the latest of its key at some moment between the lookup of the
      call and its return, and whose window reaches past the caller's `now`: a value that was overwritten before
      the lookup is never returned. */
  lemma HitWasCurrent(cfg: Config, clock: int, actions: seq<Action>, i: nat, load: Load)
    requires CanRun(cfg, clock, actions) && Enabled(StateAfter(cfg, clock, actions), Step(i, load))
    requires var pc := StateAfter(cfg, clock, actions).threads[i].pc; pc.FreshValue? || pc.StaleValue?
    ensures var s := StateAfter(cfg, clock, actions);
      var t := Apply(cfg, s, Step(i, load)).threads[i];
      && t.role.Caller? && t.pc.Ended? && t.pc.answer.Hit?
      && exists at ::
           && WasCurrent(cfg, clock, actions, LookupAt(cfg, clock, actions, i), Version(t.key, t.pc.answer.value, at))
           && t.role.now < at + WindowOf(cfg, t.pc.answer.stale)
  {
    hide WasCurrent, MemoryStep, GroupStep, Inv;
    var s := StateAfter(cfg, clock, actions);
    ReaderIsCurrent(cfg, clock, actions, i);
    RunKeepsInv(cfg, clock, actions);
    InvAt(cfg, s, i);
    assert VersionOf(s.mem.cells[s.threads[i].pc.e]).key == s.threads[i].key;
  }
}
