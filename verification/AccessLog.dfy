/** What a run of calls leaves in the statistics, the recency list and the mappings, in terms of the calls. */
module AccessLog {
  import opened Bits
  import opened Sums
  import opened CacheModel
  import opened Eviction
  import opened SequentialUse
  import opened CacheProtocol
  import opened CacheSafety
  import opened CacheTheorems

  // ----- every call is an access, and nothing else is -----

  /** The calls of `get_and_pin` and `prefetch_expert` in a run, in order. */
  function Calls(actions: seq<Action>): seq<Access> {
    if actions == [] then []
    else
      var rest := Calls(actions[1..]);
      match actions[0]
      case CallGet(_, id, now) => [Access(id, now)] + rest
      case CallPrefetch(_, id, now) => [Access(id, now)] + rest
      case _ => rest
  }

  /** How many of them asked for `id`. */
  function CallsFor(actions: seq<Action>, id: Id): nat {
    if actions == [] then 0
    else
      (if (actions[0].CallGet? || actions[0].CallPrefetch?) && actions[0].id == id then 1 else 0)
      + CallsFor(actions[1..], id)
  }

  lemma StepLogs(cfg: Config, s: State, a: Action)
    requires Enabled(cfg, s, a)
    ensures Next(cfg, s, a).cache.log == s.cache.log + Calls([a])
  {
    hide EvictionRun, CountAccess;
    assert [a][1..] == [] && Calls([a][1..]) == [];
    match a
    case Finish(i, run, _) =>
      if s.threads[i].pc.id in s.cache.entries { EvictionKeepsRecords(PublishedCache(cfg, s, i), run); }
    case _ =>
  }

  lemma {:induction false} RunLogs(cfg: Config, s: State, actions: seq<Action>)
    requires Legal(cfg, s, actions)
    ensures Run(cfg, s, actions).cache.log == s.cache.log + Calls(actions)
    decreases |actions|
  {
    hide Enabled, Next;
    if actions != [] {
      StepLogs(cfg, s, actions[0]);
      RunLogs(cfg, Next(cfg, s, actions[0]), actions[1..]);
      assert [actions[0]][1..] == [];
      assert Calls(actions) == Calls([actions[0]]) + Calls(actions[1..]);
    }
  }

  lemma {:induction false} StampsOfCalls(actions: seq<Action>, id: Id)
    ensures |Stamps(Calls(actions), id)| == CallsFor(actions, id)
  {
    if actions != [] {
      StampsOfCalls(actions[1..], id);
      if actions[0].CallGet? || actions[0].CallPrefetch? {
        StampsPrepend(Access(actions[0].id, actions[0].now), Calls(actions[1..]), id);
      }
    }
  }

  lemma {:induction false} StampsPrepend(a: Access, log: seq<Access>, id: Id)
    ensures Stamps([a] + log, id) == (if a.id == id then [a.at] else []) + Stamps(log, id)
    decreases |log|
  {
    if log == [] {
      assert [a] + log == [a] && [a][..0] == [] && Stamps([], id) == [];
    } else {
      var front, last := log[..|log| - 1], log[|log| - 1];
      assert ([a] + log)[..|log|] == [a] + front;
      StampsPrepend(a, front, id);
    }
  }

  /** In every interleaving the log is exactly the calls made, whether they hit, waited or loaded; each expert's
      count is the number of calls for it, modulo 2^32, and it has a record exactly if there was one. */
  lemma RecordsAreCalls(cfg: Config, s: State, actions: seq<Action>, id: Id)
    requires Init(cfg, s) && Legal(cfg, s, actions)
    ensures var c := Run(cfg, s, actions).cache;
            && c.log == Calls(actions)
            && (id in c.stats <==> CallsFor(actions, id) > 0)
            && (id in c.stats ==> c.stats[id].count == CallsFor(actions, id) % 0x1_0000_0000)
  {
    hide EntriesOk, ThreadsOk, MemoryOk, Listed, Next, Enabled, Stamps;
    InitInv(cfg, s);
    RunKeepsInv(cfg, s, actions);
    RunLogs(cfg, s, actions);
    StampsOfCalls(actions, id);
    RunRecordsOnlyCalled(cfg, s, actions, id);
  }

  lemma StepRecords(cfg: Config, s: State, a: Action, id: Id)
    requires Enabled(cfg, s, a)
    ensures id in Next(cfg, s, a).cache.stats <==> id in s.cache.stats || ((a.CallGet? || a.CallPrefetch?) && a.id == id)
  {
    hide EvictionRun, CountAccess;
    match a
    case Finish(i, run, _) =>
      if s.threads[i].pc.id in s.cache.entries { EvictionKeepsRecords(PublishedCache(cfg, s, i), run); }
    case _ =>
  }

  lemma {:induction false} RunRecordsOnlyCalled(cfg: Config, s: State, actions: seq<Action>, id: Id)
    requires Legal(cfg, s, actions)
    ensures id in Run(cfg, s, actions).cache.stats <==> id in s.cache.stats || CallsFor(actions, id) > 0
    decreases |actions|
  {
    hide Enabled, Next;
    if actions != [] {
      StepRecords(cfg, s, actions[0], id);
      RunRecordsOnlyCalled(cfg, Next(cfg, s, actions[0]), actions[1..], id);
    }
  }

  // ----- every use moves its expert to the front -----

  /** The expert an action uses: a call that need not wait, and a waiter that is served. */
  function Uses(s: State, a: Action): seq<Id> {
    match a
    case CallGet(_, id, _) => if id in s.cache.entries && !s.cache.entries[id].loaded then [] else [id]
    case CallPrefetch(_, id, _) => [id]
    case Wake(i) =>
      if i < |s.threads| && s.threads[i].pc.Waiting? && s.threads[i].pc.id in s.cache.entries
         && s.cache.entries[s.threads[i].pc.id].loaded
      then [s.threads[i].pc.id] else []
    case _ => []
  }

  ghost function AllUses(cfg: Config, s: State, actions: seq<Action>): seq<Id>
    requires Legal(cfg, s, actions)
    decreases |actions|
  {
    if actions == [] then [] else Uses(s, actions[0]) + AllUses(cfg, Next(cfg, s, actions[0]), actions[1..])
  }

  lemma StepTouches(cfg: Config, s: State, a: Action)
    requires Enabled(cfg, s, a)
    ensures var c, c' := s.cache, Next(cfg, s, a).cache;
            && c'.touches == c.touches + Uses(s, a)
            && (Uses(s, a) != [] ==> c'.lru != [] && c'.lru[0] == Uses(s, a)[0])
  {
    hide EvictionRun, CountAccess, Remove;
    match a
    case Finish(i, run, _) =>
      if s.threads[i].pc.id in s.cache.entries { EvictionKeepsRecords(PublishedCache(cfg, s, i), run); }
    case _ =>
  }

  lemma {:induction false} RunTouches(cfg: Config, s: State, actions: seq<Action>)
    requires Legal(cfg, s, actions)
    ensures Run(cfg, s, actions).cache.touches == s.cache.touches + AllUses(cfg, s, actions)
    decreases |actions|
  {
    hide Enabled, Next, Uses;
    if actions != [] {
      StepTouches(cfg, s, actions[0]);
      RunTouches(cfg, Next(cfg, s, actions[0]), actions[1..]);
    }
  }

  /** In every interleaving the recency list holds each resident expert once, ordered by its latest use: hits,
      prefetches of present experts, served waits and new loads all count, waits that are not over do not. */
  lemma RecencyIsUse(cfg: Config, s: State, actions: seq<Action>)
    requires Init(cfg, s) && Legal(cfg, s, actions)
    ensures var c := Run(cfg, s, actions).cache;
            && NoDup(c.lru) && (forall id: Id :: id in c.lru <==> id in c.entries)
            && OrderedByTouch(c.lru, AllUses(cfg, s, actions))
  {
    hide EntriesOk, ThreadsOk, MemoryOk, Accounted, OrderedByTouch, Next, Enabled;
    InitInv(cfg, s);
    RunKeepsInv(cfg, s, actions);
    RunTouches(cfg, s, actions);
    assert s.cache.touches + AllUses(cfg, s, actions) == AllUses(cfg, s, actions);
  }

  // ----- where experts lie in the file -----

  lemma NoWrap(id: nat, n: nat, size: nat)
    requires id < n && n * size <= 0x1_0000_0000_0000_0000 && size > 0
    ensures (id * size) % 0x1_0000_0000_0000_0000 == id * size && id * size + size <= n * size
  {
    ScaleUp(size, id + 1, n);
    assert (id + 1) * size == id * size + size;
  }

  lemma Apart(x: nat, y: nat, size: nat)
    requires x < y
    ensures x * size + size <= y * size
  {
    ScaleUp(size, x + 1, y);
    assert (x + 1) * size == x * size + size;
  }

  /** If the file of n experts is at most 2^64 bytes, each mapped expert below n shows exactly its own stretch of
      the file, and the stretches of different experts do not overlap. */
  lemma MappedRegionsAreApart(cfg: Config, s: State, actions: seq<Action>, n: nat, x: Id, y: Id)
    requires Init(cfg, s) && Legal(cfg, s, actions)
    requires n * cfg.expertSize <= 0x1_0000_0000_0000_0000 && cfg.expertSize > 0 && x < y < n
    requires var entries := Run(cfg, s, actions).cache.entries;
             x in entries && y in entries && entries[x].ptr.At? && entries[y].ptr.At?
    ensures var s' := Run(cfg, s, actions);
            var px, py := s'.cache.entries[x].ptr.addr, s'.cache.entries[y].ptr.addr;
            && px in s'.mem.live && py in s'.mem.live && px != py
            && s'.mem.live[px].offset == x * cfg.expertSize && s'.mem.live[py].offset == y * cfg.expertSize
            && s'.mem.live[px].length == s'.mem.live[py].length == cfg.expertSize
            && s'.mem.live[px].offset + s'.mem.live[px].length <= s'.mem.live[py].offset
            && s'.mem.live[py].offset + s'.mem.live[py].length <= n * cfg.expertSize
  {
    hide WellFormed, ThreadsOk, MemoryOk, AsleepOk, Next, Enabled;
    InitInv(cfg, s);
    RunKeepsInv(cfg, s, actions);
    var s' := Run(cfg, s, actions);
    assert EntryOk(cfg, s'.mem, s'.threads, x, s'.cache.entries[x]);
    assert EntryOk(cfg, s'.mem, s'.threads, y, s'.cache.entries[y]);
    NoWrap(x, n, cfg.expertSize);
    NoWrap(y, n, cfg.expertSize);
    Apart(x, y, cfg.expertSize);
  }

  // ----- the recorded peak -----

  /** The most RAM in use in any state of the run. */
  ghost function HighestRam(cfg: Config, s: State, actions: seq<Action>): int
    requires Legal(cfg, s, actions)
    decreases |actions|
  {
    if actions == [] then s.mem.ram
    else
      var rest := HighestRam(cfg, Next(cfg, s, actions[0]), actions[1..]);
      if s.mem.ram > rest then s.mem.ram else rest
  }

  predicate NobodyTracking(s: State) {
    forall i :: 0 <= i < |s.threads| ==> !s.threads[i].pc.Tracking?
  }

  /** `high` is the most RAM so far: recorded, or on its way from a thread that reached it. */
  ghost predicate PeakKnows(s: State, high: int) {
    && s.mem.ram <= high && s.mem.peak <= high
    && (forall i :: 0 <= i < |s.threads| && s.threads[i].pc.Tracking? ==> s.threads[i].pc.current <= high)
    && (s.mem.peak == high || exists i :: 0 <= i < |s.threads| && s.threads[i].pc.Tracking? && s.threads[i].pc.current == high)
  }

  lemma {:induction false} EvictionFreesRam(c: Cache, m: Mem, run: seq<Eviction>)
    ensures AfterMem(c, m, run).peak == m.peak && AfterMem(c, m, run).ram <= m.ram
    decreases |run|
  {
    if run != [] { EvictionFreesRam(EvictCache(c, run[0]), EvictMem(c, m, run[0]), run[1..]); }
  }

  lemma StepPeak(cfg: Config, s: State, a: Action, high: int)
    requires Enabled(cfg, s, a) && PeakKnows(s, high)
    ensures var s' := Next(cfg, s, a); PeakKnows(s', if s'.mem.ram > high then s'.mem.ram else high)
  {
    hide EvictionRun, EnterGet, EnterPrefetch, FinishWait, Unpin, HandleOf, AfterCache, Publish;
    var s' := Next(cfg, s, a);
    OthersUntouchedAll(cfg, s, a);
    match a
    case MapOk(i, _) => assert s'.threads[i].pc.current == s'.mem.ram;
    case Finish(i, run, _) =>
      if s.threads[i].pc.id in s.cache.entries {
        EvictionFreesRam(PublishedCache(cfg, s, i), PublishedMem(cfg, s, i), run);
      }
    case _ =>
    if s.mem.peak != high {
      var j :| 0 <= j < |s.threads| && s.threads[j].pc.Tracking? && s.threads[j].pc.current == high;
      assert j != a.i ==> s'.threads[j] == s.threads[j];
    }
  }

  lemma OthersUntouchedAll(cfg: Config, s: State, a: Action)
    requires Enabled(cfg, s, a)
    ensures |Next(cfg, s, a).threads| == |s.threads|
    ensures forall i :: 0 <= i < |s.threads| && i != a.i ==> Next(cfg, s, a).threads[i] == s.threads[i]
  {
    hide Enabled, Next;
    assert a.i < |s.threads| by { ActorExists(cfg, s, a); }
    OthersUntouched(cfg, s, a, a.i);
    forall i | 0 <= i < |s.threads| && i != a.i
      ensures Next(cfg, s, a).threads[i] == s.threads[i]
    {
      OthersUntouched(cfg, s, a, i);
    }
  }

  lemma ActorExists(cfg: Config, s: State, a: Action)
    requires Enabled(cfg, s, a)
    ensures a.i < |s.threads|
  {
    hide EvictionRun;
  }

  lemma {:induction false} RunPeak(cfg: Config, s: State, actions: seq<Action>, high: int)
    requires Legal(cfg, s, actions) && PeakKnows(s, high)
    ensures var rest := HighestRam(cfg, s, actions);
            PeakKnows(Run(cfg, s, actions), if rest > high then rest else high)
    decreases |actions|
  {
    hide Enabled, Next, PeakKnows;
    RamKnown(s, high);
    if actions != [] {
      var s' := Next(cfg, s, actions[0]);
      StepPeak(cfg, s, actions[0], high);
      RunPeak(cfg, s', actions[1..], if s'.mem.ram > high then s'.mem.ram else high);
      AtLeastFirst(cfg, s', actions[1..]);
    }
  }

  lemma RamKnown(s: State, high: int)
    requires PeakKnows(s, high)
    ensures s.mem.ram <= high
  {
  }

  lemma AtLeastFirst(cfg: Config, s: State, actions: seq<Action>)
    requires Legal(cfg, s, actions)
    ensures HighestRam(cfg, s, actions) >= s.mem.ram
  {
    hide Enabled, Next;
  }

  /** Whenever no thread is between mapping and recording, the peak is exactly the most RAM that was in use in any
      state of the run. */
  lemma PeakIsHighestRam(cfg: Config, s: State, actions: seq<Action>)
    requires Init(cfg, s) && Legal(cfg, s, actions) && NobodyTracking(Run(cfg, s, actions))
    ensures Run(cfg, s, actions).mem.peak == HighestRam(cfg, s, actions)
  {
    hide Enabled, Next, Run;
    RunPeak(cfg, s, actions, s.mem.ram);
    AtLeastFirst(cfg, s, actions);
  }
}
