/** What the protocol's invariant gives over whole runs: entries in use stay, pinned mappings stay
    mapped, loads are never duplicated, wake-ups are never lost, and the counters balance. */
module CacheTheorems {
  import opened Sums
  import opened CacheModel
  import opened Eviction
  import opened CacheProtocol
  import opened CacheSafety

  ghost predicate Legal(cfg: Config, s: State, actions: seq<Action>)
    decreases |actions|
  {
    actions == [] || (Enabled(cfg, s, actions[0]) && Legal(cfg, Next(cfg, s, actions[0]), actions[1..]))
  }

  ghost function Run(cfg: Config, s: State, actions: seq<Action>): State
    requires Legal(cfg, s, actions)
    decreases |actions|
  {
    if actions == [] then s else Run(cfg, Next(cfg, s, actions[0]), actions[1..])
  }

  lemma {:induction false} RunKeepsInv(cfg: Config, s: State, actions: seq<Action>)
    requires Inv(cfg, s) && Legal(cfg, s, actions)
    ensures Inv(cfg, Run(cfg, s, actions))
    decreases |actions|
  {
    hide Inv, Enabled, Next;
    if actions != [] {
      StepKeepsInv(cfg, s, actions[0]);
      RunKeepsInv(cfg, Next(cfg, s, actions[0]), actions[1..]);
    }
  }

  // ----- entries in use -----

  /** The entry a handle was given for is still there, the same object, loaded, pinned, and the
      handle's pointer shows the expert's own region of the weights file. */
  predicate HandleGood(cfg: Config, s: State, h: Handle) {
    && h.id in s.cache.entries
    && HandleOf(h.id, s.cache.entries[h.id]) == h
    && s.cache.entries[h.id].loaded && s.cache.entries[h.id].pins >= 1
    && (h.ptr.At? ==>
          h.ptr.addr in s.mem.live
          && s.mem.live[h.ptr.addr] == Region(h.id, (h.id * cfg.expertSize) % 0x1_0000_0000_0000_0000, cfg.expertSize))
  }

  /** What every thread may rely on, wherever it is. */
  ghost predicate ThreadProtected(cfg: Config, s: State, i: nat)
    requires i < |s.threads|
  {
    var t := s.threads[i];
    && (forall h: Handle :: h in t.held ==> HandleGood(cfg, s, h))
    && (t.pc.Waiting? ==> SameObject(s.cache.entries, t.pc.id, t.pc.obj) && s.cache.entries[t.pc.id].waits >= 1)
    && (IsLoader(t.pc) ==>
          && SameObject(s.cache.entries, t.pc.id, t.pc.obj) && !s.cache.entries[t.pc.id].loaded
          && forall j :: 0 <= j < |s.threads| && j != i && IsLoader(s.threads[j].pc) ==> s.threads[j].pc.id != t.pc.id)
  }

  lemma HeldHandleGood(cfg: Config, s: State, i: nat, h: Handle)
    requires Inv(cfg, s) && i < |s.threads| && h in s.threads[i].held
    ensures HandleGood(cfg, s, h)
  {
    hide WellFormed, MemoryOk, HeldOk;
    HeldIsCurrent(cfg, s.cache.entries, s.mem, s.threads, i, h);
    assert EntryOk(cfg, s.mem, s.threads, h.id, s.cache.entries[h.id]);
    TotalAtLeast(s.threads, PinWeight(h), i);
  }

  lemma WaiterCounted(cfg: Config, s: State, i: nat)
    requires Inv(cfg, s) && i < |s.threads| && s.threads[i].pc.Waiting?
    ensures var pc := s.threads[i].pc;
            SameObject(s.cache.entries, pc.id, pc.obj) && s.cache.entries[pc.id].waits >= 1
  {
    hide WellFormed, MemoryOk, HeldOk;
    var pc := s.threads[i].pc;
    PcIsCurrent(cfg, s.cache.entries, s.mem, s.threads, i);
    assert EntryOk(cfg, s.mem, s.threads, pc.id, s.cache.entries[pc.id]);
    TotalAtLeast(s.threads, WaitWeight(pc.id), i);
  }

  lemma ThreadIsProtected(cfg: Config, s: State, i: nat)
    requires Inv(cfg, s) && i < |s.threads|
    ensures ThreadProtected(cfg, s, i)
  {
    hide WellFormed, MemoryOk, HeldOk, EntriesOk, ThreadsOk, HandleGood;
    var t := s.threads[i];
    forall h: Handle | h in t.held ensures HandleGood(cfg, s, h) { HeldHandleGood(cfg, s, i, h); }
    if t.pc.Waiting? { WaiterCounted(cfg, s, i); }
    if IsLoader(t.pc) {
      PcIsCurrent(cfg, s.cache.entries, s.mem, s.threads, i);
      forall j | 0 <= j < |s.threads| && j != i && IsLoader(s.threads[j].pc)
        ensures s.threads[j].pc.id != t.pc.id
      {
        OnlyLoader(cfg, s.cache.entries, s.mem, s.threads, i, j);
      }
    }
  }

  /** In every interleaving of any number of threads, an entry some thread holds as loader, waiter or
      pin owner stays in the cache under its own id, and no id has two loaders. */
  lemma EntriesInUseStay(cfg: Config, s: State, actions: seq<Action>, i: nat)
    requires Init(cfg, s) && Legal(cfg, s, actions)
    requires i < |Run(cfg, s, actions).threads|
    ensures ThreadProtected(cfg, Run(cfg, s, actions), i)
  {
    hide Inv, Next, Enabled, ThreadProtected;
    InitInv(cfg, s);
    RunKeepsInv(cfg, s, actions);
    ThreadIsProtected(cfg, Run(cfg, s, actions), i);
  }

  // ----- a pin lasts until its unpin -----

  function Unpins(actions: seq<Action>, i: nat, h: Handle): nat {
    if actions == [] then 0
    else (if actions[0] == CallUnpin(i, h) then 1 else 0) + Unpins(actions[1..], i, h)
  }

  /** A step changes the state of its own thread only. */
  lemma OthersUntouched(cfg: Config, s: State, a: Action, i: nat)
    requires Enabled(cfg, s, a) && i < |s.threads|
    ensures |Next(cfg, s, a).threads| == |s.threads|
    ensures i != a.i ==> Next(cfg, s, a).threads[i] == s.threads[i]
  {
    hide EvictionRun, EnterGet, EnterPrefetch, AfterCache, AfterMem, FinishWait, Unpin, HandleOf, Publish, Lookup;
  }

  /** What its own steps do to the pins of a thread. */
  lemma OwnPins(cfg: Config, s: State, a: Action)
    requires Enabled(cfg, s, a)
    ensures |Next(cfg, s, a).threads| == |s.threads|
    ensures var held, held' := s.threads[a.i].held, Next(cfg, s, a).threads[a.i].held;
            if a.CallUnpin? then held' == held - multiset{a.handle} else held <= held'
  {
    hide EvictionRun, EnterGet, EnterPrefetch, AfterCache, AfterMem, FinishWait, Unpin, HandleOf, Publish;
  }

  /** A step takes a pin away from a thread only by that thread's own unpin. */
  lemma StepKeepsPins(cfg: Config, s: State, a: Action, i: nat, h: Handle)
    requires Enabled(cfg, s, a) && i < |s.threads|
    ensures |Next(cfg, s, a).threads| == |s.threads|
    ensures Next(cfg, s, a).threads[i].held[h] >= s.threads[i].held[h] - (if a == CallUnpin(i, h) then 1 else 0)
  {
    hide Next;
    assert a.i < |s.threads|;
    hide Enabled;
    OthersUntouched(cfg, s, a, i);
    OwnPins(cfg, s, a);
  }

  lemma {:induction false} RunKeepsPins(cfg: Config, s: State, actions: seq<Action>, i: nat, h: Handle)
    requires Legal(cfg, s, actions) && i < |s.threads|
    ensures var s' := Run(cfg, s, actions);
            |s'.threads| == |s.threads| && s'.threads[i].held[h] >= s.threads[i].held[h] - Unpins(actions, i, h)
    decreases |actions|
  {
    hide Enabled, Next;
    if actions != [] {
      StepKeepsPins(cfg, s, actions[0], i, h);
      RunKeepsPins(cfg, Next(cfg, s, actions[0]), actions[1..], i, h);
    }
  }

  /** However the other threads load, evict or unpin in between: while a thread has made fewer unpins
      than it owns pins, its handle stays good, so its pointer is never unmapped early. */
  lemma PinOutlivesEverythingElse(cfg: Config, s: State, actions: seq<Action>, i: nat, h: Handle)
    requires Inv(cfg, s) && Legal(cfg, s, actions) && i < |s.threads|
    requires s.threads[i].held[h] > Unpins(actions, i, h)
    ensures HandleGood(cfg, Run(cfg, s, actions), h)
  {
    hide Inv, Enabled, Next, HandleGood;
    RunKeepsInv(cfg, s, actions);
    RunKeepsPins(cfg, s, actions, i, h);
    HeldHandleGood(cfg, Run(cfg, s, actions), i, h);
  }

  // ----- no lost wake-ups, no duplicate loads -----

  /** Exactly one thread loads an entry that is not loaded, and none loads one that is. */
  ghost predicate SingleLoader(s: State, id: Id)
    requires id in s.cache.entries
  {
    if s.cache.entries[id].loaded then
      forall j :: 0 <= j < |s.threads| && IsLoader(s.threads[j].pc) ==> s.threads[j].pc.id != id
    else
      exists j :: 0 <= j < |s.threads| && IsLoader(s.threads[j].pc) && s.threads[j].pc.id == id
               && forall k :: 0 <= k < |s.threads| && k != j && IsLoader(s.threads[k].pc) ==> s.threads[k].pc.id != id
  }

  lemma LoaderOf(cfg: Config, s: State, id: Id) returns (j: nat)
    requires Inv(cfg, s) && id in s.cache.entries && !s.cache.entries[id].loaded
    ensures j < |s.threads| && IsLoader(s.threads[j].pc) && s.threads[j].pc.id == id
    ensures forall k :: 0 <= k < |s.threads| && k != j && IsLoader(s.threads[k].pc) ==> s.threads[k].pc.id != id
  {
    hide WellFormed, MemoryOk, HeldOk, ThreadsOk;
    assert EntryOk(cfg, s.mem, s.threads, id, s.cache.entries[id]);
    j := TotalPositive(s.threads, LoadWeight(id));
    forall k | 0 <= k < |s.threads| && k != j && IsLoader(s.threads[k].pc)
      ensures s.threads[k].pc.id != id
    {
      OnlyLoader(cfg, s.cache.entries, s.mem, s.threads, j, k);
    }
  }

  lemma EntryHasSingleLoader(cfg: Config, s: State, id: Id)
    requires Inv(cfg, s) && id in s.cache.entries
    ensures SingleLoader(s, id)
  {
    hide WellFormed, MemoryOk, HeldOk, EntriesOk, ThreadsOk;
    if s.cache.entries[id].loaded {
      forall j | 0 <= j < |s.threads| && IsLoader(s.threads[j].pc)
        ensures s.threads[j].pc.id != id
      {
        PcIsCurrent(cfg, s.cache.entries, s.mem, s.threads, j);
      }
    } else {
      var j := LoaderOf(cfg, s, id);
    }
  }

  /** In every reachable state each pending entry has exactly one loader in flight, each loaded one
      has none, and a thread is asleep only while the entry it waits for still has its loader to come:
      a waiter whose entry is loaded has been notified and can run. */
  lemma NoLostWakeUps(cfg: Config, s: State, actions: seq<Action>)
    requires Init(cfg, s) && Legal(cfg, s, actions)
    ensures var s' := Run(cfg, s, actions);
            && (forall id: Id :: id in s'.cache.entries ==> SingleLoader(s', id))
            && (forall i :: i in s'.asleep ==> i < |s'.threads| && s'.threads[i].pc.Waiting?)
            && (forall i :: 0 <= i < |s'.threads| && s'.threads[i].pc.Waiting? ==>
                  && s'.threads[i].pc.id in s'.cache.entries
                  && (s'.cache.entries[s'.threads[i].pc.id].loaded ==> i !in s'.asleep))
  {
    hide Core, Next, Enabled, SingleLoader;
    InitInv(cfg, s);
    RunKeepsInv(cfg, s, actions);
    var s' := Run(cfg, s, actions);
    forall id: Id | id in s'.cache.entries ensures SingleLoader(s', id) { EntryHasSingleLoader(cfg, s', id); }
    forall i | 0 <= i < |s'.threads| && s'.threads[i].pc.Waiting?
      ensures s'.threads[i].pc.id in s'.cache.entries
    {
      WaiterCounted(cfg, s', i);
    }
  }

  // ----- conservation -----

  function Gets(actions: seq<Action>): nat {
    if actions == [] then 0 else (if actions[0].CallGet? then 1 else 0) + Gets(actions[1..])
  }

  lemma StepCounts(cfg: Config, s: State, a: Action)
    requires Enabled(cfg, s, a)
    ensures var c, c' := s.cache, Next(cfg, s, a).cache;
            && c'.hits + c'.misses == c.hits + c.misses + (if a.CallGet? then 1 else 0)
            && c'.max == c.max
  {
    hide EvictionRun;
    match a
    case CallGet(_, id, now) => GetCountsOnce(s.cache, id, now);
    case Finish(i, run, _) =>
      if s.threads[i].pc.id in s.cache.entries { EvictionCounts(PublishedCache(cfg, s, i), run); }
    case _ =>
  }

  lemma {:induction false} RunCounts(cfg: Config, s: State, actions: seq<Action>)
    requires Legal(cfg, s, actions)
    ensures var c' := Run(cfg, s, actions).cache;
            c'.hits + c'.misses == s.cache.hits + s.cache.misses + Gets(actions) && c'.max == s.cache.max
    decreases |actions|
  {
    hide Enabled, Next;
    if actions != [] {
      StepCounts(cfg, s, actions[0]);
      RunCounts(cfg, Next(cfg, s, actions[0]), actions[1..]);
    }
  }

  /** After any run: the occupancy is the bytes of the loaded, really mapped entries; the RAM in use is
      that plus the loads mapped but not yet published plus everything else; entries created are the
      resident ones plus the evicted ones; and each `get_and_pin` is one hit or one miss. */
  lemma CountersBalance(cfg: Config, s: State, actions: seq<Action>)
    requires Init(cfg, s) && Legal(cfg, s, actions)
    ensures var s' := Run(cfg, s, actions);
            && s'.mem.occupancy == ResidentBytes(s'.cache)
            && s'.mem.ram == cfg.baseRam + s'.mem.occupancy + Total(s'.threads, FlightWeight(cfg.expertSize))
            && s'.cache.created == |s'.cache.entries.Keys| + s'.cache.evictions
            && s'.cache.hits + s'.cache.misses == Gets(actions)
  {
    hide Listed, Accounted, EntriesOk, ThreadsOk, Next, Enabled;
    InitInv(cfg, s);
    RunKeepsInv(cfg, s, actions);
    RunCounts(cfg, s, actions);
  }
}
