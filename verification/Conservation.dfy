/** The memory counters against the operating system's own table of mappings, over whole runs. */
module Conservation {
  import opened Sums
  import opened CacheModel
  import opened Eviction
  import opened CacheProtocol
  import opened CacheSafety
  import opened CacheTheorems

  function LengthWeight(): (nat, Region) -> int {
    (addr: nat, r: Region) => r.length
  }

  /** Bytes really mapped for experts. */
  ghost function MappedBytes(m: Mem): int {
    Sum(m.live, LengthWeight())
  }

  /** RAM usage exceeds the mapped bytes by a fixed amount. */
  ghost predicate Exact(m: Mem, rest: int) {
    m.ram == rest + MappedBytes(m)
  }

  lemma EvictKeepsExact(cfg: Config, c: Cache, m: Mem, threads: seq<Thread>, e: Eviction, rest: int)
    requires Core(cfg, c, m, threads) && MayEvict(c, m, e) && Exact(m, rest)
    ensures Exact(EvictMem(c, m, e), rest)
  {
    hide WellFormed, MemoryOk, ThreadsOk, IsVictim, Sum;
    VictimIsCandidate(c, e.pass, e.victim);
    var entry := c.entries[e.victim];
    assert EntryOk(cfg, m, threads, e.victim, entry);
    if entry.ptr.At? { SumTake(m.live, LengthWeight(), entry.ptr.addr); }
  }

  lemma {:induction false} EvictionKeepsExact(cfg: Config, c: Cache, m: Mem, threads: seq<Thread>, run: seq<Eviction>, halt: Pass, rest: int)
    requires Core(cfg, c, m, threads) && EvictionRun(c, m, run, halt) && Exact(m, rest)
    ensures Exact(AfterMem(c, m, run), rest)
    decreases |run|
  {
    hide Core, Exact, MayEvict, MayStop;
    if run != [] {
      EvictKeepsCore(cfg, c, m, threads, run[0]);
      EvictKeepsExact(cfg, c, m, threads, run[0], rest);
      EvictionKeepsExact(cfg, EvictCache(c, run[0]), EvictMem(c, m, run[0]), threads, run[1..], halt, rest);
    }
  }

  lemma MapKeepsExact(m: Mem, id: Id, size: nat, addr: nat, rest: int)
    requires Exact(m, rest) && addr !in m.live
    ensures Exact(MapExpert(m, id, size, addr), rest)
  {
    hide Sum;
    SumInsert(m.live, LengthWeight(), addr, RegionOf(id, size));
  }

  /** Where the evictions of a finishing load start. */
  lemma FinishKeepsExact(cfg: Config, s: State, i: nat, run: seq<Eviction>, halt: Pass, rest: int)
    requires Inv(cfg, s) && Enabled(cfg, s, Finish(i, run, halt)) && Exact(s.mem, rest)
    ensures Exact(NextFinish(cfg, s, i, run).mem, rest)
  {
    hide WellFormed, ThreadsOk, EntriesOk, MemoryOk, EntryOk, HeldOk, PcOk, SameElsewhere, EvictionRun;
    PcIsCurrent(cfg, s.cache.entries, s.mem, s.threads, i);
    var c, m := PublishedCache(cfg, s, i), PublishedMem(cfg, s, i);
    var pc := s.threads[i].pc;
    var e := c.entries[pc.id];
    var t := Thread(Idle, if pc.pin then s.threads[i].held + multiset{HandleOf(pc.id, e)} else s.threads[i].held);
    PublishCore(cfg, s.cache, c, s.mem, s.threads, i, t, e);
    EvictionKeepsExact(cfg, c, m, s.threads[i := t], run, halt, rest);
  }

  lemma StepKeepsExact(cfg: Config, s: State, a: Action, rest: int)
    requires Inv(cfg, s) && Enabled(cfg, s, a) && Exact(s.mem, rest)
    ensures Exact(Next(cfg, s, a).mem, rest)
  {
    hide Inv, EvictionRun, Sum;
    match a
    case MapOk(i, addr) => MapKeepsExact(s.mem, s.threads[i].pc.id, cfg.expertSize, addr, rest);
    case Finish(i, run, halt) => FinishKeepsExact(cfg, s, i, run, halt, rest);
    case _ =>
  }

  lemma {:induction false} RunKeepsExact(cfg: Config, s: State, actions: seq<Action>, rest: int)
    requires Inv(cfg, s) && Legal(cfg, s, actions) && Exact(s.mem, rest)
    ensures Exact(Run(cfg, s, actions).mem, rest)
    decreases |actions|
  {
    hide Inv, Enabled, Next, Exact;
    if actions != [] {
      StepKeepsExact(cfg, s, actions[0], rest);
      StepKeepsInv(cfg, s, actions[0]);
      RunKeepsExact(cfg, Next(cfg, s, actions[0]), actions[1..], rest);
    }
  }

  /** In every reachable state the RAM counter is the base plus what is really mapped. */
  lemma RamIsWhatIsMapped(cfg: Config, s: State, actions: seq<Action>)
    requires Init(cfg, s) && s.mem.live == map[] && Legal(cfg, s, actions)
    ensures var m := Run(cfg, s, actions).mem; m.ram == cfg.baseRam + MappedBytes(m)
  {
    hide Inv, Enabled, Next;
    InitInv(cfg, s);
    RunKeepsExact(cfg, s, actions, cfg.baseRam);
  }

  // ----- nothing leaks -----

  predicate EntryOwns(entries: map<Id, Entry>, id: Id, addr: nat) {
    id in entries && entries[id].loaded && entries[id].ptr == At(addr)
  }

  predicate PcOwns(pc: Pc, addr: nat) {
    (pc.Tracking? && pc.addr == addr) || (pc.Mapped? && pc.ptr == At(addr))
  }

  /** The expert a mapping was made for has it in its entry, or a thread is about to publish it there. */
  ghost predicate Owned(entries: map<Id, Entry>, threads: seq<Thread>, addr: nat, id: Id) {
    || EntryOwns(entries, id, addr)
    || exists i :: 0 <= i < |threads| && PcOwns(threads[i].pc, addr) && threads[i].pc.id == id
  }

  ghost predicate AllOwned(c: Cache, m: Mem, threads: seq<Thread>) {
    forall addr :: addr in m.live ==> Owned(c.entries, threads, addr, m.live[addr].expert)
  }

  /** Another thread's move changes nothing as long as this thread owned nothing, or still owns it. */
  lemma OwnedMoves(entries: map<Id, Entry>, entries': map<Id, Entry>, threads: seq<Thread>, i: nat, t: Thread, addr: nat, id: Id)
    requires Owned(entries, threads, addr, id) && i < |threads|
    requires EntryOwns(entries, id, addr) ==> EntryOwns(entries', id, addr)
    requires PcOwns(threads[i].pc, addr) && threads[i].pc.id == id ==>
               EntryOwns(entries', id, addr) || (PcOwns(t.pc, addr) && t.pc.id == id)
    ensures Owned(entries', threads[i := t], addr, id)
  {
    hide EntryOwns;
    if !EntryOwns(entries, id, addr) {
      var j :| 0 <= j < |threads| && PcOwns(threads[j].pc, addr) && threads[j].pc.id == id;
      var next := threads[i := t][j];
      assert next == if j == i then t else threads[j];
    }
  }

  lemma EvictKeepsOwned(c: Cache, m: Mem, threads: seq<Thread>, e: Eviction)
    requires AllOwned(c, m, threads) && MayEvict(c, m, e)
    ensures AllOwned(EvictCache(c, e), EvictMem(c, m, e), threads)
  {
    hide IsVictim, PcOwns;
    VictimIsCandidate(c, e.pass, e.victim);
    forall addr | addr in EvictMem(c, m, e).live
      ensures Owned(EvictCache(c, e).entries, threads, addr, m.live[addr].expert)
    {
      assert Owned(c.entries, threads, addr, m.live[addr].expert);
    }
  }

  lemma {:induction false} EvictionKeepsOwned(c: Cache, m: Mem, threads: seq<Thread>, run: seq<Eviction>, halt: Pass)
    requires AllOwned(c, m, threads) && EvictionRun(c, m, run, halt)
    ensures AllOwned(AfterCache(c, run), AfterMem(c, m, run), threads)
    decreases |run|
  {
    hide AllOwned, MayEvict, MayStop;
    if run != [] {
      EvictKeepsOwned(c, m, threads, run[0]);
      EvictionKeepsOwned(EvictCache(c, run[0]), EvictMem(c, m, run[0]), threads, run[1..], halt);
    }
  }

  lemma MoveKeepsOwned(c: Cache, c': Cache, m: Mem, threads: seq<Thread>, i: nat, t: Thread)
    requires AllOwned(c, m, threads) && i < |threads|
    requires forall id: Id, addr: nat :: EntryOwns(c.entries, id, addr) ==> EntryOwns(c'.entries, id, addr)
    requires forall addr: nat :: PcOwns(threads[i].pc, addr) ==>
               EntryOwns(c'.entries, threads[i].pc.id, addr) || (PcOwns(t.pc, addr) && t.pc.id == threads[i].pc.id)
    ensures AllOwned(c', m, threads[i := t])
  {
    hide EntryOwns, PcOwns, Owned;
    forall addr | addr in m.live
      ensures Owned(c'.entries, threads[i := t], addr, m.live[addr].expert)
    {
      assert Owned(c.entries, threads, addr, m.live[addr].expert);
      OwnedMoves(c.entries, c'.entries, threads, i, t, addr, m.live[addr].expert);
    }
  }

  lemma GetKeepsOwned(cfg: Config, s: State, i: nat, id: Id, now: Time)
    requires i < |s.threads| && s.threads[i].pc.Idle? && AllOwned(s.cache, s.mem, s.threads)
    ensures var s' := NextGet(s, i, id, now); AllOwned(s'.cache, s'.mem, s'.threads)
  {
    hide AllOwned, EnterGet, HandleOf;
    EnterGetFields(s.cache, id, now);
    var s' := NextGet(s, i, id, now);
    MoveKeepsOwned(s.cache, s'.cache, s.mem, s.threads, i, s'.threads[i]);
  }

  lemma PrefetchKeepsOwned(cfg: Config, s: State, i: nat, id: Id, now: Time)
    requires i < |s.threads| && s.threads[i].pc.Idle? && AllOwned(s.cache, s.mem, s.threads)
    ensures var s' := NextPrefetch(s, i, id, now); AllOwned(s'.cache, s'.mem, s'.threads)
  {
    hide AllOwned, EnterPrefetch;
    EnterPrefetchFields(s.cache, id, now);
    var s' := NextPrefetch(s, i, id, now);
    MoveKeepsOwned(s.cache, s'.cache, s.mem, s.threads, i, s'.threads[i]);
    assert s'.threads == s.threads[i := s'.threads[i]];
  }

  lemma MapKeepsOwned(cfg: Config, s: State, i: nat, addr: nat)
    requires i < |s.threads| && s.threads[i].pc.Loading? && addr !in s.mem.live && AllOwned(s.cache, s.mem, s.threads)
    ensures var s' := NextMap(cfg, s, i, addr); AllOwned(s'.cache, s'.mem, s'.threads)
  {
    hide EntryOwns;
    var s' := NextMap(cfg, s, i, addr);
    MoveKeepsOwned(s.cache, s.cache, s.mem, s.threads, i, s'.threads[i]);
    assert PcOwns(s'.threads[i].pc, addr) && s'.threads[i].pc.id == s.threads[i].pc.id;
  }

  lemma FinishKeepsOwned(cfg: Config, s: State, i: nat, run: seq<Eviction>, halt: Pass)
    requires Inv(cfg, s) && Enabled(cfg, s, Finish(i, run, halt)) && AllOwned(s.cache, s.mem, s.threads)
    ensures var s' := NextFinish(cfg, s, i, run); AllOwned(s'.cache, s'.mem, s'.threads)
  {
    hide AllOwned, EvictionRun, Core, AsleepOk, AddOccupancy;
    if s.threads[i].pc.id in s.cache.entries {
      var c, m := PublishedCache(cfg, s, i), PublishedMem(cfg, s, i);
      var s' := NextFinish(cfg, s, i, run);
      PublishKeepsOwned(cfg, s, i, s'.threads[i]);
      EvictionKeepsOwned(c, m, s'.threads, run, halt);
    }
  }

  lemma PublishKeepsOwned(cfg: Config, s: State, i: nat, t: Thread)
    requires Inv(cfg, s) && i < |s.threads| && s.threads[i].pc.Mapped? && s.threads[i].pc.id in s.cache.entries
    requires AllOwned(s.cache, s.mem, s.threads)
    ensures AllOwned(PublishedCache(cfg, s, i), PublishedMem(cfg, s, i), s.threads[i := t])
  {
    hide WellFormed, EntriesOk, MemoryOk, HeldOk, Owned, AsleepOk;
    assert PcOk(cfg, s.cache.entries, s.mem, s.threads[i].pc);
    MoveKeepsOwned(s.cache, PublishedCache(cfg, s, i), s.mem, s.threads, i, t);
    assert PublishedMem(cfg, s, i).live == s.mem.live;
  }

  lemma WakeKeepsOwned(s: State, i: nat)
    requires i < |s.threads| && s.threads[i].pc.Waiting? && AllOwned(s.cache, s.mem, s.threads)
    ensures var s' := NextWake(s, i); AllOwned(s'.cache, s'.mem, s'.threads)
  {
    hide AllOwned, FinishWait, HandleOf;
    var s' := NextWake(s, i);
    if s.threads[i].pc.id in s.cache.entries { FinishWaitFields(s.cache, s.threads[i].pc.id); }
    MoveKeepsOwned(s.cache, s'.cache, s.mem, s.threads, i, s'.threads[i]);
    assert s'.threads == s.threads[i := s'.threads[i]];
  }

  lemma OtherKeepsOwned(cfg: Config, s: State, a: Action)
    requires Enabled(cfg, s, a) && AllOwned(s.cache, s.mem, s.threads)
    requires a.MapFail? || a.RecordPeak? || a.Spurious? || a.CallUnpin?
    ensures var s' := Next(cfg, s, a); AllOwned(s'.cache, s'.mem, s'.threads)
  {
    hide Owned;
    var s' := Next(cfg, s, a);
    MoveKeepsOwned(s.cache, s'.cache, s.mem, s.threads, a.i, s'.threads[a.i]);
    assert s'.threads == s.threads[a.i := s'.threads[a.i]] && s'.mem.live == s.mem.live;
  }

  lemma StepKeepsOwned(cfg: Config, s: State, a: Action)
    requires Inv(cfg, s) && Enabled(cfg, s, a) && AllOwned(s.cache, s.mem, s.threads)
    ensures var s' := Next(cfg, s, a); AllOwned(s'.cache, s'.mem, s'.threads)
  {
    hide Inv, AllOwned, EvictionRun, NextGet, NextPrefetch, NextMap, NextFinish, NextWake;
    match a
    case CallGet(i, id, now) => GetKeepsOwned(cfg, s, i, id, now);
    case CallPrefetch(i, id, now) => PrefetchKeepsOwned(cfg, s, i, id, now);
    case MapOk(i, addr) => MapKeepsOwned(cfg, s, i, addr);
    case Finish(i, run, halt) => FinishKeepsOwned(cfg, s, i, run, halt);
    case Wake(i) => WakeKeepsOwned(s, i);
    case _ => OtherKeepsOwned(cfg, s, a);
  }

  lemma {:induction false} RunKeepsOwned(cfg: Config, s: State, actions: seq<Action>)
    requires Inv(cfg, s) && Legal(cfg, s, actions) && AllOwned(s.cache, s.mem, s.threads)
    ensures var s' := Run(cfg, s, actions); AllOwned(s'.cache, s'.mem, s'.threads)
    decreases |actions|
  {
    hide Inv, Enabled, Next, AllOwned;
    if actions != [] {
      StepKeepsOwned(cfg, s, actions[0]);
      StepKeepsInv(cfg, s, actions[0]);
      RunKeepsOwned(cfg, Next(cfg, s, actions[0]), actions[1..]);
    }
  }

  lemma OwnerIsTheExpert(cfg: Config, s: State, addr: nat)
    requires Inv(cfg, s) && addr in s.mem.live
    ensures forall id: Id :: EntryOwns(s.cache.entries, id, addr) ==> id == s.mem.live[addr].expert
    ensures forall i :: 0 <= i < |s.threads| && PcOwns(s.threads[i].pc, addr) ==>
              s.threads[i].pc.id == s.mem.live[addr].expert && IsLoader(s.threads[i].pc)
              && s.threads[i].pc.id in s.cache.entries && !s.cache.entries[s.threads[i].pc.id].loaded
  {
    hide WellFormed, MemoryOk, HeldOk, AsleepOk;
    forall id: Id | EntryOwns(s.cache.entries, id, addr)
      ensures id == s.mem.live[addr].expert
    {
      assert EntryOk(cfg, s.mem, s.threads, id, s.cache.entries[id]);
    }
    forall i | 0 <= i < |s.threads| && PcOwns(s.threads[i].pc, addr)
      ensures s.threads[i].pc.id == s.mem.live[addr].expert
    {
      assert PcOk(cfg, s.cache.entries, s.mem, s.threads[i].pc);
    }
  }

  /** In every reachable state each live mapping has exactly one owner: the loaded entry of its expert and no
      thread, or one thread in flight and no entry. */
  lemma EveryMappingHasOneOwner(cfg: Config, s: State, actions: seq<Action>, addr: nat)
    requires Init(cfg, s) && s.mem.live == map[] && Legal(cfg, s, actions) && addr in Run(cfg, s, actions).mem.live
    ensures var s' := Run(cfg, s, actions);
            var id := s'.mem.live[addr].expert;
            if EntryOwns(s'.cache.entries, id, addr) then
              && (forall x: Id :: EntryOwns(s'.cache.entries, x, addr) ==> x == id)
              && (forall i :: 0 <= i < |s'.threads| ==> !PcOwns(s'.threads[i].pc, addr))
            else
              && (forall x: Id :: !EntryOwns(s'.cache.entries, x, addr))
              && exists i :: 0 <= i < |s'.threads| && PcOwns(s'.threads[i].pc, addr)
                   && forall j :: 0 <= j < |s'.threads| && j != i ==> !PcOwns(s'.threads[j].pc, addr)
  {
    hide WellFormed, EntriesOk, ThreadsOk, MemoryOk, AsleepOk, Next, Enabled, Run, Legal, Init;
    InitInv(cfg, s);
    assert AllOwned(s.cache, s.mem, s.threads);
    RunKeepsOwned(cfg, s, actions);
    RunKeepsInv(cfg, s, actions);
    var s' := Run(cfg, s, actions);
    assert Owned(s'.cache.entries, s'.threads, addr, s'.mem.live[addr].expert);
    OwnerIsTheExpert(cfg, s', addr);
    if !EntryOwns(s'.cache.entries, s'.mem.live[addr].expert, addr) {
      var i :| 0 <= i < |s'.threads| && PcOwns(s'.threads[i].pc, addr);
      forall j | 0 <= j < |s'.threads| && j != i
        ensures !PcOwns(s'.threads[j].pc, addr)
      {
        if PcOwns(s'.threads[j].pc, addr) { OnlyLoader(cfg, s'.cache.entries, s'.mem, s'.threads, i, j); }
      }
    }
  }

  // ----- once all threads are done -----

  ghost predicate AllIdle(s: State) {
    forall i :: 0 <= i < |s.threads| ==> s.threads[i].pc.Idle?
  }

  lemma NothingInFlight(cfg: Config, s: State)
    requires AllIdle(s)
    ensures Total(s.threads, FlightWeight(cfg.expertSize)) == 0
    ensures forall id: Id :: Total(s.threads, LoadWeight(id)) == 0
  {
    TotalZero(s.threads, FlightWeight(cfg.expertSize));
    forall id: Id ensures Total(s.threads, LoadWeight(id)) == 0 { TotalZero(s.threads, LoadWeight(id)); }
  }

  /** When every call has returned, all entries are loaded and both counters exceed their values at
      construction by exactly the cache's resident bytes, which are all that is mapped: so giving back
      the resident bytes, as the destructor does, restores both counters. */
  lemma QuietCacheAccountsForAll(cfg: Config, s: State, actions: seq<Action>)
    requires Init(cfg, s) && s.mem.live == map[] && Legal(cfg, s, actions) && AllIdle(Run(cfg, s, actions))
    ensures var s' := Run(cfg, s, actions);
            && (forall id: Id :: id in s'.cache.entries ==> s'.cache.entries[id].loaded)
            && s'.mem.occupancy - ResidentBytes(s'.cache) == s.mem.occupancy
            && s'.mem.ram - ResidentBytes(s'.cache) == s.mem.ram
            && MappedBytes(s'.mem) == ResidentBytes(s'.cache)
  {
    hide Listed, Accounted, ThreadsOk, Next, Enabled, MappedBytes, ResidentBytes;
    InitInv(cfg, s);
    RunKeepsInv(cfg, s, actions);
    RamIsWhatIsMapped(cfg, s, actions);
    var s' := Run(cfg, s, actions);
    NothingInFlight(cfg, s');
    forall id: Id | id in s'.cache.entries
      ensures s'.cache.entries[id].loaded
    {
      assert EntryOk(cfg, s'.mem, s'.threads, id, s'.cache.entries[id]);
    }
  }

  /** What the destructor leaves of the live mappings: it unmaps the address of every mapped entry. */
  function AfterDestruction(c: Cache, m: Mem): map<nat, Region> {
    m.live - Addresses(c.entries)
  }

  /** So destroying a quiet cache leaves no mapping behind. */
  lemma DestructionLeavesNothing(cfg: Config, s: State, actions: seq<Action>)
    requires Init(cfg, s) && s.mem.live == map[] && Legal(cfg, s, actions) && AllIdle(Run(cfg, s, actions))
    ensures var s' := Run(cfg, s, actions); AfterDestruction(s'.cache, s'.mem) == map[]
  {
    hide Inv, Next, Enabled, Run, Legal;
    InitInv(cfg, s);
    RunKeepsOwned(cfg, s, actions);
    var s' := Run(cfg, s, actions);
    forall addr | addr in s'.mem.live
      ensures addr in Addresses(s'.cache.entries)
    {
      assert Owned(s'.cache.entries, s'.threads, addr, s'.mem.live[addr].expert);
    }
  }
}
