/** The cache as a concurrent protocol: any number of threads run `get_and_pin`, `unpin` and
    `prefetch_expert`. The atomic steps are the critical sections of the mutex, the map call made
    outside it, and the sleep and wake of the condition variable. */
module CacheProtocol {
  import opened Sums
  import opened CacheModel
  import opened Eviction

  /** What `get_and_pin` hands to its caller: the entry object and the mapping it shows. */
  datatype Handle = Handle(id: Id, obj: nat, ptr: Ptr, size: nat)

  datatype Pc =
    | Idle
    | Loading(id: Id, obj: nat, pin: bool)                           // placeholder in, mutex dropped
    | Tracking(id: Id, obj: nat, pin: bool, addr: nat, current: int) // mapped, peak not yet updated
    | Mapped(id: Id, obj: nat, pin: bool, ptr: Ptr)                  // map call returned
    | Waiting(id: Id, obj: nat)                                      // inside cache_cv_.wait

  datatype Thread = Thread(pc: Pc, held: multiset<Handle>)

  /** `asleep` holds the threads blocked on the condition variable and not notified since. */
  datatype State = State(cache: Cache, mem: Mem, threads: seq<Thread>, asleep: set<nat>)

  /** Size of an expert, the largest hotset limit in use, and the RAM used by everything else. */
  datatype Config = Config(expertSize: nat, hotLimit: nat, baseRam: int)

  datatype Action =
    | CallGet(i: nat, id: Id, now: Time)
    | CallPrefetch(i: nat, id: Id, now: Time)
    | MapOk(i: nat, addr: nat)
    | MapFail(i: nat)
    | RecordPeak(i: nat)
    | Finish(i: nat, run: seq<Eviction>, halt: Pass)
    | Wake(i: nat)
    | Spurious(i: nat)
    | CallUnpin(i: nat, handle: Handle)

  function HandleOf(id: Id, e: Entry): Handle {
    Handle(id, e.obj, e.ptr, e.size)
  }

  predicate IsLoader(pc: Pc) {
    pc.Loading? || pc.Tracking? || pc.Mapped?
  }

  function PublishedCache(cfg: Config, s: State, i: nat): Cache
    requires i < |s.threads| && s.threads[i].pc.Mapped? && s.threads[i].pc.id in s.cache.entries
  {
    var pc := s.threads[i].pc;
    Publish(s.cache, pc.id, pc.ptr, cfg.expertSize, pc.pin)
  }

  function PublishedMem(cfg: Config, s: State, i: nat): Mem
    requires i < |s.threads| && s.threads[i].pc.Mapped?
  {
    AddOccupancy(s.mem, s.threads[i].pc.ptr, cfg.expertSize)
  }

  ghost predicate Enabled(cfg: Config, s: State, a: Action) {
    && a.i < |s.threads|
    && var t := s.threads[a.i];
       match a
       case CallGet(_, _, now) => t.pc.Idle? && NotBefore(s.cache.log, now)
       case CallPrefetch(_, _, now) => t.pc.Idle? && NotBefore(s.cache.log, now)
       case MapOk(_, addr) => t.pc.Loading? && addr !in s.mem.live
       case MapFail(_) => t.pc.Loading?
       case RecordPeak(_) => t.pc.Tracking?
       case Finish(i, run, halt) =>
         && t.pc.Mapped? && HotLimit(halt.hot) <= cfg.hotLimit
         && (t.pc.id in s.cache.entries ==>
               EvictionRun(PublishedCache(cfg, s, i), PublishedMem(cfg, s, i), run, halt))
       case Wake(i) => t.pc.Waiting? && i !in s.asleep
       case Spurious(i) => i in s.asleep
       case CallUnpin(_, h) => t.pc.Idle? && h in t.held  // pin discipline of the callers
  }

  function Move(s: State, i: nat, t: Thread): State
    requires i < |s.threads|
  {
    s.(threads := s.threads[i := t])
  }

  function NextGet(s: State, i: nat, id: Id, now: Time): State
    requires i < |s.threads|
  {
    var t := s.threads[i];
    var c := EnterGet(s.cache, id, now);
    var s' := s.(cache := c);
    match Lookup(s.cache, id)
    case Loaded => Move(s', i, t.(held := t.held + multiset{HandleOf(id, s.cache.entries[id])}))
    case Pending => Move(s', i, t.(pc := Waiting(id, s.cache.entries[id].obj))).(asleep := s.asleep + {i})
    case Absent => Move(s', i, t.(pc := Loading(id, s.cache.created, true)))
  }

  function NextPrefetch(s: State, i: nat, id: Id, now: Time): State
    requires i < |s.threads|
  {
    var s' := s.(cache := EnterPrefetch(s.cache, id, now));
    if id in s.cache.entries then s'
    else Move(s', i, s.threads[i].(pc := Loading(id, s.cache.created, false)))
  }

  function NextMap(cfg: Config, s: State, i: nat, addr: nat): State
    requires i < |s.threads| && s.threads[i].pc.Loading?
  {
    var pc := s.threads[i].pc;
    var m := MapExpert(s.mem, pc.id, cfg.expertSize, addr);
    Move(s.(mem := m), i, s.threads[i].(pc := Tracking(pc.id, pc.obj, pc.pin, addr, m.ram)))
  }

  /** Publish, notify everyone, then evict, all under the mutex. */
  function NextFinish(cfg: Config, s: State, i: nat, run: seq<Eviction>): State
    requires i < |s.threads| && s.threads[i].pc.Mapped?
  {
    var t := s.threads[i];
    if t.pc.id !in s.cache.entries then s  // the entry object would be gone: never happens, by Inv
    else
      var c, m := PublishedCache(cfg, s, i), PublishedMem(cfg, s, i);
      var held := if t.pc.pin then t.held + multiset{HandleOf(t.pc.id, c.entries[t.pc.id])} else t.held;
      Move(s.(cache := AfterCache(c, run), mem := AfterMem(c, m, run), asleep := {}), i, Thread(Idle, held))
  }

  /** A notified waiter retakes the mutex and tests its entry: it goes on, or back to sleep. */
  function NextWake(s: State, i: nat): State
    requires i < |s.threads| && s.threads[i].pc.Waiting?
  {
    var t := s.threads[i];
    var id := t.pc.id;
    if id !in s.cache.entries then s  // likewise
    else if s.cache.entries[id].loaded then
      Move(s.(cache := FinishWait(s.cache, id)), i,
           Thread(Idle, t.held + multiset{HandleOf(id, s.cache.entries[id])}))
    else s.(asleep := s.asleep + {i})
  }

  ghost function Next(cfg: Config, s: State, a: Action): State
    requires Enabled(cfg, s, a)
  {
    var t := s.threads[a.i];
    match a
    case CallGet(i, id, now) => NextGet(s, i, id, now)
    case CallPrefetch(i, id, now) => NextPrefetch(s, i, id, now)
    case MapOk(i, addr) => NextMap(cfg, s, i, addr)
    case MapFail(i) => Move(s, i, t.(pc := Mapped(t.pc.id, t.pc.obj, t.pc.pin, Null)))
    case RecordPeak(i) =>
      Move(s.(mem := TrackPeak(s.mem, t.pc.current)), i,
           t.(pc := Mapped(t.pc.id, t.pc.obj, t.pc.pin, At(t.pc.addr))))
    case Finish(i, run, _) => NextFinish(cfg, s, i, run)
    case Wake(i) => NextWake(s, i)
    case Spurious(i) => s.(asleep := s.asleep - {i})
    case CallUnpin(i, h) =>
      Move(s.(cache := Unpin(s.cache, h.id)), i, t.(held := t.held - multiset{h}))
  }

  // ----- counting threads -----

  function PinWeight(h: Handle): Thread -> int {
    (t: Thread) => t.held[h]
  }

  function WaitWeight(id: Id): Thread -> int {
    (t: Thread) => if t.pc.Waiting? && t.pc.id == id then 1 else 0
  }

  function LoadWeight(id: Id): Thread -> int {
    (t: Thread) => if IsLoader(t.pc) && t.pc.id == id then 1 else 0
  }

  /** Bytes a thread has mapped but not published. */
  function FlightWeight(size: nat): Thread -> int {
    (t: Thread) => if t.pc.Tracking? || (t.pc.Mapped? && t.pc.ptr.At?) then size else 0
  }

  // ----- the invariant -----

  predicate Shows(cfg: Config, m: Mem, p: Ptr, id: Id) {
    p.At? ==> p.addr in m.live && m.live[p.addr] == RegionOf(id, cfg.expertSize)
  }

  /** An entry's counters count the threads that hold, await or load it. */
  predicate EntryOk(cfg: Config, m: Mem, threads: seq<Thread>, id: Id, e: Entry) {
    && e.pins == Total(threads, PinWeight(HandleOf(id, e)))
    && e.waits == Total(threads, WaitWeight(id))
    && Total(threads, LoadWeight(id)) == (if e.loaded then 0 else 1)
    && (if e.loaded then e.size == cfg.expertSize else e.size == 0 && e.ptr.Null?)
    && Shows(cfg, m, e.ptr, id)
  }

  predicate SameObject(entries: map<Id, Entry>, id: Id, obj: nat) {
    id in entries && entries[id].obj == obj
  }

  predicate PcOk(cfg: Config, entries: map<Id, Entry>, m: Mem, pc: Pc) {
    match pc
    case Idle => true
    case Loading(id, obj, _) => SameObject(entries, id, obj) && !entries[id].loaded
    case Tracking(id, obj, _, addr, _) =>
      SameObject(entries, id, obj) && !entries[id].loaded && Shows(cfg, m, At(addr), id)
    case Mapped(id, obj, _, ptr) =>
      SameObject(entries, id, obj) && !entries[id].loaded && Shows(cfg, m, ptr, id)
    case Waiting(id, obj) => SameObject(entries, id, obj)
  }

  ghost predicate HeldOk(entries: map<Id, Entry>, held: multiset<Handle>) {
    forall h: Handle :: h in held ==>
      h.id in entries && entries[h.id].loaded && h == HandleOf(h.id, entries[h.id])
  }

  ghost predicate ThreadsOk(cfg: Config, entries: map<Id, Entry>, m: Mem, threads: seq<Thread>) {
    forall i :: 0 <= i < |threads| ==>
      PcOk(cfg, entries, m, threads[i].pc) && HeldOk(entries, threads[i].held)
  }

  /** A thread sleeps only while the entry it waits for is not loaded. */
  predicate AsleepOk(entries: map<Id, Entry>, threads: seq<Thread>, asleep: set<nat>) {
    forall i :: i in asleep ==>
      && i < |threads| && threads[i].pc.Waiting?
      && threads[i].pc.id in entries && !entries[threads[i].pc.id].loaded
  }

  ghost predicate EntriesOk(cfg: Config, entries: map<Id, Entry>, m: Mem, threads: seq<Thread>) {
    forall id: Id :: id in entries ==> EntryOk(cfg, m, threads, id, entries[id])
  }

  /** Occupancy is what is published; RAM is that, the loads in flight and everything else. */
  ghost predicate MemoryOk(cfg: Config, c: Cache, m: Mem, threads: seq<Thread>) {
    && m.occupancy == ResidentBytes(c)
    && m.ram == cfg.baseRam + m.occupancy + Total(threads, FlightWeight(cfg.expertSize))
  }

  ghost predicate Core(cfg: Config, c: Cache, m: Mem, threads: seq<Thread>) {
    && WellFormed(c)
    && EntriesOk(cfg, c.entries, m, threads)
    && ThreadsOk(cfg, c.entries, m, threads)
    && MemoryOk(cfg, c, m, threads)
  }

  ghost predicate Inv(cfg: Config, s: State) {
    && Core(cfg, s.cache, s.mem, s.threads)
    && AsleepOk(s.cache.entries, s.threads, s.asleep)
  }

  ghost predicate Init(cfg: Config, s: State) {
    && s.cache == EmptyCache(s.cache.max)
    && s.mem.occupancy == 0 && s.mem.ram == s.mem.peak == cfg.baseRam
    && (forall i :: 0 <= i < |s.threads| ==> s.threads[i] == Thread(Idle, multiset{}))
    && s.asleep == {}
  }

  lemma InitInv(cfg: Config, s: State)
    requires Init(cfg, s)
    ensures Inv(cfg, s)
  {
    TotalZero(s.threads, FlightWeight(cfg.expertSize));
    assert Stamps([], 0) == [];
  }

  // ----- who refers to an id -----

  /** No thread refers to an id that is not resident. */
  lemma Unreferenced(cfg: Config, entries: map<Id, Entry>, m: Mem, threads: seq<Thread>, id: Id, h: Handle)
    requires ThreadsOk(cfg, entries, m, threads) && id !in entries && h.id == id
    ensures Total(threads, PinWeight(h)) == 0
    ensures Total(threads, WaitWeight(id)) == 0
    ensures Total(threads, LoadWeight(id)) == 0
  {
    forall t | t in threads
      ensures PinWeight(h)(t) == 0 && WaitWeight(id)(t) == 0 && LoadWeight(id)(t) == 0
    {
      var i :| 0 <= i < |threads| && threads[i] == t;
      assert PcOk(cfg, entries, m, threads[i].pc) && HeldOk(entries, threads[i].held);
    }
    TotalZero(threads, PinWeight(h));
    TotalZero(threads, WaitWeight(id));
    TotalZero(threads, LoadWeight(id));
  }

  /** Nobody holds a pin on an entry that is not loaded yet. */
  lemma NotHeldBeforeLoaded(cfg: Config, entries: map<Id, Entry>, m: Mem, threads: seq<Thread>, h: Handle)
    requires ThreadsOk(cfg, entries, m, threads)
    requires h.id in entries && !entries[h.id].loaded
    ensures Total(threads, PinWeight(h)) == 0
  {
    forall t | t in threads
      ensures PinWeight(h)(t) == 0
    {
      var i :| 0 <= i < |threads| && threads[i] == t;
      assert HeldOk(entries, threads[i].held);
    }
    TotalZero(threads, PinWeight(h));
  }

  /** An evictable entry is referred to by no thread. */
  lemma EvictableUnreferenced(cfg: Config, c: Cache, m: Mem, threads: seq<Thread>, id: Id, i: nat)
    requires Core(cfg, c, m, threads) && id in c.entries && Evictable(c.entries[id]) && i < |threads|
    ensures threads[i].pc.Idle? || threads[i].pc.id != id
    ensures forall h: Handle :: h in threads[i].held ==> h.id != id
  {
    hide WellFormed, MemoryOk;
    var e := c.entries[id];
    assert EntryOk(cfg, m, threads, id, e);
    TotalAtLeast(threads, PinWeight(HandleOf(id, e)), i);
    TotalAtLeast(threads, WaitWeight(id), i);
    TotalAtLeast(threads, LoadWeight(id), i);
    assert PcOk(cfg, c.entries, m, threads[i].pc) && HeldOk(c.entries, threads[i].held);
  }

  // ----- eviction keeps the core invariant -----

  lemma EvictKeepsThreads(cfg: Config, c: Cache, m: Mem, threads: seq<Thread>, id: Id)
    requires Core(cfg, c, m, threads) && id in c.entries && Evictable(c.entries[id])
    ensures ThreadsOk(cfg, Discard(c, id).entries, Release(m, c.entries[id]), threads)
  {
    hide WellFormed, MemoryOk;
    var e := c.entries[id];
    assert EntryOk(cfg, m, threads, id, e);
    forall i | 0 <= i < |threads|
      ensures PcOk(cfg, c.entries - {id}, Release(m, e), threads[i].pc)
      ensures HeldOk(c.entries - {id}, threads[i].held)
    {
      EvictableUnreferenced(cfg, c, m, threads, id, i);
      assert PcOk(cfg, c.entries, m, threads[i].pc) && HeldOk(c.entries, threads[i].held);
    }
  }

  lemma EvictKeepsEntries(cfg: Config, c: Cache, m: Mem, threads: seq<Thread>, id: Id)
    requires EntriesOk(cfg, c.entries, m, threads) && id in c.entries
    ensures EntriesOk(cfg, c.entries - {id}, Release(m, c.entries[id]), threads)
  {
    var e := c.entries[id];
    assert EntryOk(cfg, m, threads, id, e);
    forall x: Id | x in c.entries - {id}
      ensures EntryOk(cfg, Release(m, e), threads, x, c.entries[x])
    {
      assert EntryOk(cfg, m, threads, x, c.entries[x]);
    }
  }

  lemma EvictKeepsCore(cfg: Config, c: Cache, m: Mem, threads: seq<Thread>, e: Eviction)
    requires Core(cfg, c, m, threads) && MayEvict(c, m, e)
    ensures Core(cfg, EvictCache(c, e), EvictMem(c, m, e), threads)
  {
    hide WellFormed, ThreadsOk, EntriesOk, MayEvict, Hotset;
    VictimOfRun(c, m, e);
    EvictOneBytes(c, m, e);
    EvictKeepsThreads(cfg, c, m, threads, e.victim);
    EvictKeepsEntries(cfg, c, m, threads, e.victim);
    DiscardKeeps(c, e.victim);
    EvictableHasBytes(cfg, c, m, threads, e.victim);
  }

  lemma VictimOfRun(c: Cache, m: Mem, e: Eviction)
    requires MayEvict(c, m, e)
    ensures e.victim in c.entries && Evictable(c.entries[e.victim])
  {
    VictimIsCandidate(c, e.pass, e.victim);
  }

  lemma EvictableHasBytes(cfg: Config, c: Cache, m: Mem, threads: seq<Thread>, id: Id)
    requires id in c.entries && Evictable(c.entries[id])
    ensures Release(m, c.entries[id]).ram == m.ram - Bytes(c.entries[id])
    ensures Discard(c, id).entries == c.entries - {id}
  {
  }

  lemma {:induction false} EvictionKeepsCore(cfg: Config, c: Cache, m: Mem, threads: seq<Thread>, run: seq<Eviction>, halt: Pass)
    requires Core(cfg, c, m, threads) && EvictionRun(c, m, run, halt)
    ensures Core(cfg, AfterCache(c, run), AfterMem(c, m, run), threads)
    decreases |run|
  {
    if run != [] {
      EvictKeepsCore(cfg, c, m, threads, run[0]);
      EvictionKeepsCore(cfg, EvictCache(c, run[0]), EvictMem(c, m, run[0]), threads, run[1..], halt);
    }
  }
}
