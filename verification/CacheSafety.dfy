/** Every step of the protocol keeps its invariant; what that means for the threads that hold,
    await or load an entry, for the wake-ups and for the counters. */
module CacheSafety {
  import opened Sums
  import opened CacheModel
  import opened Eviction
  import opened CacheProtocol

  // ----- one thread moves, one entry changes -----

  lemma TotalsMove(threads: seq<Thread>, i: nat, t: Thread, h: Handle, id: Id)
    requires i < |threads|
    ensures var ts := threads[i := t];
            && Total(ts, PinWeight(h)) == Total(threads, PinWeight(h)) - threads[i].held[h] + t.held[h]
            && Total(ts, WaitWeight(id)) == Total(threads, WaitWeight(id)) - WaitWeight(id)(threads[i]) + WaitWeight(id)(t)
            && Total(ts, LoadWeight(id)) == Total(threads, LoadWeight(id)) - LoadWeight(id)(threads[i]) + LoadWeight(id)(t)
  {
    TotalUpdate(threads, PinWeight(h), i, t);
    TotalUpdate(threads, WaitWeight(id), i, t);
    TotalUpdate(threads, LoadWeight(id), i, t);
  }

  predicate Concerns(pc: Pc, id: Id) {
    pc.Idle? || pc.id == id
  }

  /** Two sets of handles that differ only in handles on `id`. */
  ghost predicate SameElsewhere(a: multiset<Handle>, b: multiset<Handle>, id: Id) {
    forall h: Handle :: h.id != id ==> a[h] == b[h]
  }

  predicate MemGrows(m: Mem, m': Mem) {
    forall a :: a in m.live ==> a in m'.live && m'.live[a] == m.live[a]
  }

  /** The move of a thread whose business is `id` does not disturb the other entries. */
  lemma OthersKeep(cfg: Config, entries: map<Id, Entry>, m: Mem, m': Mem, threads: seq<Thread>, i: nat, t: Thread, id: Id, e: Entry)
    requires EntriesOk(cfg, entries, m, threads) && i < |threads| && MemGrows(m, m')
    requires Concerns(threads[i].pc, id) && Concerns(t.pc, id)
    requires SameElsewhere(t.held, threads[i].held, id)
    requires EntryOk(cfg, m', threads[i := t], id, e)
    ensures EntriesOk(cfg, entries[id := e], m', threads[i := t])
  {
    forall x: Id | x in entries && x != id
      ensures EntryOk(cfg, m', threads[i := t], x, entries[x])
    {
      assert EntryOk(cfg, m, threads, x, entries[x]);
      TotalsMove(threads, i, t, HandleOf(x, entries[x]), x);
    }
  }

  /** An update of an entry that keeps its identity, mapping and load state suits every thread. */
  lemma ThreadsKeep(cfg: Config, entries: map<Id, Entry>, m: Mem, m': Mem, threads: seq<Thread>, i: nat, t: Thread, id: Id, e: Entry)
    requires ThreadsOk(cfg, entries, m, threads) && i < |threads| && MemGrows(m, m')
    requires id in entries ==> e == entries[id].(pins := e.pins, waits := e.waits)
    requires PcOk(cfg, entries[id := e], m', t.pc) && HeldOk(entries[id := e], t.held)
    ensures ThreadsOk(cfg, entries[id := e], m', threads[i := t])
  {
    var ts := threads[i := t];
    forall j | 0 <= j < |ts|
      ensures PcOk(cfg, entries[id := e], m', ts[j].pc) && HeldOk(entries[id := e], ts[j].held)
    {
      assert PcOk(cfg, entries, m, threads[j].pc) && HeldOk(entries, threads[j].held);
    }
  }

  /** The counters move with the one entry and the one thread that change. */
  predicate CountersMove(cfg: Config, entries: map<Id, Entry>, id: Id, e: Entry, m: Mem, m': Mem, before: Thread, after: Thread) {
    var published := Bytes(e) - BytesAt(entries, id);
    var f := FlightWeight(cfg.expertSize);
    && m'.occupancy == m.occupancy + published
    && m'.ram == m.ram + published + f(after) - f(before)
  }

  lemma CoreMoves(cfg: Config, c: Cache, c': Cache, m: Mem, m': Mem, threads: seq<Thread>, i: nat, t: Thread, id: Id, e: Entry)
    requires Core(cfg, c, m, threads) && i < |threads| && MemGrows(m, m')
    requires WellFormed(c') && c'.entries == c.entries[id := e]
    requires Concerns(threads[i].pc, id) && Concerns(t.pc, id)
    requires SameElsewhere(t.held, threads[i].held, id)
    requires EntryOk(cfg, m', threads[i := t], id, e)
    requires ThreadsOk(cfg, c'.entries, m', threads[i := t])
    requires CountersMove(cfg, c.entries, id, e, m, m', threads[i], t)
    ensures Core(cfg, c', m', threads[i := t])
  {
    hide WellFormed, ThreadsOk, EntriesOk, EntryOk, SameElsewhere;
    OthersKeep(cfg, c.entries, m, m', threads, i, t, id, e);
    ResidentMoves(c, c', id, e);
    TotalUpdate(threads, FlightWeight(cfg.expertSize), i, t);
  }

  // ----- the steps -----

  lemma EnterGetFields(c: Cache, id: Id, now: Time)
    ensures EnterGet(c, id, now).entries ==
            match Lookup(c, id)
            case Loaded => c.entries[id := c.entries[id].(pins := c.entries[id].pins + 1)]
            case Pending => c.entries[id := c.entries[id].(waits := c.entries[id].waits + 1)]
            case Absent => c.entries[id := Entry(c.created, Null, 0, 0, 0, false)]
  {
  }

  ghost predicate TakesPin(c: Cache, threads: seq<Thread>, i: nat, t: Thread, id: Id, e: Entry) {
    && i < |threads| && id in c.entries && c.entries[id].loaded
    && (threads[i].pc.Idle? || (threads[i].pc.Waiting? && threads[i].pc.id == id))
    && e == c.entries[id].(pins := c.entries[id].pins + 1,
                           waits := c.entries[id].waits - if threads[i].pc.Waiting? then 1 else 0)
    && t == Thread(Idle, threads[i].held + multiset{HandleOf(id, c.entries[id])})
  }

  lemma PinTakenEntry(cfg: Config, c: Cache, m: Mem, threads: seq<Thread>, i: nat, t: Thread, id: Id, e: Entry)
    requires EntriesOk(cfg, c.entries, m, threads) && TakesPin(c, threads, i, t, id, e)
    ensures EntryOk(cfg, m, threads[i := t], id, e)
  {
    assert EntryOk(cfg, m, threads, id, c.entries[id]) && HandleOf(id, c.entries[id]) == HandleOf(id, e);
    TotalsMove(threads, i, t, HandleOf(id, e), id);
  }

  lemma PinTakenThreads(cfg: Config, c: Cache, m: Mem, threads: seq<Thread>, i: nat, t: Thread, id: Id, e: Entry)
    requires ThreadsOk(cfg, c.entries, m, threads) && TakesPin(c, threads, i, t, id, e)
    ensures ThreadsOk(cfg, c.entries[id := e], m, threads[i := t])
    ensures SameElsewhere(t.held, threads[i].held, id)
  {
    assert PcOk(cfg, c.entries, m, threads[i].pc) && HeldOk(c.entries, threads[i].held);
    assert HeldOk(c.entries[id := e], t.held);
    ThreadsKeep(cfg, c.entries, m, m, threads, i, t, id, e);
  }

  /** Thread `i` gains one pin on the loaded entry `id`, possibly giving up its wait for it. */
  lemma PinTaken(cfg: Config, c: Cache, c': Cache, m: Mem, threads: seq<Thread>, i: nat, t: Thread, id: Id, e: Entry)
    requires Core(cfg, c, m, threads) && WellFormed(c') && c'.entries == c.entries[id := e]
    requires TakesPin(c, threads, i, t, id, e)
    ensures Core(cfg, c', m, threads[i := t])
  {
    hide WellFormed, ThreadsOk, EntriesOk, MemoryOk, EntryOk, HeldOk, PcOk, SameElsewhere;
    PinTakenEntry(cfg, c, m, threads, i, t, id, e);
    PinTakenThreads(cfg, c, m, threads, i, t, id, e);
    CoreMoves(cfg, c, c', m, m, threads, i, t, id, e);
  }

  ghost predicate StartsWait(c: Cache, threads: seq<Thread>, i: nat, t: Thread, id: Id, e: Entry) {
    && i < |threads| && id in c.entries && !c.entries[id].loaded && threads[i].pc.Idle?
    && e == c.entries[id].(waits := c.entries[id].waits + 1)
    && t == threads[i].(pc := Waiting(id, e.obj))
  }

  lemma WaitEntry(cfg: Config, c: Cache, m: Mem, threads: seq<Thread>, i: nat, t: Thread, id: Id, e: Entry)
    requires EntriesOk(cfg, c.entries, m, threads) && StartsWait(c, threads, i, t, id, e)
    ensures EntryOk(cfg, m, threads[i := t], id, e)
  {
    assert EntryOk(cfg, m, threads, id, c.entries[id]) && HandleOf(id, c.entries[id]) == HandleOf(id, e);
    TotalsMove(threads, i, t, HandleOf(id, e), id);
  }

  lemma WaitThreads(cfg: Config, c: Cache, m: Mem, threads: seq<Thread>, i: nat, t: Thread, id: Id, e: Entry)
    requires ThreadsOk(cfg, c.entries, m, threads) && StartsWait(c, threads, i, t, id, e)
    ensures ThreadsOk(cfg, c.entries[id := e], m, threads[i := t])
    ensures SameElsewhere(t.held, threads[i].held, id)
  {
    assert PcOk(cfg, c.entries, m, threads[i].pc) && HeldOk(c.entries, threads[i].held);
    assert HeldOk(c.entries[id := e], t.held);
    ThreadsKeep(cfg, c.entries, m, m, threads, i, t, id, e);
  }

  lemma WaitCore(cfg: Config, c: Cache, c': Cache, m: Mem, threads: seq<Thread>, i: nat, t: Thread, id: Id, e: Entry)
    requires Core(cfg, c, m, threads) && WellFormed(c') && c'.entries == c.entries[id := e]
    requires StartsWait(c, threads, i, t, id, e)
    ensures Core(cfg, c', m, threads[i := t])
  {
    hide WellFormed, ThreadsOk, EntriesOk, MemoryOk, EntryOk, HeldOk, PcOk, SameElsewhere;
    WaitEntry(cfg, c, m, threads, i, t, id, e);
    WaitThreads(cfg, c, m, threads, i, t, id, e);
    CoreMoves(cfg, c, c', m, m, threads, i, t, id, e);
  }

  ghost predicate StartsLoad(c: Cache, threads: seq<Thread>, i: nat, t: Thread, id: Id, pin: bool) {
    && i < |threads| && threads[i].pc.Idle? && id !in c.entries
    && t == threads[i].(pc := Loading(id, c.created, pin))
  }

  function Placeholder(c: Cache): Entry {
    Entry(c.created, Null, 0, 0, 0, false)
  }

  lemma LoadEntry(cfg: Config, c: Cache, m: Mem, threads: seq<Thread>, i: nat, t: Thread, id: Id, pin: bool)
    requires ThreadsOk(cfg, c.entries, m, threads) && StartsLoad(c, threads, i, t, id, pin)
    ensures EntryOk(cfg, m, threads[i := t], id, Placeholder(c))
  {
    var h := HandleOf(id, Placeholder(c));
    Unreferenced(cfg, c.entries, m, threads, id, h);
    TotalsMove(threads, i, t, h, id);
  }

  lemma LoadThreads(cfg: Config, c: Cache, m: Mem, threads: seq<Thread>, i: nat, t: Thread, id: Id, pin: bool)
    requires ThreadsOk(cfg, c.entries, m, threads) && StartsLoad(c, threads, i, t, id, pin)
    ensures ThreadsOk(cfg, c.entries[id := Placeholder(c)], m, threads[i := t])
    ensures SameElsewhere(t.held, threads[i].held, id)
  {
    assert PcOk(cfg, c.entries, m, threads[i].pc) && HeldOk(c.entries, threads[i].held);
    assert HeldOk(c.entries[id := Placeholder(c)], t.held);
    ThreadsKeep(cfg, c.entries, m, m, threads, i, t, id, Placeholder(c));
  }

  /** A placeholder goes in for an absent id; the thread becomes its only loader. */
  lemma LoadCore(cfg: Config, c: Cache, c': Cache, m: Mem, threads: seq<Thread>, i: nat, t: Thread, id: Id, pin: bool)
    requires Core(cfg, c, m, threads) && WellFormed(c') && c'.entries == c.entries[id := Placeholder(c)]
    requires StartsLoad(c, threads, i, t, id, pin)
    ensures Core(cfg, c', m, threads[i := t])
  {
    hide WellFormed, ThreadsOk, EntriesOk, MemoryOk, EntryOk, HeldOk, PcOk, SameElsewhere;
    LoadEntry(cfg, c, m, threads, i, t, id, pin);
    LoadThreads(cfg, c, m, threads, i, t, id, pin);
    CoreMoves(cfg, c, c', m, m, threads, i, t, id, Placeholder(c));
  }

  /** Sleepers stay entitled to sleep when the thread that moves is not one of them. */
  lemma AsleepKeeps(entries: map<Id, Entry>, threads: seq<Thread>, asleep: set<nat>, i: nat, t: Thread, id: Id, e: Entry)
    requires AsleepOk(entries, threads, asleep) && i < |threads| && i !in asleep
    requires id in entries ==> e.loaded == entries[id].loaded
    ensures AsleepOk(entries[id := e], threads[i := t], asleep)
  {
  }

  lemma HitKeepsInv(cfg: Config, s: State, i: nat, id: Id, now: Time)
    requires Inv(cfg, s) && i < |s.threads| && s.threads[i].pc.Idle? && NotBefore(s.cache.log, now)
    requires Lookup(s.cache, id).Loaded?
    ensures Inv(cfg, NextGet(s, i, id, now))
  {
    hide WellFormed, ThreadsOk, EntriesOk, MemoryOk, EntryOk, HeldOk, PcOk, SameElsewhere, EnterGet;
    EnterGetKeeps(s.cache, id, now);
    EnterGetFields(s.cache, id, now);
    var e := s.cache.entries[id].(pins := s.cache.entries[id].pins + 1);
    var t := s.threads[i].(held := s.threads[i].held + multiset{HandleOf(id, s.cache.entries[id])});
    PinTaken(cfg, s.cache, EnterGet(s.cache, id, now), s.mem, s.threads, i, t.(pc := Idle), id, e);
    AsleepKeeps(s.cache.entries, s.threads, s.asleep, i, t, id, e);
  }

  lemma MissKeepsInv(cfg: Config, s: State, i: nat, id: Id, now: Time)
    requires Inv(cfg, s) && i < |s.threads| && s.threads[i].pc.Idle? && NotBefore(s.cache.log, now)
    requires Lookup(s.cache, id).Absent?
    ensures Inv(cfg, NextGet(s, i, id, now))
  {
    hide WellFormed, ThreadsOk, EntriesOk, MemoryOk, EntryOk, HeldOk, PcOk, SameElsewhere, EnterGet;
    EnterGetKeeps(s.cache, id, now);
    EnterGetFields(s.cache, id, now);
    var t := s.threads[i].(pc := Loading(id, s.cache.created, true));
    LoadCore(cfg, s.cache, EnterGet(s.cache, id, now), s.mem, s.threads, i, t, id, true);
    AsleepKeeps(s.cache.entries, s.threads, s.asleep, i, t, id, Placeholder(s.cache));
  }

  lemma PendingKeepsInv(cfg: Config, s: State, i: nat, id: Id, now: Time)
    requires Inv(cfg, s) && i < |s.threads| && s.threads[i].pc.Idle? && NotBefore(s.cache.log, now)
    requires Lookup(s.cache, id).Pending?
    ensures Inv(cfg, NextGet(s, i, id, now))
  {
    hide WellFormed, ThreadsOk, EntriesOk, MemoryOk, EntryOk, HeldOk, PcOk, SameElsewhere, EnterGet;
    EnterGetKeeps(s.cache, id, now);
    EnterGetFields(s.cache, id, now);
    var e := s.cache.entries[id].(waits := s.cache.entries[id].waits + 1);
    var t := s.threads[i].(pc := Waiting(id, e.obj));
    WaitCore(cfg, s.cache, EnterGet(s.cache, id, now), s.mem, s.threads, i, t, id, e);
    AsleepKeeps(s.cache.entries, s.threads, s.asleep, i, t, id, e);
  }

  lemma GetKeepsInv(cfg: Config, s: State, i: nat, id: Id, now: Time)
    requires Inv(cfg, s) && i < |s.threads| && s.threads[i].pc.Idle? && NotBefore(s.cache.log, now)
    ensures Inv(cfg, NextGet(s, i, id, now))
  {
    hide Inv, NextGet;
    match Lookup(s.cache, id)
    case Loaded => HitKeepsInv(cfg, s, i, id, now);
    case Pending => PendingKeepsInv(cfg, s, i, id, now);
    case Absent => MissKeepsInv(cfg, s, i, id, now);
  }

  lemma EnterPrefetchFields(c: Cache, id: Id, now: Time)
    ensures EnterPrefetch(c, id, now).entries == if id in c.entries then c.entries else c.entries[id := Placeholder(c)]
  {
  }

  lemma PrefetchKeepsInv(cfg: Config, s: State, i: nat, id: Id, now: Time)
    requires Inv(cfg, s) && Enabled(cfg, s, CallPrefetch(i, id, now))
    ensures Inv(cfg, NextPrefetch(s, i, id, now))
  {
    hide WellFormed, ThreadsOk, EntriesOk, EntryOk, HeldOk, PcOk, SameElsewhere, EnterPrefetch;
    EnterPrefetchKeeps(s.cache, id, now);
    EnterPrefetchFields(s.cache, id, now);
    if id !in s.cache.entries {
      var s' := NextPrefetch(s, i, id, now);
      var t := s'.threads[i];
      LoadCore(cfg, s.cache, s'.cache, s.mem, s.threads, i, t, id, false);
      AsleepKeeps(s.cache.entries, s.threads, s.asleep, i, t, id, Placeholder(s.cache));
    }
  }

  /** The loader moves on: mapping the file, failing to, or recording the peak. */
  predicate LoaderStep(cfg: Config, m: Mem, m': Mem, threads: seq<Thread>, i: nat, t: Thread) {
    && i < |threads| && IsLoader(threads[i].pc) && IsLoader(t.pc)
    && t.held == threads[i].held && t.pc.id == threads[i].pc.id && t.pc.obj == threads[i].pc.obj
    && MemGrows(m, m') && m'.occupancy == m.occupancy
    && (var f := FlightWeight(cfg.expertSize); m'.ram == m.ram + f(t) - f(threads[i]))
    && (t.pc.Tracking? ==> Shows(cfg, m', At(t.pc.addr), t.pc.id))
    && (t.pc.Mapped? ==> Shows(cfg, m', t.pc.ptr, t.pc.id))
  }

  lemma LoaderEntry(cfg: Config, c: Cache, m: Mem, m': Mem, threads: seq<Thread>, i: nat, t: Thread)
    requires EntriesOk(cfg, c.entries, m, threads) && ThreadsOk(cfg, c.entries, m, threads)
    requires LoaderStep(cfg, m, m', threads, i, t)
    ensures t.pc.id in c.entries && EntryOk(cfg, m', threads[i := t], t.pc.id, c.entries[t.pc.id])
    ensures ThreadsOk(cfg, c.entries, m', threads[i := t])
    ensures SameElsewhere(t.held, threads[i].held, t.pc.id)
  {
    var id := t.pc.id;
    assert PcOk(cfg, c.entries, m, threads[i].pc) && HeldOk(c.entries, threads[i].held);
    var e := c.entries[id];
    assert c.entries[id := e] == c.entries;
    assert EntryOk(cfg, m, threads, id, e);
    TotalsMove(threads, i, t, HandleOf(id, e), id);
    ThreadsKeep(cfg, c.entries, m, m', threads, i, t, id, e);
  }

  lemma LoaderCore(cfg: Config, c: Cache, m: Mem, m': Mem, threads: seq<Thread>, i: nat, t: Thread)
    requires Core(cfg, c, m, threads) && LoaderStep(cfg, m, m', threads, i, t)
    ensures Core(cfg, c, m', threads[i := t])
  {
    hide WellFormed, ThreadsOk, EntriesOk, MemoryOk, EntryOk, HeldOk, PcOk, SameElsewhere;
    LoaderEntry(cfg, c, m, m', threads, i, t);
    assert c.entries[t.pc.id := c.entries[t.pc.id]] == c.entries;
    CoreMoves(cfg, c, c, m, m', threads, i, t, t.pc.id, c.entries[t.pc.id]);
  }

  lemma LoaderNotWaiting(cfg: Config, m: Mem, m': Mem, threads: seq<Thread>, i: nat, t: Thread)
    requires LoaderStep(cfg, m, m', threads, i, t)
    ensures i < |threads| && !threads[i].pc.Waiting?
  {
  }

  lemma LoaderKeepsInv(cfg: Config, s: State, m': Mem, i: nat, t: Thread)
    requires Inv(cfg, s) && LoaderStep(cfg, s.mem, m', s.threads, i, t)
    ensures Inv(cfg, Move(s.(mem := m'), i, t))
  {
    hide WellFormed, ThreadsOk, EntriesOk, MemoryOk, EntryOk, HeldOk, PcOk, SameElsewhere, LoaderStep;
    LoaderCore(cfg, s.cache, s.mem, m', s.threads, i, t);
    assert i < |s.threads| && !s.threads[i].pc.Waiting? by { LoaderNotWaiting(cfg, s.mem, m', s.threads, i, t); }
  }

  lemma MapStep(cfg: Config, s: State, i: nat, addr: nat)
    requires i < |s.threads| && s.threads[i].pc.Loading? && addr !in s.mem.live
    ensures var s' := NextMap(cfg, s, i, addr);
            LoaderStep(cfg, s.mem, s'.mem, s.threads, i, s'.threads[i])
  {
  }

  lemma RecordStep(cfg: Config, s: State, i: nat, t: Thread)
    requires Inv(cfg, s) && i < |s.threads| && s.threads[i].pc.Tracking?
    requires var pc := s.threads[i].pc; t == s.threads[i].(pc := Mapped(pc.id, pc.obj, pc.pin, At(pc.addr)))
    ensures LoaderStep(cfg, s.mem, TrackPeak(s.mem, s.threads[i].pc.current), s.threads, i, t)
  {
    hide WellFormed, EntriesOk, MemoryOk, HeldOk;
    assert PcOk(cfg, s.cache.entries, s.mem, s.threads[i].pc);
  }

  lemma PeakKeepsInv(cfg: Config, s: State, i: nat)
    requires Inv(cfg, s) && Enabled(cfg, s, RecordPeak(i))
    ensures Inv(cfg, Next(cfg, s, RecordPeak(i)))
  {
    hide Inv, LoaderStep;
    var s' := Next(cfg, s, RecordPeak(i));
    RecordStep(cfg, s, i, s'.threads[i]);
    LoaderKeepsInv(cfg, s, s'.mem, i, s'.threads[i]);
  }

  ghost predicate GivesPin(c: Cache, threads: seq<Thread>, i: nat, t: Thread, h: Handle, e: Entry) {
    && i < |threads| && threads[i].pc.Idle? && h in threads[i].held && h.id in c.entries
    && h == HandleOf(h.id, c.entries[h.id])
    && e == c.entries[h.id].(pins := c.entries[h.id].pins - 1)
    && t == threads[i].(held := threads[i].held - multiset{h})
  }

  lemma UnpinEntry(cfg: Config, c: Cache, m: Mem, threads: seq<Thread>, i: nat, t: Thread, h: Handle, e: Entry)
    requires EntriesOk(cfg, c.entries, m, threads) && GivesPin(c, threads, i, t, h, e)
    ensures EntryOk(cfg, m, threads[i := t], h.id, e)
  {
    assert EntryOk(cfg, m, threads, h.id, c.entries[h.id]);
    TotalsMove(threads, i, t, h, h.id);
  }

  lemma UnpinThreads(cfg: Config, c: Cache, m: Mem, threads: seq<Thread>, i: nat, t: Thread, h: Handle, e: Entry)
    requires ThreadsOk(cfg, c.entries, m, threads) && GivesPin(c, threads, i, t, h, e)
    ensures ThreadsOk(cfg, c.entries[h.id := e], m, threads[i := t])
    ensures SameElsewhere(t.held, threads[i].held, h.id)
  {
    assert PcOk(cfg, c.entries, m, threads[i].pc) && HeldOk(c.entries, threads[i].held);
    assert HeldOk(c.entries[h.id := e], t.held);
    ThreadsKeep(cfg, c.entries, m, m, threads, i, t, h.id, e);
  }

  lemma UnpinCore(cfg: Config, c: Cache, c': Cache, m: Mem, threads: seq<Thread>, i: nat, t: Thread, h: Handle, e: Entry)
    requires Core(cfg, c, m, threads) && GivesPin(c, threads, i, t, h, e)
    requires WellFormed(c') && c'.entries == c.entries[h.id := e]
    ensures Core(cfg, c', m, threads[i := t])
  {
    hide WellFormed, ThreadsOk, EntriesOk, MemoryOk, EntryOk, HeldOk, PcOk, SameElsewhere;
    UnpinEntry(cfg, c, m, threads, i, t, h, e);
    UnpinThreads(cfg, c, m, threads, i, t, h, e);
    CoreMoves(cfg, c, c', m, m, threads, i, t, h.id, e);
  }

  lemma HeldIsCurrent(cfg: Config, entries: map<Id, Entry>, m: Mem, threads: seq<Thread>, i: nat, h: Handle)
    requires ThreadsOk(cfg, entries, m, threads) && i < |threads| && h in threads[i].held
    ensures h.id in entries && entries[h.id].loaded && h == HandleOf(h.id, entries[h.id])
  {
    assert HeldOk(entries, threads[i].held);
  }

  lemma UnpinKeepsInv(cfg: Config, s: State, i: nat, h: Handle)
    requires Inv(cfg, s) && i < |s.threads| && s.threads[i].pc.Idle? && h in s.threads[i].held
    ensures Inv(cfg, Move(s.(cache := Unpin(s.cache, h.id)), i, s.threads[i].(held := s.threads[i].held - multiset{h})))
  {
    hide WellFormed, ThreadsOk, EntriesOk, MemoryOk, EntryOk, HeldOk, PcOk, SameElsewhere;
    HeldIsCurrent(cfg, s.cache.entries, s.mem, s.threads, i, h);
    var t := s.threads[i].(held := s.threads[i].held - multiset{h});
    var e := s.cache.entries[h.id].(pins := s.cache.entries[h.id].pins - 1);
    UpdateKeeps(s.cache, h.id, e);
    UnpinCore(cfg, s.cache, Unpin(s.cache, h.id), s.mem, s.threads, i, t, h, e);
    AsleepKeeps(s.cache.entries, s.threads, s.asleep, i, t, h.id, e);
  }

  lemma FinishWaitFields(c: Cache, id: Id)
    requires id in c.entries
    ensures var e := c.entries[id];
            FinishWait(c, id).entries == c.entries[id := e.(pins := e.pins + 1, waits := e.waits - 1)]
  {
  }

  lemma PcIsCurrent(cfg: Config, entries: map<Id, Entry>, m: Mem, threads: seq<Thread>, i: nat)
    requires ThreadsOk(cfg, entries, m, threads) && i < |threads| && !threads[i].pc.Idle?
    ensures SameObject(entries, threads[i].pc.id, threads[i].pc.obj)
    ensures IsLoader(threads[i].pc) ==> !entries[threads[i].pc.id].loaded
  {
    assert PcOk(cfg, entries, m, threads[i].pc);
  }

  lemma WakeKeepsInv(cfg: Config, s: State, i: nat)
    requires Inv(cfg, s) && i < |s.threads| && s.threads[i].pc.Waiting? && i !in s.asleep
    ensures Inv(cfg, NextWake(s, i))
  {
    hide WellFormed, ThreadsOk, EntriesOk, MemoryOk, EntryOk, HeldOk, PcOk, SameElsewhere, FinishWait;
    PcIsCurrent(cfg, s.cache.entries, s.mem, s.threads, i);
    var id := s.threads[i].pc.id;
    var e := s.cache.entries[id];
    if e.loaded {
      FinishWaitKeeps(s.cache, id);
      FinishWaitFields(s.cache, id);
      var e' := e.(pins := e.pins + 1, waits := e.waits - 1);
      var t := Thread(Idle, s.threads[i].held + multiset{HandleOf(id, e)});
      PinTaken(cfg, s.cache, FinishWait(s.cache, id), s.mem, s.threads, i, t, id, e');
      AsleepKeeps(s.cache.entries, s.threads, s.asleep, i, t, id, e');
    }
  }

  // ----- publishing -----

  /** No id is being loaded by two threads at once. */
  lemma OnlyLoader(cfg: Config, entries: map<Id, Entry>, m: Mem, threads: seq<Thread>, i: nat, j: nat)
    requires EntriesOk(cfg, entries, m, threads) && ThreadsOk(cfg, entries, m, threads)
    requires i < |threads| && j < |threads| && i != j
    requires IsLoader(threads[i].pc) && IsLoader(threads[j].pc)
    ensures threads[i].pc.id != threads[j].pc.id
  {
    var id := threads[i].pc.id;
    if threads[j].pc.id == id {
      assert PcOk(cfg, entries, m, threads[i].pc);
      assert EntryOk(cfg, m, threads, id, entries[id]);
      TotalTwo(threads, LoadWeight(id), if i < j then i else j, if i < j then j else i);
    }
  }

  /** The loader publishes its entry and goes idle, with a pin if it wanted one. */
  ghost predicate Publishes(cfg: Config, c: Cache, threads: seq<Thread>, i: nat, t: Thread, e: Entry) {
    && i < |threads| && threads[i].pc.Mapped? && threads[i].pc.id in c.entries
    && var pc := threads[i].pc;
       var prior := c.entries[pc.id];
       && e == prior.(ptr := pc.ptr, size := cfg.expertSize, loaded := true, pins := prior.pins + if pc.pin then 1 else 0)
       && t == Thread(Idle, if pc.pin then threads[i].held + multiset{HandleOf(pc.id, e)} else threads[i].held)
  }

  lemma PublishEntry(cfg: Config, c: Cache, m: Mem, m': Mem, threads: seq<Thread>, i: nat, t: Thread, e: Entry)
    requires EntriesOk(cfg, c.entries, m, threads) && ThreadsOk(cfg, c.entries, m, threads)
    requires Publishes(cfg, c, threads, i, t, e) && m'.live == m.live
    ensures EntryOk(cfg, m', threads[i := t], threads[i].pc.id, e)
  {
    var id := threads[i].pc.id;
    assert PcOk(cfg, c.entries, m, threads[i].pc);
    assert EntryOk(cfg, m, threads, id, c.entries[id]);
    NotHeldBeforeLoaded(cfg, c.entries, m, threads, HandleOf(id, e));
    NotHeldBeforeLoaded(cfg, c.entries, m, threads, HandleOf(id, c.entries[id]));
    TotalsMove(threads, i, t, HandleOf(id, e), id);
    NotYetHeld(cfg, c, m, threads, i, HandleOf(id, e));
  }

  lemma NotYetHeld(cfg: Config, c: Cache, m: Mem, threads: seq<Thread>, i: nat, h: Handle)
    requires ThreadsOk(cfg, c.entries, m, threads) && i < |threads|
    requires h.id in c.entries && !c.entries[h.id].loaded
    ensures threads[i].held[h] == 0
  {
    assert HeldOk(c.entries, threads[i].held);
  }

  lemma PublishThreads(cfg: Config, c: Cache, m: Mem, m': Mem, threads: seq<Thread>, i: nat, t: Thread, e: Entry)
    requires EntriesOk(cfg, c.entries, m, threads) && ThreadsOk(cfg, c.entries, m, threads)
    requires Publishes(cfg, c, threads, i, t, e) && m'.live == m.live
    ensures ThreadsOk(cfg, c.entries[threads[i].pc.id := e], m', threads[i := t])
    ensures SameElsewhere(t.held, threads[i].held, threads[i].pc.id)
  {
    hide EntriesOk;
    var id := threads[i].pc.id;
    var ts := threads[i := t];
    assert PcOk(cfg, c.entries, m, threads[i].pc);
    forall j | 0 <= j < |ts|
      ensures PcOk(cfg, c.entries[id := e], m', ts[j].pc) && HeldOk(c.entries[id := e], ts[j].held)
    {
      assert PcOk(cfg, c.entries, m, threads[j].pc) && HeldOk(c.entries, threads[j].held);
      if j != i && IsLoader(threads[j].pc) { OnlyLoader(cfg, c.entries, m, threads, i, j); }
    }
  }

  lemma PublishCounters(cfg: Config, c: Cache, m: Mem, threads: seq<Thread>, i: nat, t: Thread, e: Entry)
    requires ThreadsOk(cfg, c.entries, m, threads) && Publishes(cfg, c, threads, i, t, e)
    ensures CountersMove(cfg, c.entries, threads[i].pc.id, e, m, AddOccupancy(m, threads[i].pc.ptr, cfg.expertSize), threads[i], t)
  {
    assert PcOk(cfg, c.entries, m, threads[i].pc);
  }

  /** Between publishing and evicting everything but the budget is in order. */
  lemma PublishCore(cfg: Config, c: Cache, c': Cache, m: Mem, threads: seq<Thread>, i: nat, t: Thread, e: Entry)
    requires Core(cfg, c, m, threads) && Publishes(cfg, c, threads, i, t, e)
    requires c' == c.(entries := c.entries[threads[i].pc.id := e])
    ensures Core(cfg, c', AddOccupancy(m, threads[i].pc.ptr, cfg.expertSize), threads[i := t])
  {
    hide WellFormed, ThreadsOk, EntriesOk, MemoryOk, EntryOk, HeldOk, PcOk, SameElsewhere;
    var m' := AddOccupancy(m, threads[i].pc.ptr, cfg.expertSize);
    UpdateKeeps(c, threads[i].pc.id, e);
    PublishEntry(cfg, c, m, m', threads, i, t, e);
    PublishThreads(cfg, c, m, m', threads, i, t, e);
    PublishCounters(cfg, c, m, threads, i, t, e);
    CoreMoves(cfg, c, c', m, m', threads, i, t, threads[i].pc.id, e);
  }

  lemma FinishKeepsInv(cfg: Config, s: State, i: nat, run: seq<Eviction>, halt: Pass)
    requires Inv(cfg, s) && i < |s.threads| && s.threads[i].pc.Mapped?
    requires s.threads[i].pc.id in s.cache.entries ==>
               EvictionRun(PublishedCache(cfg, s, i), PublishedMem(cfg, s, i), run, halt)
    ensures s.threads[i].pc.id in s.cache.entries
    ensures Inv(cfg, NextFinish(cfg, s, i, run))
  {
    hide WellFormed, ThreadsOk, EntriesOk, MemoryOk, EntryOk, HeldOk, PcOk, SameElsewhere;
    PcIsCurrent(cfg, s.cache.entries, s.mem, s.threads, i);
    var c, m := PublishedCache(cfg, s, i), PublishedMem(cfg, s, i);
    var pc := s.threads[i].pc;
    var e := c.entries[pc.id];
    var t := Thread(Idle, if pc.pin then s.threads[i].held + multiset{HandleOf(pc.id, e)} else s.threads[i].held);
    PublishCore(cfg, s.cache, c, s.mem, s.threads, i, t, e);
    hide PublishedCache, PublishedMem;
    EvictionKeepsCore(cfg, c, m, s.threads[i := t], run, halt);
  }

  /** The inductive step: every action keeps the invariant. */
  lemma StepKeepsInv(cfg: Config, s: State, a: Action)
    requires Inv(cfg, s) && Enabled(cfg, s, a)
    ensures Inv(cfg, Next(cfg, s, a))
  {
    hide Inv, NextGet, NextPrefetch, NextFinish, NextWake;
    match a
    case CallGet(i, id, now) => GetKeepsInv(cfg, s, i, id, now);
    case CallPrefetch(i, id, now) => PrefetchKeepsInv(cfg, s, i, id, now);
    case MapOk(i, addr) =>
      MapStep(cfg, s, i, addr);
      var s' := NextMap(cfg, s, i, addr);
      LoaderKeepsInv(cfg, s, s'.mem, i, s'.threads[i]);
    case MapFail(i) => LoaderKeepsInv(cfg, s, s.mem, i, Next(cfg, s, a).threads[i]);
    case RecordPeak(i) => PeakKeepsInv(cfg, s, i);
    case Finish(i, run, halt) => FinishKeepsInv(cfg, s, i, run, halt);
    case Wake(i) => WakeKeepsInv(cfg, s, i);
    case Spurious(_) => SpuriousKeepsInv(cfg, s, a);
    case CallUnpin(i, h) => UnpinKeepsInv(cfg, s, i, h);
  }

  lemma SpuriousKeepsInv(cfg: Config, s: State, a: Action)
    requires Inv(cfg, s) && Enabled(cfg, s, a) && a.Spurious?
    ensures Inv(cfg, Next(cfg, s, a))
  {
    hide WellFormed, EntriesOk, ThreadsOk, MemoryOk;
  }
}
