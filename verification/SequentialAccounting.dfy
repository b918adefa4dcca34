/** Conservation over whole calls: what the cache holds is exactly what it added to the counters. */
module SequentialAccounting {
  import opened Sums
  import opened CacheModel
  import opened Eviction
  import opened SequentialUse

  /** Besides the cache's resident bytes, the counters hold `occupancy` and `ram` bytes of others. */
  ghost predicate Settled(c: Cache, m: Mem, occupancy: int, ram: int) {
    m.occupancy == occupancy + ResidentBytes(c) && m.ram == ram + ResidentBytes(c)
  }

  lemma {:induction false} EvictionsSettle(c: Cache, m: Mem, run: seq<Eviction>, halt: Pass, occupancy: int, ram: int)
    requires EvictionRun(c, m, run, halt) && Settled(c, m, occupancy, ram)
    ensures Settled(AfterCache(c, run), AfterMem(c, m, run), occupancy, ram)
    decreases |run|
  {
    hide IsVictim, ProperPass, MayStop, ResidentBytes;
    if run != [] {
      EvictOneBytes(c, m, run[0]);
      VictimIsCandidate(c, run[0].pass, run[0].victim);
      EvictionsSettle(EvictCache(c, run[0]), EvictMem(c, m, run[0]), run[1..], halt, occupancy, ram);
    }
  }

  /** A load publishes as many bytes as it mapped, none if the mapping failed. */
  lemma LoadSettles(c: Cache, m: Mem, id: Id, l: Load, pin: bool, occupancy: int, ram: int)
    requires id in c.entries && !c.entries[id].loaded && Settled(c, m, occupancy, ram)
    ensures Settled(LoadedCache(c, id, l, pin), LoadedMem(m, id, l), occupancy, ram)
  {
    hide ResidentBytes;
    var c' := LoadedCache(c, id, l, pin);
    ResidentMoves(c, c', id, c'.entries[id]);
  }

  /** Changing an entry's counters, or adding a pending one, moves no bytes. */
  lemma SameBytesSettle(c: Cache, c': Cache, m: Mem, id: Id, e: Entry, occupancy: int, ram: int)
    requires Settled(c, m, occupancy, ram) && c'.entries == c.entries[id := e]
    requires Bytes(e) == BytesAt(c.entries, id)
    ensures Settled(c', m, occupancy, ram)
  {
    hide ResidentBytes;
    ResidentMoves(c, c', id, e);
  }

  lemma GetSettles(c: Cache, m: Mem, id: Id, l: Load, occupancy: int, ram: int)
    requires GetLegal(c, m, id, l) && Settled(c, m, occupancy, ram)
    ensures Settled(GetCache(c, id, l), GetMem(c, m, id, l), occupancy, ram)
  {
    hide Settled, EvictionRun, LoadedCache, LoadedMem, NotBefore;
    EnterGetResident(c, id, l.now);
    var r := EnterGet(c, id, l.now);
    SameBytesSettle(c, r, m, id, r.entries[id], occupancy, ram);
    if Lookup(c, id).Absent? {
      LoadSettles(r, m, id, l, true, occupancy, ram);
      EvictionsSettle(LoadedCache(r, id, l, true), LoadedMem(m, id, l), l.run, l.halt, occupancy, ram);
    }
  }

  lemma PrefetchSettles(c: Cache, m: Mem, id: Id, l: Load, occupancy: int, ram: int)
    requires PrefetchLegal(c, m, id, l) && Settled(c, m, occupancy, ram)
    ensures Settled(PrefetchCache(c, id, l), PrefetchMem(c, m, id, l), occupancy, ram)
  {
    hide Settled, EvictionRun, LoadedCache, LoadedMem, NotBefore;
    var r := EnterPrefetch(c, id, l.now);
    assert id in r.entries && r.entries == c.entries[id := r.entries[id]];
    SameBytesSettle(c, r, m, id, r.entries[id], occupancy, ram);
    if id !in c.entries {
      LoadSettles(r, m, id, l, false, occupancy, ram);
      EvictionsSettle(LoadedCache(r, id, l, false), LoadedMem(m, id, l), l.run, l.halt, occupancy, ram);
    }
  }

  lemma UnpinSettles(c: Cache, m: Mem, id: Id, occupancy: int, ram: int)
    requires Settled(c, m, occupancy, ram)
    ensures Settled(Unpin(c, id), m, occupancy, ram)
  {
    hide Settled;
    if id in c.entries { SameBytesSettle(c, Unpin(c, id), m, id, Unpin(c, id).entries[id], occupancy, ram); }
  }

  lemma LayerSettles(c: Cache, m: Mem, y: Layer, occupancy: int, ram: int)
    requires LayerLegal(c, m, y) && Settled(c, m, occupancy, ram)
    ensures Settled(LayerCache(c, m, y), LayerMem(c, m, y), occupancy, ram)
  {
    hide Settled, GetLegal, GetCache, GetMem, Unpin;
    var c1, m1 := GetCache(c, y.a, y.first), GetMem(c, m, y.a, y.first);
    GetSettles(c, m, y.a, y.first, occupancy, ram);
    GetSettles(c1, m1, y.b, y.second, occupancy, ram);
    var c2 := GetCache(c1, y.b, y.second);
    UnpinSettles(c2, LayerMem(c, m, y), y.a, occupancy, ram);
    UnpinSettles(Unpin(c2, y.a), LayerMem(c, m, y), y.b, occupancy, ram);
  }

  lemma {:induction false} LayersSettle(c: Cache, m: Mem, ys: seq<Layer>, occupancy: int, ram: int)
    requires LayersLegal(c, m, ys) && Settled(c, m, occupancy, ram)
    ensures Settled(LayersCache(c, m, ys), LayersMem(c, m, ys), occupancy, ram)
    decreases |ys|
  {
    hide Settled, LayerLegal, LayerCache, LayerMem;
    if ys != [] {
      LayerSettles(c, m, ys[0], occupancy, ram);
      LayersSettle(LayerCache(c, m, ys[0]), LayerMem(c, m, ys[0]), ys[1..], occupancy, ram);
    }
  }

  // ----- one hit or miss per get -----

  lemma LayerCounts(c: Cache, m: Mem, y: Layer)
    ensures var c' := LayerCache(c, m, y);
            c'.hits + c'.misses == c.hits + c.misses + 2 && c'.misses >= c.misses
  {
    hide GetCache, GetMem;
    GetIsOneCall(c, y.a, y.first);
    GetIsOneCall(GetCache(c, y.a, y.first), y.b, y.second);
  }

  /** Each layer of the compute loop is two hits or misses. */
  lemma {:induction false} LayersCount(c: Cache, m: Mem, ys: seq<Layer>)
    ensures var c' := LayersCache(c, m, ys); c'.hits + c'.misses == c.hits + c.misses + 2 * |ys|
    decreases |ys|
  {
    hide LayerCache, LayerMem;
    if ys != [] {
      LayerCounts(c, m, ys[0]);
      LayersCount(LayerCache(c, m, ys[0]), LayerMem(c, m, ys[0]), ys[1..]);
    }
  }

  lemma EmptySettles(max: nat, m: Mem)
    ensures Settled(EmptyCache(max), m, m.occupancy, m.ram)
  {
  }

  /** Prefetches move the counters with the resident bytes and are neither hits nor misses. */
  lemma {:induction false} CallsSettle(c: Cache, m: Mem, calls: seq<Call>, occupancy: int, ram: int)
    requires CallsLegal(c, m, calls) && Settled(c, m, occupancy, ram)
    ensures Settled(CallsCache(c, calls), CallsMem(c, m, calls), occupancy, ram)
    ensures CallsCache(c, calls).hits == c.hits && CallsCache(c, calls).misses == c.misses
    decreases |calls|
  {
    hide Settled, PrefetchLegal, PrefetchCache, PrefetchMem;
    if calls != [] {
      var id, l := calls[0].id, calls[0].load;
      PrefetchSettles(c, m, id, l, occupancy, ram);
      PrefetchIsOneCall(c, id, l);
      CallsSettle(PrefetchCache(c, id, l), PrefetchMem(c, m, id, l), calls[1..], occupancy, ram);
    }
  }
}
