/** The cache used by one thread at a time: whole calls instead of critical sections. */
module SequentialUse {
  import opened Sums
  import opened CacheModel
  import opened Eviction

  /** What one `get_and_pin` meets: the time, the outcome of the mapping and the evictions. */
  datatype Load = Load(now: Time, ptr: Ptr, size: nat, run: seq<Eviction>, halt: Pass)

  function LoadedCache(c: Cache, id: Id, l: Load, pin: bool): Cache
    requires id in c.entries
  {
    Publish(c, id, l.ptr, l.size, pin)
  }

  /** The memory manager after the map call and the published occupancy. */
  function LoadedMem(m: Mem, id: Id, l: Load): Mem {
    if l.ptr.Null? then m
    else
      var mapped := MapExpert(m, id, l.size, l.ptr.addr);
      AddOccupancy(TrackPeak(mapped, mapped.ram), l.ptr, l.size)
  }

  lemma EnterGetResident(c: Cache, id: Id, now: Time)
    ensures id in EnterGet(c, id, now).entries
  {
  }

  ghost predicate AllLoaded(c: Cache) {
    forall id: Id :: id in c.entries ==> c.entries[id].loaded
  }

  /** A call of `get_and_pin` while no other thread is loading. */
  ghost predicate GetLegal(c: Cache, m: Mem, id: Id, l: Load) {
    && NotBefore(c.log, l.now)
    && !Lookup(c, id).Pending?
    && (Lookup(c, id).Absent? ==>
          id in EnterGet(c, id, l.now).entries &&
          EvictionRun(LoadedCache(EnterGet(c, id, l.now), id, l, true), LoadedMem(m, id, l), l.run, l.halt))
  }

  /** Likewise for `prefetch_expert`: a present expert is only touched, an absent one is loaded. */
  ghost predicate PrefetchLegal(c: Cache, m: Mem, id: Id, l: Load) {
    && NotBefore(c.log, l.now)
    && (id !in c.entries ==>
          id in EnterPrefetch(c, id, l.now).entries &&
          EvictionRun(LoadedCache(EnterPrefetch(c, id, l.now), id, l, false), LoadedMem(m, id, l), l.run, l.halt))
  }

  function PrefetchCache(c: Cache, id: Id, l: Load): Cache {
    var r := EnterPrefetch(c, id, l.now);
    if id in c.entries || id !in r.entries then r else AfterCache(LoadedCache(r, id, l, false), l.run)
  }

  function PrefetchMem(c: Cache, m: Mem, id: Id, l: Load): Mem {
    var r := EnterPrefetch(c, id, l.now);
    if id in c.entries || id !in r.entries then m
    else AfterMem(LoadedCache(r, id, l, false), LoadedMem(m, id, l), l.run)
  }

  function GetCache(c: Cache, id: Id, l: Load): Cache {
    EnterGetResident(c, id, l.now);
    if Lookup(c, id).Absent? then
      AfterCache(LoadedCache(EnterGet(c, id, l.now), id, l, true), l.run)
    else EnterGet(c, id, l.now)
  }

  function GetMem(c: Cache, m: Mem, id: Id, l: Load): Mem {
    EnterGetResident(c, id, l.now);
    if Lookup(c, id).Absent? then
      AfterMem(LoadedCache(EnterGet(c, id, l.now), id, l, true), LoadedMem(m, id, l), l.run)
    else m
  }

  /** One layer of the compute loop: pin two experts, then unpin both. */
  datatype Layer = Layer(a: Id, b: Id, first: Load, second: Load)

  ghost predicate LayerLegal(c: Cache, m: Mem, y: Layer) {
    && GetLegal(c, m, y.a, y.first)
    && GetLegal(GetCache(c, y.a, y.first), GetMem(c, m, y.a, y.first), y.b, y.second)
  }

  function LayerCache(c: Cache, m: Mem, y: Layer): Cache {
    Unpin(Unpin(GetCache(GetCache(c, y.a, y.first), y.b, y.second), y.a), y.b)
  }

  function LayerMem(c: Cache, m: Mem, y: Layer): Mem {
    GetMem(GetCache(c, y.a, y.first), GetMem(c, m, y.a, y.first), y.b, y.second)
  }

  ghost predicate LayersLegal(c: Cache, m: Mem, ys: seq<Layer>)
    decreases |ys|
  {
    ys != [] ==> LayerLegal(c, m, ys[0]) && LayersLegal(LayerCache(c, m, ys[0]), LayerMem(c, m, ys[0]), ys[1..])
  }

  function LayersCache(c: Cache, m: Mem, ys: seq<Layer>): Cache
    decreases |ys|
  {
    if ys == [] then c else LayersCache(LayerCache(c, m, ys[0]), LayerMem(c, m, ys[0]), ys[1..])
  }

  function LayersMem(c: Cache, m: Mem, ys: seq<Layer>): Mem
    decreases |ys|
  {
    if ys == [] then m else LayersMem(LayerCache(c, m, ys[0]), LayerMem(c, m, ys[0]), ys[1..])
  }

  lemma {:induction false} LayersExtend(c: Cache, m: Mem, ys: seq<Layer>, y: Layer)
    requires LayersLegal(c, m, ys) && LayerLegal(LayersCache(c, m, ys), LayersMem(c, m, ys), y)
    ensures LayersLegal(c, m, ys + [y])
    ensures LayersCache(c, m, ys + [y]) == LayerCache(LayersCache(c, m, ys), LayersMem(c, m, ys), y)
    ensures LayersMem(c, m, ys + [y]) == LayerMem(LayersCache(c, m, ys), LayersMem(c, m, ys), y)
    decreases |ys|
  {
    hide LayerLegal, LayerCache, LayerMem;
    if ys == [] {
      assert [y][1..] == [];
    } else {
      LayersExtend(LayerCache(c, m, ys[0]), LayerMem(c, m, ys[0]), ys[1..], y);
      assert (ys + [y])[1..] == ys[1..] + [y];
    }
  }

  // ----- a sequence of prefetches -----

  /** One call and what it met. */
  datatype Call = Call(id: Id, load: Load)

  ghost predicate CallsLegal(c: Cache, m: Mem, calls: seq<Call>)
    decreases |calls|
  {
    calls != [] ==>
      && PrefetchLegal(c, m, calls[0].id, calls[0].load)
      && CallsLegal(PrefetchCache(c, calls[0].id, calls[0].load), PrefetchMem(c, m, calls[0].id, calls[0].load), calls[1..])
  }

  function CallsCache(c: Cache, calls: seq<Call>): Cache
    decreases |calls|
  {
    if calls == [] then c else CallsCache(PrefetchCache(c, calls[0].id, calls[0].load), calls[1..])
  }

  function CallsMem(c: Cache, m: Mem, calls: seq<Call>): Mem
    decreases |calls|
  {
    if calls == [] then m
    else
      CallsMem(PrefetchCache(c, calls[0].id, calls[0].load), PrefetchMem(c, m, calls[0].id, calls[0].load), calls[1..])
  }

  function Ids(calls: seq<Call>): seq<Id> {
    seq(|calls|, i requires 0 <= i < |calls| => calls[i].id)
  }

  lemma IdsExtend(calls: seq<Call>, call: Call)
    ensures Ids(calls + [call]) == Ids(calls) + [call.id]
  {
  }

  lemma {:induction false} CallsExtend(c: Cache, m: Mem, calls: seq<Call>, call: Call)
    requires CallsLegal(c, m, calls) && PrefetchLegal(CallsCache(c, calls), CallsMem(c, m, calls), call.id, call.load)
    ensures CallsLegal(c, m, calls + [call])
    ensures CallsCache(c, calls + [call]) == PrefetchCache(CallsCache(c, calls), call.id, call.load)
    ensures CallsMem(c, m, calls + [call]) == PrefetchMem(CallsCache(c, calls), CallsMem(c, m, calls), call.id, call.load)
    decreases |calls|
  {
    hide PrefetchLegal, PrefetchCache, PrefetchMem;
    if calls == [] {
      assert [call][1..] == [];
    } else {
      var id, l := calls[0].id, calls[0].load;
      CallsExtend(PrefetchCache(c, id, l), PrefetchMem(c, m, id, l), calls[1..], call);
      assert (calls + [call])[1..] == calls[1..] + [call];
    }
  }

  // ----- what a call leaves behind -----

  lemma {:induction false} EvictionKeepsRecords(c: Cache, run: seq<Eviction>)
    ensures var c' := AfterCache(c, run); c'.log == c.log && c'.stats == c.stats && c'.touches == c.touches
    decreases |run|
  {
    if run != [] { EvictionKeepsRecords(EvictCache(c, run[0]), run[1..]); }
  }

  /** One more call of `id` is on record at `now`, and nothing else has changed in the statistics. */
  ghost predicate OneMoreCall(before: map<Id, Stats>, after: map<Id, Stats>, id: Id, now: Time) {
    && id in after && after[id].last == now
    && after[id].count == ((if id in before then before[id].count as int else 0) + 1) % 0x1_0000_0000
    && (forall x: Id :: x != id ==> (x in after <==> x in before) && (x in before ==> after[x] == before[x]))
  }

  /** Whether it hits or loads, a get is one more call, and a hit or a miss. */
  lemma GetIsOneCall(c: Cache, id: Id, l: Load)
    ensures var c' := GetCache(c, id, l);
            && OneMoreCall(c.stats, c'.stats, id, l.now) && c'.log == c.log + [Access(id, l.now)]
            && c'.hits == c.hits + (if id in c.entries && c.entries[id].loaded then 1 else 0)
            && c'.misses == c.misses + (if id in c.entries && c.entries[id].loaded then 0 else 1)
  {
    EnterGetResident(c, id, l.now);
    if Lookup(c, id).Absent? {
      var c2 := LoadedCache(EnterGet(c, id, l.now), id, l, true);
      EvictionKeepsRecords(c2, l.run);
      EvictionCounts(c2, l.run);
    }
  }

  /** So is a prefetch, which is neither hit nor miss. */
  lemma PrefetchIsOneCall(c: Cache, id: Id, l: Load)
    ensures var c' := PrefetchCache(c, id, l);
            && OneMoreCall(c.stats, c'.stats, id, l.now) && c'.log == c.log + [Access(id, l.now)]
            && c'.hits == c.hits && c'.misses == c.misses
  {
    var r := EnterPrefetch(c, id, l.now);
    if id !in c.entries && id in r.entries {
      var c2 := LoadedCache(r, id, l, false);
      EvictionKeepsRecords(c2, l.run);
      EvictionCounts(c2, l.run);
    }
  }

  /** A whole call leaves its own entry present, loaded and with one more pin, whatever else is loading, showing the
      mapping it had or the one just made. */
  lemma GetLeavesEntry(c: Cache, m: Mem, id: Id, l: Load)
    requires GetLegal(c, m, id, l)
    ensures var entries := GetCache(c, id, l).entries;
            && id in entries && entries[id].loaded
            && entries[id].pins == (if id in c.entries then c.entries[id].pins else 0) + 1
            && entries[id].ptr == (if id in c.entries then c.entries[id].ptr else l.ptr)
            && entries[id].size == (if id in c.entries then c.entries[id].size else l.size)
  {
    hide EvictionRun;
    EnterGetResident(c, id, l.now);
    if Lookup(c, id).Absent? {
      var c2 := LoadedCache(EnterGet(c, id, l.now), id, l, true);
      EvictionFrame(c2, LoadedMem(m, id, l), l.run, l.halt, id);
    }
  }

  /** On a cache with nothing loading it ends with every entry loaded again. */
  lemma GetLeavesLoaded(c: Cache, m: Mem, id: Id, l: Load)
    requires AllLoaded(c) && GetLegal(c, m, id, l)
    ensures AllLoaded(GetCache(c, id, l))
  {
    hide EvictionRun;
    EnterGetResident(c, id, l.now);
    if Lookup(c, id).Absent? { EvictionShrinks(LoadedCache(EnterGet(c, id, l.now), id, l, true), l.run); }
  }

  lemma PrefetchLeavesLoaded(c: Cache, m: Mem, id: Id, l: Load)
    requires AllLoaded(c) && PrefetchLegal(c, m, id, l)
    ensures AllLoaded(PrefetchCache(c, id, l))
  {
    hide EvictionRun;
    var r := EnterPrefetch(c, id, l.now);
    if id !in c.entries { EvictionShrinks(LoadedCache(r, id, l, false), l.run); }
  }
}
