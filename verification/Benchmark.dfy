/** The benchmark scenario: the compute loop that drives the cache, on one thread. Router and prefetch thread
    beside it are the subject of Pipeline; other threads' use of the cache, of CacheProtocol. */
module Benchmarking {
  import opened Bits
  import opened CacheModel
  import opened Eviction
  import opened SequentialUse
  import opened SequentialAccounting
  import opened Prediction
  import opened Routing
  import opened MemoryManagement
  import opened ExpertCaching
  import opened AdaptiveLookahead
  import LruStack

  /** The configuration, the policy switches, and what the random scenarios would draw at each position. */
  datatype BenchmarkConfig = BenchmarkConfig(numLayers: uint32, numExperts: uint32, totalTokens: uint32,
                                             expertSize: nat, cacheSize: nat, scenario: Scenario,
                                             switches: Switches, arcTarget: real, adaptive: bool,
                                             draws: (uint32, uint32) -> (uint32, uint32))

  datatype ScenarioResult = ScenarioResult(hits: nat, misses: nat, evictions: nat, peakRam: int, finalOccupancy: int,
                                           ioBytes: nat)

  /** The two experts of a layer. */
  function TargetsAt(config: BenchmarkConfig, token: uint32, layer: uint32): (Id, Id)
    requires config.numExperts > 0
  {
    if Deterministic(config.scenario) then
      (Target(token, layer, config.numLayers, config.numExperts, config.scenario, 0),
       Target(token, layer, config.numLayers, config.numExperts, config.scenario, 1))
    else
      var d := config.draws(token, layer);
      (d.0, if d.0 == d.1 then Following(d.1, config.numExperts) else d.1)
  }

  /** The layers worked through are the first positions in row-major order, each with its own targets. */
  ghost predicate AsRouted(config: BenchmarkConfig, ys: seq<Layer>)
    requires config.numExperts > 0
  {
    forall t: uint32, l: uint32 :: l < config.numLayers && Flat(t, l, config.numLayers) < |ys| ==>
      (ys[Flat(t, l, config.numLayers)].a, ys[Flat(t, l, config.numLayers)].b) == TargetsAt(config, t, l)
  }

  lemma AsRoutedExtends(config: BenchmarkConfig, ys: seq<Layer>, t: uint32, l: uint32, y: Layer)
    requires config.numExperts > 0 && AsRouted(config, ys) && l < config.numLayers
    requires Flat(t, l, config.numLayers) == |ys| && (y.a, y.b) == TargetsAt(config, t, l)
    ensures AsRouted(config, ys + [y])
  {
    hide Flat, TargetsAt;
    forall t': uint32, l': uint32 | l' < config.numLayers && Flat(t', l', config.numLayers) < |ys| + 1
      ensures ((ys + [y])[Flat(t', l', config.numLayers)].a, (ys + [y])[Flat(t', l', config.numLayers)].b)
              == TargetsAt(config, t', l')
    {
      if Flat(t', l', config.numLayers) == |ys| { FlatInjective(t, l, t', l', config.numLayers); }
    }
  }

  lemma NothingRouted(config: BenchmarkConfig)
    requires config.numExperts > 0
    ensures AsRouted(config, [])
  {
  }

  /** All loads of the layers used the configured policy. */
  ghost predicate Configured(config: BenchmarkConfig, y: Layer) {
    && y.first.size == y.second.size == config.expertSize
    && Follows(y.first.run, y.first.halt, Always(config.switches), config.arcTarget)
    && Follows(y.second.run, y.second.halt, Always(config.switches), config.arcTarget)
  }

  ghost predicate WarmLoad(config: BenchmarkConfig, l: Load) {
    Follows(l.run, l.halt, Always(config.switches), config.arcTarget)
  }

  /** The warm-up calls for experts 0 to 15 if the scenario has them, made on an empty cache. */
  ghost predicate Warmed(config: BenchmarkConfig, m0: Mem, calls: seq<Call>) {
    && |calls| == (if config.scenario.WARM_CACHE? then 16 else 0)
    && (forall i :: 0 <= i < |calls| ==> calls[i].id == i && WarmLoad(config, calls[i].load))
    && CallsLegal(EmptyCache(config.cacheSize), m0, calls)
  }

  /** Every position in order with its own targets, from (c, m) on. */
  ghost predicate Computed(config: BenchmarkConfig, c: Cache, m: Mem, ys: seq<Layer>, final: Cache, finalMem: Mem)
    requires config.numExperts > 0
  {
    && AsRouted(config, ys) && |ys| == config.totalTokens * config.numLayers
    && (forall k :: 0 <= k < |ys| ==> Configured(config, ys[k]))
    && LayersLegal(c, m, ys) && final == LayersCache(c, m, ys) && finalMem == LayersMem(c, m, ys)
  }

  /** What a scenario does to a cache of the configured size that starts out empty. */
  ghost predicate Ran(config: BenchmarkConfig, m0: Mem, calls: seq<Call>, ys: seq<Layer>, final: Cache, finalMem: Mem)
    requires config.numExperts > 0
  {
    var c0 := EmptyCache(config.cacheSize);
    Warmed(config, m0, calls) && Computed(config, CallsCache(c0, calls), CallsMem(c0, m0, calls), ys, final, finalMem)
  }

  lemma RanByParts(config: BenchmarkConfig, m0: Mem, calls: seq<Call>, ys: seq<Layer>, final: Cache, finalMem: Mem)
    requires config.numExperts > 0 && Warmed(config, m0, calls)
    requires var c0 := EmptyCache(config.cacheSize);
             Computed(config, CallsCache(c0, calls), CallsMem(c0, m0, calls), ys, final, finalMem)
    ensures Ran(config, m0, calls, ys, final, finalMem)
  {
    hide Warmed, Computed;
  }

  lemma NoWarmUp(config: BenchmarkConfig, m0: Mem)
    ensures !config.scenario.WARM_CACHE? ==> Warmed(config, m0, [])
    ensures var c0 := EmptyCache(config.cacheSize); CallsCache(c0, []) == c0 && CallsMem(c0, m0, []) == m0
  {
  }

  lemma WarmUpMakes(config: BenchmarkConfig, m0: Mem, calls: seq<Call>)
    requires config.scenario.WARM_CACHE? && CallsLegal(EmptyCache(config.cacheSize), m0, calls)
    requires |calls| == 16 && forall i :: 0 <= i < 16 ==> calls[i].id == i && WarmLoad(config, calls[i].load)
    ensures Warmed(config, m0, calls)
  {
    hide CallsLegal, WarmLoad;
  }

  /** The benchmark sets the switches before a scenario and leaves them alone during it. */
  function Always(switches: Switches): nat -> Switches {
    (k: nat) => switches
  }

  function MissRate(hits: nat, misses: nat): real {
    if hits + misses > 0 then misses as real / (hits + misses) as real else 0.0
  }

  /** The miss rate is the share of the queries that missed: it is 0 before any query, never above 1, and a
      controller fed with it looks further ahead the moment one query in twenty has missed. */
  lemma MissRateIsShare(hits: nat, misses: nat)
    ensures MissRate(hits, misses) * (hits + misses) as real == misses as real
    ensures 0.0 <= MissRate(hits, misses) <= 1.0
    ensures hits + misses == 0 ==> MissRate(hits, misses) == 0.0
    ensures DepthFor(MissRate(hits, misses)) > 4 <==> hits + misses > 0 && 20 * misses >= hits + misses
  {
    if hits + misses > 0 {
      ShareBounds(misses, hits + misses);
      ShareAtLeast(misses, hits + misses);
    }
  }

  lemma ShareBounds(a: nat, n: nat)
    requires a <= n && n > 0
    ensures (a as real / n as real) * n as real == a as real && 0.0 <= a as real / n as real <= 1.0
  {
  }

  lemma ShareAtLeast(a: nat, n: nat)
    requires n > 0
    ensures a as real / n as real >= 0.05 <==> 20 * a >= n
  {
    var q := a as real / n as real;
    assert q * n as real == a as real;
    if q >= 0.05 { assert (q - 0.05) * n as real >= 0.0; }
    if q < 0.05 { assert (0.05 - q) * n as real > 0.0; }
  }

  class Benchmark {
    const config: BenchmarkConfig
    var currentComputeToken: uint32
    var currentComputeLayer: uint32

    constructor (config: BenchmarkConfig)
      ensures this.config == config
    {
      this.config := config;
      currentComputeToken, currentComputeLayer := 0, 0;
    }

    /** Pins both experts of a layer, uses them, and unpins both. */
    method ComputeLayer(cache: ExpertCache, a: Id, b: Id) returns (ghost y: Layer)
      requires cache.Valid() && cache.NoneLoading() && cache.memory.expertSize == config.expertSize
      modifies cache, cache.cacheMap.Values, cache.clock
      modifies cache.memory`currentRamUsage, cache.memory`peakRamUsage, cache.memory`cacheOccupancy, cache.memory`mappings
      ensures cache.Valid() && cache.NoneLoading()
      ensures forall e :: e in cache.cacheMap.Values ==> e in old(cache.cacheMap.Values) || fresh(e)
      ensures y.a == a && y.b == b && Configured(config, y)
      ensures LayerLegal(old(cache.View()), old(cache.memory.View()), y)
      ensures cache.View() == LayerCache(old(cache.View()), old(cache.memory.View()), y)
      ensures cache.memory.View() == LayerMem(old(cache.View()), old(cache.memory.View()), y)
    {
      hide GetLegal, GetCache, GetMem, Unpin, Follows, AllLoaded, Values;
      hide ExpertCache.View, ExpertCache.Valid, MemoryManager.View;
      NothingToAwait(cache, a);
      var e0, first := cache.GetAndPin(a, Always(config.switches), config.arcTarget);
      NothingToAwait(cache, b);
      var e1, second := cache.GetAndPin(b, Always(config.switches), config.arcTarget);
      y := Layer(a, b, first, second);
      cache.UnpinExpert(a);
      cache.UnpinExpert(b);
      UnpinLeavesLoaded(y, old(cache.View()), old(cache.memory.View()));
    }

    lemma NothingToAwait(cache: ExpertCache, id: Id)
      requires cache.NoneLoading()
      ensures id in cache.cacheMap ==> cache.cacheMap[id].isLoaded
    {
      assert id in cache.cacheMap ==> id in cache.View().entries;
    }

    /** The running miss rate (0 before any query) goes to the lookahead controller, if that is on. */
    method ReportMissRate(cache: ExpertCache, controller: AdaptiveLookaheadController)
      requires controller.Valid()
      modifies controller
      ensures controller.Valid()
      ensures controller.rates
           == old(controller.rates) + (if config.adaptive then [MissRate(cache.hitCount, cache.missCount)] else [])
    {
      if config.adaptive {
        var queries := cache.hitCount + cache.missCount;
        var missRate := if queries > 0 then cache.missCount as real / queries as real else 0.0;
        controller.UpdateMetrics(missRate);
      }
    }

    /** One position: publish the progress, find the experts, use them, account for the misses. */
    method ComputePosition(cache: ExpertCache, t: uint32, l: uint32) returns (ioBytes: nat, ghost y: Layer)
      requires config.numExperts > 0
      requires cache.Valid() && cache.NoneLoading() && cache.memory.expertSize == config.expertSize
      modifies this`currentComputeToken, this`currentComputeLayer, cache, cache.cacheMap.Values, cache.clock
      modifies cache.memory`currentRamUsage, cache.memory`peakRamUsage, cache.memory`cacheOccupancy, cache.memory`mappings
      ensures currentComputeToken == t && currentComputeLayer == l
      ensures cache.Valid() && cache.NoneLoading()
      ensures forall e :: e in cache.cacheMap.Values ==> e in old(cache.cacheMap.Values) || fresh(e)
      ensures (y.a, y.b) == TargetsAt(config, t, l) && Configured(config, y)
      ensures LayerLegal(old(cache.View()), old(cache.memory.View()), y)
      ensures cache.View() == LayerCache(old(cache.View()), old(cache.memory.View()), y)
      ensures cache.memory.View() == LayerMem(old(cache.View()), old(cache.memory.View()), y)
      ensures cache.missCount >= old(cache.missCount)
      ensures ioBytes == (cache.missCount - old(cache.missCount)) * config.expertSize
    {
      hide LayerLegal, LayerCache, LayerMem, Target, Dedup, Following, Values, Flat, Configured;
      hide ExpertCache.Valid, ExpertCache.NoneLoading, MemoryManager.View;
      currentComputeToken := t;
      currentComputeLayer := l;
      var targets := new uint32[2];
      var draws := config.draws(t, l);
      GetRoutedExperts(t, l, config.numLayers, config.numExperts, config.scenario, draws.0, draws.1, targets);
      DedupOfTwo([draws.0, draws.1], config.numExperts);
      var missesBefore := cache.missCount;
      ghost var c, m := cache.View(), cache.memory.View();
      y := ComputeLayer(cache, targets[0], targets[1]);
      LayerCounts(c, m, y);
      assert cache.missCount == LayerCache(c, m, y).misses && missesBefore == c.misses;
      var numMissesStep := cache.missCount - missesBefore;
      ioBytes := numMissesStep * config.expertSize;
    }

    /** The cache and the memory manager are where the layers `ys` bring them from (c, m), and those layers
        are the first |ys| positions. */
    ghost predicate Worked(cache: ExpertCache, c: Cache, m: Mem, ys: seq<Layer>, ioBytes: nat)
      requires config.numExperts > 0
      reads cache, cache.cacheMap.Values, cache.clock, cache.memory
    {
      && cache.Valid() && cache.NoneLoading() && cache.memory.expertSize == config.expertSize
      && AsRouted(config, ys) && (forall k :: 0 <= k < |ys| ==> Configured(config, ys[k]))
      && LayersLegal(c, m, ys)
      && cache.View() == LayersCache(c, m, ys) && cache.memory.View() == LayersMem(c, m, ys)
      && cache.missCount >= c.misses && ioBytes == (cache.missCount - c.misses) * config.expertSize
    }

    /** One iteration of the inner loop. */
    method NextPosition(cache: ExpertCache, controller: AdaptiveLookaheadController, t: uint32, l: uint32, totalIoBytes: nat,
                        ghost c: Cache, ghost m: Mem, ghost ys: seq<Layer>) returns (io: nat, ghost y: Layer)
      requires config.numExperts > 0 && controller.Valid() && Worked(cache, c, m, ys, totalIoBytes)
      requires l < config.numLayers && |ys| == Flat(t, l, config.numLayers)
      modifies this`currentComputeToken, this`currentComputeLayer, controller, cache, cache.cacheMap.Values, cache.clock
      modifies cache.memory`currentRamUsage, cache.memory`peakRamUsage, cache.memory`cacheOccupancy, cache.memory`mappings
      ensures controller.Valid() && Worked(cache, c, m, ys + [y], io)
      ensures currentComputeToken == t && currentComputeLayer == l
      ensures forall e :: e in cache.cacheMap.Values ==> e in old(cache.cacheMap.Values) || fresh(e)
      ensures controller.rates
           == old(controller.rates) + (if config.adaptive then [MissRate(cache.hitCount, cache.missCount)] else [])
    {
      hide LayerLegal, LayerCache, LayerMem, WellFormed, NotBefore, TargetsAt, AsRouted, Configured, Flat, LayersLegal;
      hide LayersCache, LayersMem, ExpertCache.View, ExpertCache.NoneLoading, ExpertCache.Valid, MemoryManager.View;
      hide Depths, Changes, AdaptiveLookaheadController.Valid;
      ghost var misses := cache.missCount;
      var ioBytes;
      ioBytes, y := ComputePosition(cache, t, l);
      io := totalIoBytes + ioBytes;
      BytesAdd(misses - c.misses, cache.missCount - misses, config.expertSize);
      LayersExtend(c, m, ys, y);
      AsRoutedExtends(config, ys, t, l, y);
      ReportMissRate(cache, controller);
    }

    /** The compute loop. */
    method ComputeLoop(cache: ExpertCache, controller: AdaptiveLookaheadController) returns (totalIoBytes: nat, ghost ys: seq<Layer>)
      requires config.numExperts > 0 && controller.Valid()
      requires cache.Valid() && cache.NoneLoading() && cache.memory.expertSize == config.expertSize
      modifies this`currentComputeToken, this`currentComputeLayer, controller, cache, cache.cacheMap.Values, cache.clock
      modifies cache.memory`currentRamUsage, cache.memory`peakRamUsage, cache.memory`cacheOccupancy, cache.memory`mappings
      ensures controller.Valid() && Worked(cache, old(cache.View()), old(cache.memory.View()), ys, totalIoBytes)
      ensures |ys| == config.totalTokens * config.numLayers
      ensures forall e :: e in cache.cacheMap.Values ==> e in old(cache.cacheMap.Values) || fresh(e)
      ensures |controller.rates| == |old(controller.rates)| + (if config.adaptive then |ys| else 0)
    {
      hide AdaptiveLookaheadController.Valid, Flat;
      ghost var c, m := cache.View(), cache.memory.View();
      ys := [];
      totalIoBytes := 0;
      NothingRouted(config);
      RowStart(0, config.numLayers);
      assert Worked(cache, c, m, ys, totalIoBytes);
      hide Worked, ExpertCache.Valid, ExpertCache.NoneLoading;
      for t := 0 to config.totalTokens
        invariant controller.Valid() && Worked(cache, c, m, ys, totalIoBytes)
        invariant |ys| == Flat(t, 0, config.numLayers)
        invariant forall e :: e in cache.cacheMap.Values ==> e in old(cache.cacheMap.Values) || fresh(e)
        invariant |controller.rates| == |old(controller.rates)| + (if config.adaptive then |ys| else 0)
      {
        for l := 0 to config.numLayers
          invariant controller.Valid() && Worked(cache, c, m, ys, totalIoBytes)
          invariant |ys| == Flat(t, l, config.numLayers)
          invariant forall e :: e in cache.cacheMap.Values ==> e in old(cache.cacheMap.Values) || fresh(e)
          invariant |controller.rates| == |old(controller.rates)| + (if config.adaptive then |ys| else 0)
        {
          ghost var y;
          totalIoBytes, y := NextPosition(cache, controller, t, l, totalIoBytes, c, m, ys);
          FlatNext(t, l, config.numLayers);
          ys := ys + [y];
        }
        RowEnd(t, config.numLayers);
      }
      RowStart(config.totalTokens, config.numLayers);
    }

    /** Pre-warming: prefetches the sixteen hot experts, in order. */
    method WarmUp(cache: ExpertCache) returns (ghost calls: seq<Call>)
      requires cache.Valid() && cache.NoneLoading()
      modifies cache, cache.cacheMap.Values, cache.clock
      modifies cache.memory`currentRamUsage, cache.memory`peakRamUsage, cache.memory`cacheOccupancy, cache.memory`mappings
      ensures cache.Valid() && cache.NoneLoading()
      ensures |calls| == 16 && forall i :: 0 <= i < 16 ==> calls[i].id == i && WarmLoad(config, calls[i].load)
      ensures CallsLegal(old(cache.View()), old(cache.memory.View()), calls)
      ensures cache.View() == CallsCache(old(cache.View()), calls)
      ensures cache.memory.View() == CallsMem(old(cache.View()), old(cache.memory.View()), calls)
      ensures forall e :: e in cache.cacheMap.Values ==> e in old(cache.cacheMap.Values) || fresh(e)
    {
      hide PrefetchLegal, PrefetchCache, PrefetchMem, WellFormed, NotBefore, AllLoaded, Values, Follows;
      ghost var c, m := cache.View(), cache.memory.View();
      calls := [];
      for i: uint32 := 0 to 16
        invariant cache.Valid() && cache.NoneLoading()
        invariant |calls| == i && forall k :: 0 <= k < i ==> calls[k].id == k && WarmLoad(config, calls[k].load)
        invariant CallsLegal(c, m, calls)
        invariant cache.View() == CallsCache(c, calls) && cache.memory.View() == CallsMem(c, m, calls)
        invariant forall e :: e in cache.cacheMap.Values ==> e in old(cache.cacheMap.Values) || fresh(e)
      {
        var ok;
        ghost var l;
        ok, l := cache.PrefetchExpert(i, Always(config.switches), config.arcTarget);
        CallsExtend(c, m, calls, Call(i, l));
        calls := calls + [Call(i, l)];
      }
    }

    /** Warm-up and compute loop on a new cache, and what they leave on the counters. */
    method Work(cache: ExpertCache, controller: AdaptiveLookaheadController)
      returns (res: ScenarioResult, ghost calls: seq<Call>, ghost ys: seq<Layer>)
      requires config.numExperts > 0 && controller.Valid()
      requires cache.Valid() && cache.NoneLoading() && cache.memory.expertSize == config.expertSize
      requires cache.View() == EmptyCache(config.cacheSize) && cache.hitCount == cache.missCount == 0
      modifies this`currentComputeToken, this`currentComputeLayer, controller, cache, cache.cacheMap.Values, cache.clock
      modifies cache.memory`currentRamUsage, cache.memory`peakRamUsage, cache.memory`cacheOccupancy, cache.memory`mappings
      ensures cache.Valid() && cache.NoneLoading() && controller.Valid()
      ensures forall occupancy, ram ::
                old(Settled(cache.View(), cache.memory.View(), occupancy, ram)) ==>
                  Settled(cache.View(), cache.memory.View(), occupancy, ram)
      ensures Ran(config, old(cache.memory.View()), calls, ys, cache.View(), cache.memory.View())
      ensures res == ScenarioResult(cache.hitCount, cache.missCount, cache.evictionCount, cache.memory.peakRamUsage,
                                    cache.memory.cacheOccupancy, res.ioBytes)
      ensures res.hits + res.misses == 2 * (config.totalTokens * config.numLayers)
      ensures res.ioBytes == res.misses * config.expertSize
      ensures |controller.rates| == |old(controller.rates)| + (if config.adaptive then config.totalTokens * config.numLayers else 0)
    {
      hide *;
      hide LayersLegal, LayersCache, LayersMem, AsRouted, Configured, AdaptiveLookaheadController.Valid;
      NoWarmUp(config, cache.memory.View());
      ghost var c0, m0 := cache.View(), cache.memory.View();
      ghost var occupancy, ram := m0.occupancy - ResidentBytes(c0), m0.ram - ResidentBytes(c0);
      SettledUniquely(c0, m0, occupancy, ram);
      cache.CountersInView();
      calls := [];
      if config.scenario.WARM_CACHE? {
        calls := WarmUp(cache);
        CallsSettle(c0, m0, calls, occupancy, ram);
        WarmUpMakes(config, m0, calls);
      }
      ghost var c, m := cache.View(), cache.memory.View();
      var totalIoBytes;
      totalIoBytes, ys := ComputeLoop(cache, controller);
      WorkedFacts(cache, c, m, ys, totalIoBytes);
      LayersSettle(c, m, ys, occupancy, ram);
      LayersCount(c, m, ys);
      RanByParts(config, m0, calls, ys, cache.View(), cache.memory.View());
      res := ScenarioResult(cache.hitCount, cache.missCount, cache.evictionCount, cache.memory.peakRamUsage,
                            cache.memory.cacheOccupancy, totalIoBytes);
    }

    lemma WorkedFacts(cache: ExpertCache, c: Cache, m: Mem, ys: seq<Layer>, ioBytes: nat)
      requires config.numExperts > 0 && Worked(cache, c, m, ys, ioBytes)
      ensures cache.Valid() && cache.NoneLoading() && LayersLegal(c, m, ys)
      ensures cache.View() == LayersCache(c, m, ys) && cache.memory.View() == LayersMem(c, m, ys)
      ensures cache.missCount >= c.misses && ioBytes == (cache.missCount - c.misses) * config.expertSize
      ensures cache.View().hits == cache.hitCount && cache.View().misses == cache.missCount
      ensures |ys| == config.totalTokens * config.numLayers ==>
                Computed(config, c, m, ys, cache.View(), cache.memory.View())
    {
      hide LayersLegal, LayersCache, LayersMem, AsRouted, Configured, WellFormed, NotBefore;
    }

    /** A whole scenario. However many mappings fail, both memory counters end where they started, every
        position has asked for two experts, and the bytes charged are the misses times the expert size;
        `final` is the cache when the results are taken, the outcome of `calls` and then `ys` on an empty
        cache of the configured size, with the memory manager's counters as they were found. */
    method RunScenario(memory: MemoryManager, clock: Clock, controller: AdaptiveLookaheadController)
      returns (res: ScenarioResult, ghost final: Cache, ghost finalMem: Mem, ghost calls: seq<Call>, ghost ys: seq<Layer>)
      requires config.numExperts > 0 && controller.Valid()
      modifies this`currentComputeToken, this`currentComputeLayer, memory, clock, controller
      ensures memory.cacheOccupancy == old(memory.cacheOccupancy)
      ensures memory.currentRamUsage == old(memory.currentRamUsage)
      ensures !memory.weightsOpen && controller.Valid()
      ensures res.hits + res.misses == 2 * (config.totalTokens * config.numLayers)
      ensures res.ioBytes == res.misses * config.expertSize
      ensures WellFormed(final) && AllLoaded(final) && final.max == config.cacheSize
      ensures var found := Mem(old(memory.currentRamUsage), old(memory.currentRamUsage), old(memory.cacheOccupancy), old(memory.mappings));
              Ran(config, found, calls, ys, final, finalMem)
      ensures res == ScenarioResult(final.hits, final.misses, final.evictions, finalMem.peak, finalMem.occupancy, res.ioBytes)
      ensures res.finalOccupancy == old(memory.cacheOccupancy) + ResidentBytes(final)
      ensures |controller.rates| == |old(controller.rates)| + (if config.adaptive then config.totalTokens * config.numLayers else 0)
    {
      hide Settled, WellFormed, NotBefore, AdaptiveLookaheadController.Valid, ResidentBytes, ExpertCache.View, AllLoaded, Ran;
      memory.ResetPeakTracker();
      var ok := memory.InitWeightsFile(config.expertSize);
      ghost var occupancy, ram := memory.cacheOccupancy, memory.currentRamUsage;
      var cache := new ExpertCache(config.cacheSize, memory, clock);
      cache.CountersInView();
      EmptySettles(config.cacheSize, memory.View());
      res, calls, ys := Work(cache, controller);
      final, finalMem := cache.View(), memory.View();
      cache.CountersInView();
      memory.CloseWeightsFile();
      SettledCounters(cache.View(), memory.View(), occupancy, ram);
      cache.Destroy();
    }
  }

  /** The counters at any moment settle with exactly one pair of remainders. */
  lemma SettledUniquely(c: Cache, m: Mem, occupancy: int, ram: int)
    ensures Settled(c, m, occupancy, ram) <==>
              occupancy == m.occupancy - ResidentBytes(c) && ram == m.ram - ResidentBytes(c)
    ensures forall x, y :: Settled(c, m, x, y) ==> x == m.occupancy - ResidentBytes(c) && y == m.ram - ResidentBytes(c)
  {
  }

  lemma SettledCounters(c: Cache, m: Mem, occupancy: int, ram: int)
    requires Settled(c, m, occupancy, ram)
    ensures m.occupancy - ResidentBytes(c) == occupancy && m.ram - ResidentBytes(c) == ram
  {
  }

  lemma RowStart(t: nat, numLayers: nat)
    ensures Flat(t, 0, numLayers) == t * numLayers
  {
  }

  lemma RowEnd(t: nat, numLayers: nat)
    ensures Flat(t, numLayers, numLayers) == Flat(t + 1, 0, numLayers)
  {
    assert (t + 1) * numLayers == t * numLayers + numLayers;
  }

  lemma BytesAdd(a: nat, b: nat, size: nat)
    ensures (a + b) * size == a * size + b * size
  {
  }

  lemma UnpinLeavesLoaded(y: Layer, c: Cache, m: Mem)
    requires var c1 := GetCache(c, y.a, y.first); AllLoaded(GetCache(c1, y.b, y.second))
    ensures AllLoaded(LayerCache(c, m, y))
  {
    hide GetCache, GetMem;
  }

  // ----- the compute loop's hit count as a function of the cache size -----

  lemma {:induction false} TraceAt(ys: seq<Layer>, k: nat)
    requires k < |ys|
    ensures |LruStack.Trace(ys)| == |ys| && LruStack.Trace(ys)[k] == (ys[k].a, ys[k].b)
  {
    if k > 0 {
      TraceAt(ys[1..], k - 1);
    } else {
      TraceLength(ys);
    }
  }

  lemma {:induction false} TraceLength(ys: seq<Layer>)
    ensures |LruStack.Trace(ys)| == |ys|
  {
    if ys != [] { TraceLength(ys[1..]); }
  }

  lemma PositionOf(k: nat, totalTokens: uint32, numLayers: uint32) returns (t: uint32, l: uint32)
    requires k < totalTokens * numLayers && numLayers > 0
    ensures l < numLayers && Flat(t, l, numLayers) == k
  {
    hide Flat;
    var q, r := Quotient(k, numLayers), Rem(k, numLayers);
    QuotientRemainder(k, numLayers);
    FlatParts(0, 0, q, r, k, numLayers);
    FlatOrder(totalTokens, 0, q, r, numLayers);
    RowStart(totalTokens, numLayers);
    t, l := q, r;
  }

  ghost predicate SameRouting(a: BenchmarkConfig, b: BenchmarkConfig) {
    && a.numLayers == b.numLayers && a.numExperts == b.numExperts && a.totalTokens == b.totalTokens
    && a.scenario == b.scenario && forall t: uint32, l: uint32 :: a.draws(t, l) == b.draws(t, l)
  }

  /** Whatever the cache does, the accesses of a scenario are the same. */
  lemma SameTrace(a: BenchmarkConfig, b: BenchmarkConfig, ys: seq<Layer>, ys': seq<Layer>)
    requires a.numExperts > 0 && SameRouting(a, b) && AsRouted(a, ys) && AsRouted(b, ys')
    requires |ys| == |ys'| == a.totalTokens * a.numLayers
    ensures LruStack.Trace(ys) == LruStack.Trace(ys')
  {
    hide Flat, TargetsAt, LruStack.Trace;
    TraceLength(ys);
    TraceLength(ys');
    forall k: nat | k < |ys|
      ensures LruStack.Trace(ys)[k] == LruStack.Trace(ys')[k]
    {
      TraceAt(ys, k);
      TraceAt(ys', k);
      NoLayersNoPositions(a.totalTokens, a.numLayers);
      var t, l := PositionOf(k, a.totalTokens, a.numLayers);
      assert TargetsAt(a, t, l) == TargetsAt(b, t, l) by { SameTargets(a, b, t, l); }
    }
  }

  lemma SameTargets(a: BenchmarkConfig, b: BenchmarkConfig, t: uint32, l: uint32)
    requires a.numExperts > 0 && SameRouting(a, b)
    ensures TargetsAt(a, t, l) == TargetsAt(b, t, l)
  {
    hide Target, Following;
  }

  lemma NoLayersNoPositions(totalTokens: nat, numLayers: nat)
    ensures totalTokens * numLayers > 0 ==> numLayers > 0
  {
  }

  /** Under LRU with the hotset off and every mapping succeeding, a compute loop that starts on a larger empty
      cache never gets fewer hits. */
  lemma LargerCacheNeverHitsLess(a: BenchmarkConfig, b: BenchmarkConfig, m: Mem, m': Mem, ys: seq<Layer>, ys': seq<Layer>, n: nat, n': nat)
    requires a.numExperts > 0 && SameRouting(a, b) && AsRouted(a, ys) && AsRouted(b, ys')
    requires |ys| == |ys'| == a.totalTokens * a.numLayers
    requires Fits(a.cacheSize, a.expertSize, n) && Fits(b.cacheSize, a.expertSize, n')
    requires 2 <= n && a.cacheSize <= b.cacheSize && m.occupancy == m'.occupancy == 0
    requires LayersLegal(EmptyCache(a.cacheSize), m, ys) && LruStack.PlainRun(ys, a.expertSize)
    requires LayersLegal(EmptyCache(b.cacheSize), m', ys') && LruStack.PlainRun(ys', a.expertSize)
    ensures LayersCache(EmptyCache(a.cacheSize), m, ys).hits <= LayersCache(EmptyCache(b.cacheSize), m', ys').hits
  {
    hide LayersLegal, LayersCache, LruStack.PlainRun, AsRouted;
    SameTrace(a, b, ys, ys');
    LruStack.LargerBudgetNeverHitsLess(a.cacheSize, b.cacheSize, m, m', ys, ys', a.expertSize, n, n');
  }

  // ----- scenarios under LRU -----

  ghost predicate AllMapped(ys: seq<Layer>) {
    forall k :: 0 <= k < |ys| ==> ys[k].first.ptr.At? && ys[k].second.ptr.At?
  }

  /** A scenario without warm-up that runs under LRU with the hotset off, every mapping succeeding, on counters
      that start at zero and a budget of n >= 2 experts. */
  ghost predicate RanPlainly(config: BenchmarkConfig, m0: Mem, ys: seq<Layer>, final: Cache, finalMem: Mem, n: nat)
    requires config.numExperts > 0
  {
    && Ran(config, m0, [], ys, final, finalMem) && AllMapped(ys)
    && config.switches.policy.LRU? && config.switches.hot.Off?
    && m0.occupancy == 0 && Fits(config.cacheSize, config.expertSize, n) && n >= 2
  }

  lemma PlainScenario(config: BenchmarkConfig, m0: Mem, ys: seq<Layer>, final: Cache, finalMem: Mem, n: nat)
    requires config.numExperts > 0 && RanPlainly(config, m0, ys, final, finalMem, n)
    ensures LruStack.PlainRun(ys, config.expertSize) && AsRouted(config, ys) && LayersLegal(EmptyCache(config.cacheSize), m0, ys)
    ensures |ys| == config.totalTokens * config.numLayers && final == LayersCache(EmptyCache(config.cacheSize), m0, ys)
  {
    hide LayersLegal, LayersCache, LayersMem, AsRouted;
    forall k | 0 <= k < |ys|
      ensures LruStack.PlainLoad(ys[k].first, config.expertSize) && LruStack.PlainLoad(ys[k].second, config.expertSize)
    {
      assert Configured(config, ys[k]);
    }
  }

  /** Its hits are the accesses found among the n most recently used experts, the rest of its accesses are its
      misses, and it ends with the n most recently used ones. */
  lemma ScenarioSplit(config: BenchmarkConfig, m0: Mem, ys: seq<Layer>, final: Cache, finalMem: Mem, n: nat)
    requires config.numExperts > 0 && RanPlainly(config, m0, ys, final, finalMem, n)
    ensures final.hits == LruStack.StackHits(LruStack.Trace(ys), [], n)
    ensures final.hits + final.misses == 2 * (config.totalTokens * config.numLayers)
    ensures final.lru == LruStack.Prefix(LruStack.FinalList(LruStack.Trace(ys), []), n)
  {
    hide LayersLegal, LayersCache, LayersMem, LruStack.PlainRun, AsRouted, Ran;
    PlainScenario(config, m0, ys, final, finalMem, n);
    LruStack.StackProperty(config.cacheSize, m0, ys, config.expertSize, n);
    LayersCount(EmptyCache(config.cacheSize), m0, ys);
  }

  /** The same scenario with a larger budget never gets fewer hits. */
  lemma LargerScenarioNeverHitsLess(a: BenchmarkConfig, b: BenchmarkConfig, m: Mem, m': Mem, ys: seq<Layer>, ys': seq<Layer>,
                                    final: Cache, final': Cache, finalMem: Mem, finalMem': Mem, n: nat, n': nat)
    requires a.numExperts > 0 && SameRouting(a, b) && a.expertSize == b.expertSize && a.cacheSize <= b.cacheSize
    requires RanPlainly(a, m, ys, final, finalMem, n) && RanPlainly(b, m', ys', final', finalMem', n')
    ensures final.hits <= final'.hits
  {
    hide LayersLegal, LayersCache, LayersMem, LruStack.PlainRun, AsRouted, Ran;
    PlainScenario(a, m, ys, final, finalMem, n);
    PlainScenario(b, m', ys', final', finalMem', n');
    LargerCacheNeverHitsLess(a, b, m, m', ys, ys', n, n');
  }
}
