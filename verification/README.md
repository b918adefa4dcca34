# Expert-weight residency pipeline: model and proofs

The program keeps the weights of many experts in one file and maps only some of them into memory. A compute
loop walks through (token, layer) positions and pins two experts at each. A router thread runs ahead of it and
sends predictions through a lock-free ring; a prefetch thread pops them and loads experts into a bounded cache
that both threads share. This project models that pipeline in Dafny and proves what it keeps.

`dafny verify dfyconfig.toml` checks everything.

## Layout

Two forms of the same code stand side by side. Classes have the program's own loops on fields, maps and arrays
and are proved equal to specification functions; step machines interleave those same functions, one atomic step
at a time, for any number of threads and any schedule.

| file | subject |
|---|---|
| `CacheModel.dfy` | cache and memory manager as values, the critical sections as functions, recency list and statistics |
| `Eviction.dfy`, `Hotset.dfy` | the eviction loop as a relation: four policies, hotset, budget bound, hotset stability under one order of ties |
| `EvictionLaws.dfy` | what LRU-K, HYBRID and ARC evict, in terms of the accesses made and the entries' own fields |
| `HotsetTies.dfy`, `HotsetBoundary.dfy` | when the hotset's promise holds under any outcome of the sort: distinct counts, uncut ties, and the exact condition for LRU |
| `ExpertCache.dfy`, `MemoryManager.dfy` | the classes: entries on the heap, the four policy scans, the eviction loop, whole calls, the destructor |
| `CacheProtocol.dfy`, `CacheSafety.dfy`, `CacheTheorems.dfy` | any number of threads: the steps, the inductive invariant, pin safety, single loader, no lost wake-ups, counters |
| `AccessLog.dfy` | over any run: records and recency list from the calls made, where mapped experts lie in the file, the recorded peak |
| `CacheLiveness.dfy` | every waiter is served in every fair behaviour |
| `MemoryBound.dfy`, `FillingRuns.dfy`, `CrowdedRuns.dfy`, `BudgetCondition.dfy` | the bound on RAM and peak, runs that attain it, exactly when the budget alone is a bound |
| `Conservation.dfy` | RAM against the live mappings, one owner for each mapping, nothing left after destruction |
| `SequentialUse.dfy`, `SequentialAccounting.dfy`, `LruStack.dfy` | whole calls by one thread, their accounting, the LRU stack property |
| `PeakTracker.dfy` | the compare-and-exchange maximum under any interleaving |
| `Bits.dfy`, `SpscQueue.dfy` | machine words and masks, the ring as a class and as single memory accesses |
| `Prediction.dfy`, `Routing.dfy` | candidates against targets, messages and streams of messages |
| `Pipeline.dfy`, `PipelineTheorems.dfy`, `TornRead.dfy`, `PipelineLiveness.dfy` | compute loop, router, ring and prefetch thread together; lookahead bound and its tightness; delivery; when the router ends |
| `RouterThread.dfy`, `PrefetchThread.dfy`, `AdaptiveLookahead.dfy`, `Benchmark.dfy` | the threads' loops and the scenario as classes |
| `WeightPacker.dfy` | the aligned packing loop |
| `Sums.dfy` | sums over maps and sequences, duplicate-free sequences |

In the step machines a run is any sequence of enabled steps from the initial state, so a lemma about
`Run(cfg, s, actions)` speaks about every interleaving. `NotBefore` is the only assumption on the clock: it never
runs backwards. Mapping may fail at any time, map iteration and ties of the sort come in any order, and policy and
hotset settings may change from one pass of the eviction loop to the next.

## Where code and promises part

- The code maps before it evicts (`src/expert_cache.cpp:87` against `:109`), so the reported "strictly below the
  budget" (`src/main.cpp:457`) does not hold in general. `BudgetCondition.StrictlyBelowIff` and
  `BudgetCondition.BudgetSufficesIff` say exactly when it does: when all experts that are ever asked for fit into the
  budget together. `MemoryBound.MemoryNeverExceeds` is the bound that always holds, and
  `FillingRuns.MemoryBoundIsAttained` and `CrowdedRuns.CrowdedBoundIsAttained` show that both its branches are reached.
- The router reads the two progress words one after the other, so the lookahead depth alone bounds it unless it
  read a new token with the layer left over from the previous one; an older token with that layer is a pair that was
  stored together and does no harm. `PipelineTheorems.LookaheadBound` has both cases,
  `TornRead.BoundIsAttained` reaches the weaker one, and `TornRead.RunsAheadIff` says for which configurations the
  depth alone fails.
- LRU-K measures to the oldest of up to five stamps, not to the second-last access.
- ARC's target never adapts; it is a parameter here, constant for a pass.
- A lookahead depth of zero keeps the router from its last position for ever (`PipelineLiveness.DepthZeroNeverEnds`);
  any other depth lets it end (`PipelineLiveness.RouterEnds`).
- More than two candidates cover churn only under the condition of `Prediction.ChurnCoverage`, over whole runs that of
  `Prediction.ChurnCoversRunIff`; the duplicate repair
  gives distinct candidates exactly for up to two (`Prediction.RepairWorksIff`).
- Open ties of the frequency sort can expose a protected expert. Distinct counts rule that out
  (`HotsetTies.DistinctCountsKeepHotset`), and so does a hotset whose end cuts no class of equal counts
  (`HotsetTies.UncutTiesKeepHotset`); `HotsetBoundary.ProtectedMayGoIff` is the exact condition under LRU.
- A reset of the peak loads and stores separately. It is exact if no allocation overlaps it
  (`PeakTracker.PeakIsExact`); one that does can make the peak too small (`PeakTracker.RacingResetForgetsPeak`) or too
  large (`PeakTracker.StaleAllocationOverstates`). `PeakTracker.ResetIsExactIff` is the exact condition.
- The LRU stack property needs room for both experts of a layer (`LruStack.OnStackThroughoutIff`).
- A speculative message carries the candidates of its source position, not of the position it names, and it may name
  a token past the last one; `Routing.SpeculativePosition` says what it names.

## Model

| member | source | states |
|---|---|---|
| CacheModel.StatsKeepMatching | src/expert_cache.cpp:32-43 | Recording an access keeps every expert's record equal to the summary of the full access log: count mod 2^32, latest stamp, and a window that is exactly the last five stamps |
| CacheModel.WindowSlides | src/expert_cache.cpp:34-42 | Push, then drop the front beyond five, turns the summary of n stamps into the summary of n + 1, also when the 32-bit count wraps |
| CacheModel.StatsNotAfter | src/expert_cache.cpp:279-297 | With a nondecreasing clock no stamp lies in the future, so the unsigned distances of LRU-K and HYBRID never wrap |
| CacheModel.TouchListed | src/expert_cache.cpp:27-30 | Touching a resident id keeps the recency list a duplicate-free permutation of the resident ids in order of latest touch |
| CacheModel.InsertKeeps | src/expert_cache.cpp:79-81 | Filing a pending placeholder at the front keeps list, statistics and created = resident + evicted consistent |
| CacheModel.DiscardKeeps | src/expert_cache.cpp:389-401 | Taking any entry out of list and map keeps them consistent |
| CacheModel.EnterGetKeeps | src/expert_cache.cpp:45-84 | The first critical section of get_and_pin keeps the cache well formed on all three branches |
| CacheModel.EnterPrefetchKeeps | src/expert_cache.cpp:122-161 | The first critical section of prefetch_expert keeps the cache well formed |
| CacheModel.FinishWaitKeeps | src/expert_cache.cpp:65-71 | The section after a wait keeps the cache well formed |
| CacheModel.GetCountsOnce | src/expert_cache.cpp:53-76 | Entering get_and_pin adds exactly one to hits + misses, and it is a hit exactly if the entry was there and loaded |
| CacheModel.ResidentMoves | src/expert_cache.cpp:96-104 | Replacing one entry moves the resident bytes by exactly the difference of that entry's bytes; an entry whose mapping failed counts none |
| ExpertCaching.ExpertCache.constructor | src/expert_cache.cpp:10-11 | A new cache is empty and valid |
| ExpertCaching.ExpertCache.TouchLru | src/expert_cache.cpp:27-30 | The id moves to the front, the rest keeps its order |
| ExpertCaching.ExpertCache.RecordAccessStats | src/expert_cache.cpp:32-43 | The record changes as the specification says, at a time not before any earlier access |
| ExpertCaching.ExpertCache.EnterGetAndPin | src/expert_cache.cpp:45-84 | The first section run on the fields gives exactly the specified cache, in the branch given by what the map held, and returns the entry filed under the id; on every branch, a hit included, the id's record has one access more (32-bit count) at the present time and no other record changes |
| ExpertCaching.ExpertCache.Hit | src/expert_cache.cpp:55-60 | Changes one entry's pin count in the heap, the list and the hit count, and nothing else |
| ExpertCaching.ExpertCache.AwaitLoad | src/expert_cache.cpp:61-64 | Counts the miss and the waiter on the one pending entry |
| ExpertCaching.ExpertCache.BeginLoad | src/expert_cache.cpp:75-81 | Counts the miss and files a fresh entry, all others keeping their identity |
| ExpertCaching.ExpertCache.FinishWaiting | src/expert_cache.cpp:68-71 | Wait count down, pin count up, touched |
| ExpertCaching.ExpertCache.FinalizeLoad | src/expert_cache.cpp:94-104 | Publishes pointer, size and flag on that entry and adds to the occupancy exactly if the mapping succeeded |
| ExpertCaching.ExpertCache.UnpinExpert | src/expert_cache.cpp:114-120 | Takes one pin off the entry under the id, ignores unknown ids |
| ExpertCaching.ExpertCache.EnterPrefetchExpert | src/expert_cache.cpp:126-161 | A present expert is touched, an absent one gets a pending entry; either way its record has one access more and no other record changes |
| ExpertCaching.ExpertCache.LruScan | src/expert_cache.cpp:263-276 | Finds the candidate nearest the least recent end, or shows that there is no candidate at all; never looks up a missing id |
| ExpertCaching.ExpertCache.SegmentScan | src/expert_cache.cpp:319-334 | The least recent candidate of the wanted segment, or proof that the segment has none |
| ExpertCaching.ExpertCache.OnceBytes | src/expert_cache.cpp:310-315 | The loop over the map sums the sizes of the experts accessed less than twice, in any iteration order |
| ExpertCaching.ExpertCache.ArcScan | src/expert_cache.cpp:308-351 | Least recent candidate of the preferred segment, else least recent overall |
| ExpertCaching.ExpertCache.LrukScan | src/expert_cache.cpp:277-307 | A candidate of maximal backward distance to the oldest of five stamps, single accesses infinitely far, in any iteration order |
| ExpertCaching.ExpertCache.HybridScan | src/expert_cache.cpp:352-377 | A candidate of minimal count over decayed age, in any iteration order |
| ExpertCaching.ExpertCache.SortByFrequency | src/expert_cache.cpp:242-249 | All resident ids once each, by descending count |
| ExpertCaching.ExpertCache.ChooseHotset | src/expert_cache.cpp:240-260 | The accumulate-and-break loop yields the greedy prefix set of that order |
| ExpertCaching.ExpertCache.OnePass | src/expert_cache.cpp:232-377 | One pass ends with a victim that meets its policy's own relation under the switches, ARC target and time given, or with no candidate left; it changes nothing but the clock |
| ExpertCaching.ExpertCache.EvictEntryInternal | src/expert_cache.cpp:389-401 | Unlinks exactly this entry and releases its mapping, RAM and occupancy exactly if it was mapped |
| ExpertCaching.ExpertCache.EvictIfOverBudget | src/expert_cache.cpp:228-387 | The loop terminates whatever policy and hotset limit each pass reads, and its effect on cache and counters is a run of the eviction relation in which every pass follows the switches it read; surviving entries are the same objects |
| ExpertCaching.ExpertCache.CompleteLoad | src/expert_cache.cpp:86-109 | Map, publish and evict, mapping before evicting |
| ExpertCaching.ExpertCache.GetAndPin | src/expert_cache.cpp:45-112 | A whole call for an expert that no other thread is loading just then: returns the resident, loaded entry of the id with exactly one more pin, with the pointer it had or the one just mapped, however many others were evicted or are loading; the id's record has one access more and no other changes, it is a hit or a miss by what the map held, and the effect on cache and memory is the specified one |
| ExpertCaching.ExpertCache.PrefetchExpert | src/expert_cache.cpp:122-226 | A whole call, whatever is loading: a present expert is touched, an absent one loaded without a pin; the id's record has one access more and no other changes, neither hits nor misses move; false exactly if the mapping failed |
| ExpertCaching.ExpertCache.Destroy | src/expert_cache.cpp:13-25 | Gives back exactly the resident bytes on both counters and unmaps exactly the addresses of the mapped entries, skipping failed ones |
| Eviction.VictimIsCandidate | src/expert_cache.cpp:264-376 | Whatever the policy, a victim is loaded, unpinned, unwaited and outside the hotset |
| Eviction.EvictionBound | src/expert_cache.cpp:228-387 | After the loop occupancy <= max(budget, hotset limit + bytes of pinned or waited entries) (plus what others hold), for every policy and every mixture of policies |
| Eviction.NoCandidateBound | src/expert_cache.cpp:379-383 | If the loop stops over budget, everything resident is hot, pinned or waited for |
| Eviction.EvictionFrame | src/expert_cache.cpp:228-401 | Every entry is untouched by the loop or was evictable when it started |
| Eviction.EvictionCounts | src/expert_cache.cpp:228-401 | Evicting is neither hit nor miss |
| Eviction.OverBudgetUntilTheEnd | src/expert_cache.cpp:231 | Before each eviction the cache was over budget |
| Eviction.LruEvictsShortestRun | src/expert_cache.cpp:263-276 | With the hotset off, repeating the LRU scan evicts exactly the shortest sufficient run of evictable ids in least-recently-used order |
| Eviction.LruVictimLeastRecentlyTouched | src/expert_cache.cpp:263-276 | The LRU victim's latest touch is older than every other candidate's |
| Eviction.GreedyFits | src/expert_cache.cpp:250-259 | The hotset consists of resident experts and their sizes fit the limit |
| EvictionLaws.VictimMayGo | src/expert_cache.cpp:264-376 | Under every policy a victim is in the map, loaded, with no pins and no waiters, and outside the hotset |
| EvictionLaws.StopsOnlyWhenNothingCanGo | src/expert_cache.cpp:379-383 | A run of the loop that ends over budget leaves no loaded entry without pins and waiters outside its last hotset |
| EvictionLaws.HotsetStopsAtLimit | src/expert_cache.cpp:250-259 | The first expert of the order that is not protected would, with those before it, exceed the limit |
| EvictionLaws.LrukLaw | src/expert_cache.cpp:277-307 | In terms of the access log: an expert accessed once goes before any accessed more often (unless that one's window reaches back 2^64 - 1 ns); of two accessed more often, the one whose fifth-last access, or first if there are fewer than five, is not the later one |
| EvictionLaws.HybridLaw | src/expert_cache.cpp:352-377 | For the victim v and any candidate x: accesses(v) * (1 + 0.1 * age(x)) <= accesses(x) * (1 + 0.1 * age(v)), accesses mod 2^32 and ages in seconds taken from the access log |
| EvictionLaws.ArcLaw | src/expert_cache.cpp:308-351 | If the experts accessed less than twice (counts mod 2^32 taken from the access log) hold more bytes than the target, one of those goes whenever one can, otherwise one accessed more often; and of the experts on its side the victim is the one touched longest ago |
| Hotset.HotsetClosedUpwards | src/expert_cache.cpp:247-259 | The hotset is closed under higher frequency and within hot_limit |
| Hotset.RankedUnique | src/expert_cache.cpp:247-249 | A fixed order of ties determines the sort completely |
| Hotset.HotsetIsStable | src/expert_cache.cpp:237-260 | Under a fixed order of ties the hotset only grows while the loop runs: nothing protected when it starts is evicted by it |
| Hotset.OpenTiesMayEvictProtected | src/expert_cache.cpp:247-249 | A concrete well-formed cache, one expert's budget and a hotset limit within it: two passes that order equal counts differently, the second evicting what the first protected |
| HotsetTies.DistinctCountsKeepHotset | src/expert_cache.cpp:240-260 | If no two resident experts have the same access count, no outcome of the sort, no sizes and no policy make the loop evict what its first pass protects |
| HotsetTies.PositionBounds | src/expert_cache.cpp:247-249 | An expert's place in any outcome of the sort is at least the number accessed more often and below the number accessed at least as often |
| HotsetTies.UncutTiesKeepHotset | src/expert_cache.cpp:240-260 | For experts of one size: if the end of the hotset cuts no class of equal counts, nothing protected by the first pass is evicted, under every policy and outcome of the sort |
| HotsetBoundary.ExposedCanGo | src/expert_cache.cpp:237-276 | Constructs the run: ties least recent first in the first pass and most recent first later evict the least recent expert of the cut class, which the first pass protects |
| HotsetBoundary.ProtectedMayGoIff | src/expert_cache.cpp:231-276 | Quiet cache, one size, LRU, limit within the budget: some outcome of the sort lets the loop evict what its first pass protects if and only if a class of equal counts is cut, at least two evictions are due and more than there are unprotected experts behind that class's least recent member, and the class has a spare member or an unprotected expert less recent than one of it |
| CacheSafety.StepKeepsInv | src/expert_cache.cpp:45-226 | Every atomic step of any number of threads keeps the invariant that ties pin counts, wait counts, loaded flags, mappings and counters to the threads' states |
| CacheSafety.GetKeepsInv | src/expert_cache.cpp:45-84 | Entering get_and_pin keeps it on all three branches |
| CacheSafety.FinishKeepsInv | src/expert_cache.cpp:95-109 | Publishing, notifying and evicting in one section, with the loader's entry still under its id |
| CacheSafety.WakeKeepsInv | src/expert_cache.cpp:65-71 | A woken waiter finds the object it waited for |
| CacheSafety.UnpinKeepsInv | src/expert_cache.cpp:114-120 | An unpin by an owner takes the pin off the entry it was put on |
| CacheSafety.OnlyLoader | src/expert_cache.cpp:78-87 | No id is loaded by two threads at once |
| CacheProtocol.EvictableUnreferenced | src/expert_cache.cpp:267-270 | An entry that passes the eviction guard is referred to by no thread, as owner, waiter or loader |
| CacheProtocol.EvictionKeepsCore | src/expert_cache.cpp:228-401 | A whole eviction run leaves every thread's entries and mappings in place |
| CacheTheorems.RunKeepsInv | src/expert_cache.cpp:45-226 | The invariant holds in every reachable state |
| CacheTheorems.EntriesInUseStay | src/expert_cache.cpp:45-120 | In every interleaving an entry some thread loads, awaits or holds a pin on is in the map under its own id, as the same object, and an owner's pointer is null or a live mapping of expert size bytes at offset id * expert size (mod 2^64) |
| CacheTheorems.PinOutlivesEverythingElse | src/expert_cache.cpp:114-120 | While a thread has made fewer unpins of a handle than it holds pins, the handle stays good whatever all others do |
| CacheTheorems.EntryHasSingleLoader | src/expert_cache.cpp:78-106 | A pending entry has exactly one loader in flight, a loaded one none |
| CacheTheorems.NoLostWakeUps | src/expert_cache.cpp:62-72 | In every reachable state sleepers wait for entries whose loader is still to come; a waiter whose entry is loaded has been notified |
| CacheTheorems.CountersBalance | src/expert_cache.cpp:45-112 | After any run: occupancy = bytes of loaded mapped entries, RAM = base + occupancy + loads in flight, entries created = resident + evicted, hits + misses = get_and_pin calls |
| AccessLog.RecordsAreCalls | src/expert_cache.cpp:32-49 | In every interleaving the access log is, in order, exactly the get_and_pin and prefetch_expert calls made, and each count is the number of those calls for its expert mod 2^32 |
| AccessLog.StepTouches | src/expert_cache.cpp:27-30 | A step moves an expert to the front of the list exactly if it is a hit, a new load, a prefetch or a served wait |
| AccessLog.RecencyIsUse | src/expert_cache.cpp:27-30 | In every interleaving the list holds each resident expert once, in order of latest use in that sense |
| AccessLog.MappedRegionsAreApart | src/memory_manager.cpp:251-295 | If the file of n experts has at most 2^64 bytes, mapped experts below n show their own stretch of it, and the stretches of different experts do not overlap |
| AccessLog.PeakIsHighestRam | src/memory_manager.cpp:19-28 | Whenever no thread is between mapping and recording, the recorded peak is the most RAM that was in use in any state of the run |
| CacheLiveness.EvictionCanFinish | src/expert_cache.cpp:228-387 | From every state the eviction loop has a run that ends, so a mapped load can always publish |
| CacheLiveness.LoaderCanMove | src/expert_cache.cpp:84-109 | A loader is never blocked, whatever the others do |
| CacheLiveness.HelperStep | src/expert_cache.cpp:65-106 | Each step of the thread a waiter depends on brings it strictly closer to being served |
| CacheLiveness.EveryWaiterIsServed | src/expert_cache.cpp:61-72 | In every fair infinite behaviour each waiter eventually gets its pin, on the very entry object it waited for |
| MemoryBound.MemoryNeverExceeds | src/expert_cache.cpp:83-109 | For N threads and at most P pinned or waited entries of size S, RAM and recorded peak never exceed base + max(budget, hotset limit + P*S) + N*S over any run |
| MemoryBound.BusyCountByClaims | src/expert_cache.cpp:57-69 | The busy entries are at most the pins held plus the threads waiting |
| MemoryBound.BenchmarkMemoryBound | src/benchmark.cpp:160-242 | Compute loop and prefetch thread stay within base + max(budget, hotset limit + 2*S) + 2*S |
| MemoryBound.BudgetAloneIsExceeded | src/main.cpp:457 | A concrete four-step run of a getter and a prefetcher with room for one expert exceeds the reported bound by the budget alone |
| BudgetCondition.RamByEntries | src/expert_cache.cpp:78-104 | In every reachable state RAM is at most base + one expert per entry, pending ones included, however many threads load |
| BudgetCondition.ExpertsBound | src/expert_cache.cpp:45-226 | Threads that ask only for experts below n never use more than base + n experts, RAM and peak |
| BudgetCondition.MapsBeforeEvicting | src/expert_cache.cpp:87-109 | One thread alone maps expert k while k - 1 experts fill the budget |
| BudgetCondition.BudgetSufficesIff | src/expert_cache.cpp:83-109 | Every run over experts below n keeps RAM and peak within base + budget if and only if n * expert size <= budget |
| BudgetCondition.StrictlyBelowIff | src/main.cpp:457 | Every such run keeps them strictly below base + budget, as reported, if and only if n * expert size < budget |
| FillingRuns.MemoryBoundIsAttained | src/expert_cache.cpp:83-109 | The bound of MemoryNeverExceeds is reached: with a budget of exactly q experts that leaves room for hotset and busy entries, N threads have base + budget + N*S mapped in some run with at most P busy entries |
| CrowdedRuns.CrowdedBoundIsAttained | src/expert_cache.cpp:83-109 | The bound's other branch is reached: with a hotset limit of exactly h experts and a budget no larger than hotset limit and busy entries together, N threads have base + hotset limit + P*S + N*S mapped in some run with at most P busy entries |
| Conservation.RamIsWhatIsMapped | src/memory_manager.cpp:251-310 | In every reachable state RAM = base + the bytes of all mappings the operating system has live for experts |
| Conservation.EveryMappingHasOneOwner | src/expert_cache.cpp:86-104 | In every reachable state each live mapping belongs to the loaded entry of its expert and to no thread, or to exactly one thread in flight and no entry |
| Conservation.QuietCacheAccountsForAll | src/expert_cache.cpp:13-25 | Once all calls have returned, every entry is loaded, the mapped bytes are the resident bytes, and giving those back restores both counters to their values at construction |
| Conservation.DestructionLeavesNothing | src/expert_cache.cpp:13-25 | Destroying the cache once all calls have returned leaves no live mapping |
| SequentialUse.GetLeavesLoaded | src/expert_cache.cpp:100-109 | A get on a cache with nothing loading leaves it so |
| SequentialUse.GetLeavesEntry | src/expert_cache.cpp:53-111 | A get leaves its own entry resident, loaded and with one more pin, its own evictions notwithstanding, showing the mapping it had or the one just made |
| SequentialUse.GetIsOneCall | src/expert_cache.cpp:45-112 | A whole get, its evictions included, adds one access to its own record and to no other, and one hit or one miss by whether the expert was there and loaded |
| SequentialUse.PrefetchIsOneCall | src/expert_cache.cpp:122-226 | A whole prefetch adds one access to its own record and to no other, and neither hit nor miss |
| SequentialAccounting.GetSettles | src/expert_cache.cpp:87-109 | A whole get moves both counters by exactly the change of resident bytes |
| SequentialAccounting.PrefetchSettles | src/expert_cache.cpp:168-223 | A whole prefetch moves both counters by exactly the change of resident bytes |
| SequentialAccounting.LayersSettle | src/benchmark.cpp:160-232 | Every run of the compute loop moves both counters by exactly the change of resident bytes |
| SequentialAccounting.LayersCount | src/benchmark.cpp:181-182 | Every position is two hits or misses |
| SequentialAccounting.CallsSettle | src/prefetch_thread.cpp:80-94 | Any sequence of prefetches settles and is neither hit nor miss |
| LruStack.GetKeepsStack | src/expert_cache.cpp:53-109 | One get keeps the resident list equal to the first C ids of the unbounded list, is a hit exactly if the id is among them, and adds one pin |
| LruStack.EvictionTrims | src/expert_cache.cpp:263-276 | With at most the two front entries pinned the loop drops exactly the last id, or nothing |
| LruStack.StackProperty | src/expert_cache.cpp:27-30 | For every trace of the compute loop (uniform size, LRU, hotset off, maps succeeding, budget of C >= 2 experts) the resident list is the length-C prefix of the unbounded cache's list, and the hit count follows from it |
| LruStack.LargerBudgetNeverHitsLess | src/expert_cache.cpp:263-276 | A larger budget never gives fewer hits on any trace |
| LruStack.BudgetOfOneOverflows | src/benchmark.cpp:181-182 | With a budget of one expert a first layer agrees with the stack exactly if its two targets are equal |
| LruStack.OnStackThroughoutIff | src/benchmark.cpp:160-232 | Over whole runs: the resident list is the unbounded list's prefix after every layer if and only if the budget has room for both experts of every layer, that is for two, or for one and every layer asks twice for the same |
| MemoryManagement.MemoryManager.TrackAllocation | src/memory_manager.cpp:19-28 | Run alone, adds to the usage and leaves the peak the maximum of itself and the new usage, however often the weak exchange fails |
| MemoryManagement.MemoryManager.TrackDeallocation | src/memory_manager.cpp:30-32 | Subtracts, peak untouched |
| MemoryManagement.MemoryManager.InitWeightsFile | src/memory_manager.cpp:192-249 | Sets the expert size in any case; the file is open exactly if it succeeds |
| MemoryManagement.MemoryManager.CloseWeightsFile | src/memory_manager.cpp:312-330 | Clears the weights-file fields and nothing else |
| MemoryManagement.MemoryManager.MapExpert | src/memory_manager.cpp:251-295 | The size is reported even on failure; a failure changes nothing; a success maps expert size bytes at offset id * size mod 2^64, at an unused address, adds the size to the usage and raises the peak |
| MemoryManagement.MemoryManager.UnmapExpert | src/memory_manager.cpp:297-310 | A null pointer changes nothing; otherwise the mapping goes and the usage drops by the size |
| MemoryManagement.MemoryManager.AddCacheOccupancy | src/memory_manager.h:72-74 | Adds to the occupancy alone |
| MemoryManagement.MemoryManager.SubCacheOccupancy | src/memory_manager.h:75-77 | Subtracts from the occupancy alone |
| MemoryManagement.MemoryManager.ResetPeakTracker | src/memory_manager.h:79-81 | The peak becomes the present usage |
| PeakTracker.PeakIsExact | src/memory_manager.cpp:19-32 | For any number of concurrent allocations and deallocations, with resets as a load and a later store that no allocation overlaps (deallocations may): the peak is always a value the usage took since the last reset, and equals the maximum since then once no allocation is in progress |
| PeakTracker.PeakIsMonotone | src/memory_manager.cpp:21-27 | Between resets the peak never decreases |
| PeakTracker.LoopIsAtomicMaximum | src/memory_manager.cpp:22-27 | The loop acts like one atomic peak := max(peak, current) |
| PeakTracker.RacingResetForgetsPeak | src/memory_manager.h:79-81 | From every quiescent state an allocation of any size between a reset's load and its store is lost: all idle, the peak below the present usage |
| PeakTracker.StaleAllocationOverstates | src/memory_manager.h:79-81 | An allocation already under way when the reset loads can make the peak a value the usage has not taken since |
| PeakTracker.ResetIsExactIff | src/memory_manager.h:79-81 | In any state where a reset is about to store: from then on the peak is the maximum whenever all are idle, if and only if every usage taken since its load is at most the loaded value or still going to be written, and nothing higher is going to be written |
| Bits.WrapThenMask | src/lockfree_queue.h:97 | For a positive power-of-two capacity below 2^64, masking a wrapped counter is the remainder of the true counter |
| Bits.PowerOfTwoTest | src/lockfree_queue.h:70 | The compile-time assertion c & (c - 1) == 0 admits only powers of two among positive capacities |
| SpscQueue.LockFreeSPSCQueue.Push | src/lockfree_queue.h:89-107 | Appends unless Capacity items are in flight, and refuses only then |
| SpscQueue.LockFreeSPSCQueue.Pop | src/lockfree_queue.h:114-130 | Removes the oldest item unless there is none; a refusal leaves the caller's item as it was |
| SpscQueue.StepKeepsInv | src/lockfree_queue.h:89-130 | Every single load, check, slot access and store keeps the ring invariant |
| SpscQueue.EveryRunIsFifo | src/lockfree_queue.h:89-130 | In every interleaving, with stale loads and counters wrapped any number of times: popped is a prefix of pushed, at most Capacity in flight, wrapped difference and mask agree with the true counters |
| SpscQueue.StepRefinesFifo | src/lockfree_queue.h:89-130 | Each step is a step of an unbounded FIFO: enqueue exactly at the head store, dequeue exactly at the tail store, else nothing |
| SpscQueue.RefusalsAreJustified | src/lockfree_queue.h:93-95 | Full and empty answers were true when the other side's counter was loaded |
| SpscQueue.NoOverwriteNoRace | src/lockfree_queue.h:97-98 | A write never touches a slot with an unread item nor the slot being read |
| Prediction.GetRoutedExperts | src/benchmark.cpp:13-48 | Fills both targets with the compute loop's expressions in the deterministic scenarios; otherwise with the draws, two equal draws a, a becoming a, (a + 1) mod numExperts, never out of range if the draws are not |
| Prediction.GenerateCandidates | src/router_thread.cpp:249-278 | The candidate loops fill the array with the specified candidates, 32-bit arithmetic included |
| Prediction.TargetPlain | src/benchmark.cpp:13-48 | 32-bit wrap-around never shows in the targets: they are (2 * layer + k) mod 4 and (2 * position + k) mod numExperts |
| Prediction.CandidatePlain | src/router_thread.cpp:249-258 | Nor in the candidates, for two, four and eight of them: (layer * n + k) mod 4 and (position * n + k) mod numExperts |
| Prediction.DedupFromDraws | src/router_thread.cpp:265-277 | The repair keeps distinct draws as they are, makes a, (a + 1) mod numExperts of two equal ones, and keeps every candidate a valid expert |
| Prediction.FixDuplicates | src/router_thread.cpp:271-277 | The nested in-place loop computes the repair function and leaves the rest of the array alone |
| Prediction.PredictionEqualsDemand | src/router_thread.cpp:249-258 | With two candidates the router's formula, with its candidate count and wrapping product, gives exactly the compute loop's two expressions |
| Prediction.HighReuseCycles | src/router_thread.cpp:251 | With four or eight candidates the high-reuse candidates cycle through the first four experts on every layer, wrapped product or not |
| Prediction.HighReuseCovers | src/router_thread.cpp:249-253 | With four or eight candidates each of the two targets is among the high-reuse candidates |
| Prediction.ChurnCoverage | src/router_thread.cpp:254-258 | With n candidates churn covers both targets exactly if there are at most n experts or the lag -(n-2)*flat mod experts is at most n - 2 |
| Prediction.ChurnCoversRunIff | src/router_thread.cpp:254-258 | Over a run of at least numExperts positions, n candidates cover churn's demand everywhere if and only if numExperts <= n or numExperts - gcd(n - 2, numExperts) <= n - 2 |
| Prediction.LagAttained | src/router_thread.cpp:256 | The largest lag, numExperts - gcd(n - 2, numExperts), occurs within the first numExperts positions |
| Prediction.EightCandidatesMiss | src/router_thread.cpp:256 | A concrete uncovered position with eight candidates and 256 experts |
| Prediction.TwoCandidatesDistinct | src/router_thread.cpp:271-277 | For two candidates the repair makes them distinct exactly if they were, or there are at least two experts |
| Prediction.FourCandidatesMayCollide | src/router_thread.cpp:271-277 | A concrete draw of four that the repair leaves with a duplicate |
| Prediction.RepairWorksIff | src/router_thread.cpp:271-277 | With at least two experts the repair makes every draw of n candidates pairwise distinct if and only if n <= 2 |
| Prediction.RepairOfOneExpert | src/router_thread.cpp:271-277 | With one expert if and only if n <= 1 |
| Routing.SpeculativePosition | src/router_thread.cpp:303-307 | A speculative message names exactly its source position plus the window if and only if neither 32-bit sum wraps, never a later one, always an existing layer |
| Routing.MessageCovers | src/router_thread.cpp:249-258 | A firm message lists both experts its position will need wherever enough candidates are sent |
| Routing.FlatInjective | src/router_thread.cpp:132-133 | Row-major positions name token and layer uniquely |
| Routing.StreamFirm | src/router_thread.cpp:286 | Pushing the prediction for the next position extends the gap-free stream |
| Routing.StreamCopy | src/router_thread.cpp:303-314 | Pushing a speculative copy right after its source keeps it one |
| Routing.StreamPrefix | src/prefetch_thread.cpp:48-102 | A prefix of a stream is a stream |
| Routing.CandidatesAreGood | src/router_thread.cpp:249-278 | The candidates made for a position are those of its scenario, and in the random scenarios come from the draws in that way |
| Routers.RouterThread.Predict | src/router_thread.cpp:235-278 | The message made is the firm prediction for the cursor's position; in the random scenarios its candidates are the draws, repaired if two are equal |
| Routers.RouterThread.PushRetrying | src/router_thread.cpp:286-298 | Ends with the message in the ring once, or without it after a stop, the ring having been full at the last try |
| Routers.RouterThread.PushSpeculative | src/router_thread.cpp:301-315 | Appends the speculative copy exactly if the ring has room |
| Routers.RouterThread.AdvanceCursor | src/router_thread.cpp:318-322 | The position grows by exactly one and stays a valid one |
| Routers.RouterThread.Send | src/router_thread.cpp:235-315 | The ring receives exactly the cursor's message, made from the draws of this turn, or a stop was seen with the ring full; then its copy over the window of the turn it went in, if window and flag, read again, say so and there is room |
| Routers.RouterThread.Iterate | src/router_thread.cpp:123-323 | One iteration: waits exactly if the check says so, else sends one firm message, and the copy if a window is set, the flag still up and there is room |
| Routers.RouterThread.Run | src/router_thread.cpp:117-324 | The whole loop, for every sequence of observations: the ring receives a gap-free row-major stream with copies in between; each firm message was admitted by the check of its own turn, made from that turn's draws, pushed in that turn or a later one, and before the next one's check; each copy uses the window of the turn its source was pushed in; unstopped, it ends with all positions sent |
| Pipeline.StepKeepsInv | src/router_thread.cpp:117-324 | Every step of compute loop, router, ring and prefetch thread keeps the pipeline invariant |
| Pipeline.WordsAgainstProgress | src/benchmark.cpp:163-164 | The two progress words, read at once, overstate the position only between the two stores at a new token's first layer, and then by exactly numLayers - 1 |
| Pipeline.PairRead | src/router_thread.cpp:129-132 | A pair read token first, layer later, overstates the position (given two layers) if and only if it is a new token with the left-over layer, and then by at most numLayers - 1 |
| PipelineTheorems.LookaheadBound | src/router_thread.cpp:129-152 | In every interleaving a firm prediction at r is published only if r < progress + depth + numLayers - 1, and r < progress + depth unless its check read a new token with a left-over layer |
| PipelineTheorems.PublishedBound | src/router_thread.cpp:139 | At all times the number of firm messages obeys the same bounds with the largest depth used, the sharper one as long as no passing check had a torn pair |
| TornRead.BoundIsAttained | src/benchmark.cpp:163-164 | For every depth, layer count and ring that holds a message (enough tokens) some run publishes at exactly progress + depth + numLayers - 2, so the bound is tight and the one without the torn term false |
| TornRead.RunsAheadIff | src/router_thread.cpp:129-139 | For every ring that holds a message: some run with all checks at one depth publishes at or beyond progress + depth if and only if there are at least two layers and more than depth positions after the first token |
| PipelineTheorems.DeliveredInOrder | src/prefetch_thread.cpp:48-102 | In every run, stopped anywhere, the firm messages popped are the first positions in row-major order without gap or duplicate, and each speculative one is the copy of the firm one before it |
| PipelineTheorems.MessagesFollowDraws | src/router_thread.cpp:249-286 | In every interleaving firm message i carries the candidates made for position i from the draws made there: kept if distinct, repaired if two are equal, never out of range |
| PipelineTheorems.UnstoppedRouterPublishesAll | src/router_thread.cpp:123-126 | A router never stopped publishes every position before it ends |
| PipelineTheorems.NothingAfterGivingUp | src/router_thread.cpp:286-302 | A message given up because of a stop during the retry is never followed by another |
| PipelineLiveness.RouterEnds | src/router_thread.cpp:123-323 | In every fair infinite behaviour without a stop, with checks at depths of at least one and any ring that holds a message, the router ends, having published every position |
| PipelineLiveness.DepthZeroNeverEnds | src/router_thread.cpp:139 | With all checks at depth zero no unstopped router ends in any run, and the last position is never published |
| PipelineLiveness.Leads | src/router_thread.cpp:123-323 | A measure that one process lowers and nobody raises is worked off under weak fairness |
| PipelineLiveness.StoppedRouterWindsDown | src/router_thread.cpp:102-109 | Once its flag is down each of the router's own steps brings it closer to its end and nobody delays it: at most fifteen steps for the join, whatever the ring holds |
| PipelineLiveness.RouterCanMove | src/router_thread.cpp:123-323 | Until it has ended the router always has a step |
| PipelineLiveness.StoppedPrefetcherWindsDown | src/prefetch_thread.cpp:26-33 | A stopped prefetch thread finishes the message in hand in boundedly many of its own steps |
| PipelineLiveness.PrefetcherCanMove | src/prefetch_thread.cpp:48-102 | Until then it always has a step |
| PipelineTheorems.PrefetchCoversDemand | src/prefetch_thread.cpp:80-94 | Wherever enough candidates are sent, the prefetch thread has asked for both experts of every position it has worked through |
| PipelineTheorems.CallsFollowMessages | src/prefetch_thread.cpp:80-94 | Its calls are, in order, the candidates of the messages it popped |
| Prefetching.PrefetchThread.PrefetchAll | src/prefetch_thread.cpp:80-94 | Prefetches every candidate of a message in order |
| Prefetching.PrefetchThread.Turn | src/prefetch_thread.cpp:51-101 | Pops one message if there is one, prefetches exactly its candidates, counts it |
| Prefetching.PrefetchThread.Run | src/prefetch_thread.cpp:48-102 | Until a turn finds the flag down, the cache is asked, in order, for the candidates of exactly the messages popped, with the specified effect on cache and memory, whatever else is loading |
| AdaptiveLookahead.AdaptiveLookaheadController.UpdateMetrics | src/router_thread.h:49-71 | The depth becomes one of 4, 8, 16, 32, above 4, 8 and 16 exactly from miss rates of 0.05, 0.20 and 0.40 on; after any updates the maximum is that of 4 and the history, transitions the number of changes in it, sum and count those of the updates |
| AdaptiveLookahead.AdaptiveLookaheadController.GetAvgDepth | src/router_thread.h:76 | The average is sum over count, and between 4 and the maximum |
| AdaptiveLookahead.AdaptiveLookaheadController.Reset | src/router_thread.h:78-84 | Back to the initial summary |
| AdaptiveLookahead.AverageBounds | src/router_thread.h:69-76 | The recorded sum lies between 4 and the maximum times the number of updates |
| AdaptiveLookahead.HigherRatesDeeper | src/router_thread.h:49-71 | Over any history, miss rates that are nowhere lower give depths that are nowhere smaller, and no smaller sum |
| Benchmarking.Benchmark.ComputePosition | src/benchmark.cpp:162-225 | Stores the progress, asks for exactly the two experts of the position and charges its misses |
| Benchmarking.Benchmark.ComputeLayer | src/benchmark.cpp:181-232 | Pins both, unpins both, and leaves the cache as specified with no load pending |
| Benchmarking.Benchmark.ReportMissRate | src/benchmark.cpp:235-240 | One controller update with misses / (hits + misses), or 0 before any query, if and only if the adaptive switch is on |
| Benchmarking.MissRateIsShare | src/benchmark.cpp:236-239 | The rate times hits + misses is the misses, 0 before any query, never above 1; with it the controller looks further ahead than 4 exactly when one query in twenty has missed |
| Benchmarking.Benchmark.ComputeLoop | src/benchmark.cpp:160-242 | The nested loop works through all positions in row-major order, each with its own targets; cache and memory end where that run leads; bytes charged = misses * expert size |
| Benchmarking.Benchmark.WarmUp | src/benchmark.cpp:144-149 | Prefetches experts 0 to 15 in order |
| Benchmarking.Benchmark.RunScenario | src/benchmark.cpp:105-300 | A whole scenario on an empty cache of the configured size: experts 0 to 15 prefetched exactly in the warm scenario, then every position in order with its own two targets under the configured policy; the result has that run's hits, misses, evictions, peak and occupancy; hits + misses = 2 * positions, bytes charged = misses * expert size, and both memory counters end where they began even if mappings fail |
| Benchmarking.SameTrace | src/benchmark.cpp:160-175 | The accesses do not depend on cache size or policy |
| Benchmarking.LargerCacheNeverHitsLess | src/benchmark.cpp:160-232 | A compute loop that starts on a larger empty LRU cache (hotset off, maps succeeding, budget of at least two experts) never gets fewer hits |
| Benchmarking.ScenarioSplit | src/benchmark.cpp:105-300 | What RunScenario yields under LRU without warm-up (hotset off, maps succeeding, counters at zero, room for n >= 2 experts): hits are exactly the accesses found among the n most recently used experts, misses the rest, and those n experts are resident at the end |
| Benchmarking.LargerScenarioNeverHitsLess | src/benchmark.cpp:105-300 | Of two such scenarios with the same routing the one with the larger budget never has fewer hits |
| WeightPacker.Pack | python/weight_packer.py:26-51 | The loop leaves every tensor stored intact at the first 64-byte boundary after its predecessor, zero bytes between, nothing else recorded, running offset = buffer length |
| WeightPacker.ReadBack | python/weight_packer.py:37-51 | Slicing the packed file at a tensor's recorded offset and size returns its bytes, and the offset is aligned |
| WeightPacker.InOrder | python/weight_packer.py:32-45 | Ranges are disjoint and in order; neighbours are less than 64 bytes apart, all zero |
| WeightPacker.PackingUnique | python/weight_packer.py:26-51 | That description leaves no freedom: any two files that meet it have the same metadata and length |

## Left out

- Operating system calls: mapping is a nondeterministic success or failure and a table of live mappings; unmapping is taken to succeed; `advise_prefetch`, locked allocations and `map_file` are not modelled.
- Weak memory: every load and store is one step in a sequentially consistent order. Release and acquire justify this for the ring; the relaxed progress words, flags and counters are assumed to behave so.
- Between a successful map call and the addition to the usage counter the program's counter lags; `CacheProtocol` makes the two one step, and the compare-and-exchange loop on the peak another, which `PeakTracker.LoopIsAtomicMaximum` justifies.
- Mutex and scheduler: a critical section is one step, entered whenever its guard holds; `CacheLiveness.EveryWaiterIsServed` and `PipelineLiveness.RouterEnds` assume that a thread that can move, and keeps being able to, moves eventually.
- Machine width: 64-bit wrap-around is modelled for ring counters, file offsets and (in PeakTracker) usage and peak, 32-bit wrap-around for access counts, candidates and speculative positions. Usage and peak elsewhere, the cache's occupancy, its hit, miss and eviction counters, the controller's transitions, sum and count and the 64-bit flat positions are unbounded integers.
- Unpin without a pin: the program lets the count go negative. `CacheProtocol` assumes that a thread gives back only pins it holds, as the compute loop does; `ExpertCaching.ExpertCache.UnpinExpert` itself is modelled without that assumption.
- ExpertCaching.ExpertCache.GetAndPin: a call that finds its expert being loaded sleeps until other threads have moved; that call is AwaitLoad and FinishWaiting here, and whole in CacheProtocol. Other threads' steps between the sections of one call are CacheProtocol's subject too.
- ExpertCaching.ExpertCache.PrefetchExpert: other threads' steps between its two sections are CacheProtocol's subject.
- ExpertCaching.ExpertCache.HybridScan: scores are real numbers, so rounding and ties of double arithmetic are not modelled.
- Prediction.GetRoutedExperts: the random scenarios' draws are parameters; the generator's sequence is not modelled.
- Prediction.GenerateCandidates: likewise, and router and compute loop consume the generator differently, so no agreement is claimed for those scenarios.
- Routers.RouterThread.Run: other threads appear as the values the loop reads and the messages they pop; the thread-level interleaving is Pipeline's subject.
- Prefetching.PrefetchThread.PrefetchAll: other threads' cache steps between its calls are CacheProtocol's subject.
- Prefetching.PrefetchThread.Turn: likewise.
- Prefetching.PrefetchThread.Run: likewise; the router appears as the messages that arrive.
- Benchmarking.Benchmark.ComputeLayer: stated for one thread; with the prefetch thread beside it, CacheTheorems and MemoryBound say what it can rely on.
- Benchmarking.Benchmark.ComputePosition: likewise.
- Benchmarking.Benchmark.ComputeLoop: likewise.
- Benchmarking.Benchmark.RunScenario: stated without the router and prefetch threads beside it; `CacheTheorems`, `MemoryBound` and `Pipeline` cover them together.
- PeakTracker.PeakIsExact: one thread resets at a time, as the benchmark does.
- Routing and Pipeline require at least one layer: with none the router would send positions that no layer has, and a speculative window would divide by zero.
- The hotset limit is a number of bytes, not a ratio.
- Object lifetime: an evicted entry is unreachable from the map; `delete` itself is not modelled. Entry identity is the object number in the protocol.
- `resetMetrics`, event logging, timestamps, confidence scores, bandwidth, reports, tensor shapes in the packer's metadata, and reading the mapped floats.
- Queue `size` and `empty`, yield strategies, wait-on-address: estimates and stuttering steps.
- HotsetBoundary.ProtectedMayGoIff: exact for LRU on a quiet cache of one size; for the other policies HotsetTies has the protecting direction alone.
- Restarting a router after a stop; the machine's stop is final.
- ONNX routing, `real_inference.cpp`, `inference_api.cpp`, the visualizer and the Python model scripts: they do not decide which experts are resident.
