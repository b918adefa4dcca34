/** How much memory the system can use: over whole runs, for any number of threads, and for the two
    threads of the benchmark. The cache maps before it evicts, so the bound is the budget plus the
    loads in flight, not the budget alone. */
module MemoryBound {
  import opened Sums
  import opened CacheModel
  import opened Eviction
  import opened CacheProtocol
  import opened CacheSafety
  import opened CacheTheorems

  function BusyOne(): (Id, Entry) -> int {
    (id: Id, e: Entry) => if e.pins != 0 || e.waits != 0 then 1 else 0
  }

  /** Number of entries pinned or waited for. */
  ghost function BusyCount(c: Cache): int {
    Sum(c.entries, BusyOne())
  }

  /** Most the published mappings can occupy when at most `p` entries are busy. */
  function OccupancyBound(cfg: Config, max: nat, p: nat): int {
    MaxOf(max, cfg.hotLimit + cfg.expertSize * p)
  }

  /** Most RAM `n` threads can have in use. */
  function RamBound(cfg: Config, max: nat, p: nat, n: nat): int {
    cfg.baseRam + OccupancyBound(cfg, max, p) + cfg.expertSize * n
  }

  ghost predicate Bounded(cfg: Config, s: State, p: nat) {
    var b := RamBound(cfg, s.cache.max, p, |s.threads|);
    && s.mem.occupancy <= OccupancyBound(cfg, s.cache.max, p)
    && s.mem.ram <= b && PeakWithin(s, b)
  }

  /** The peak and the values on their way to it. */
  ghost predicate PeakWithin(s: State, b: int) {
    && s.mem.peak <= b
    && forall i :: 0 <= i < |s.threads| && s.threads[i].pc.Tracking? ==> s.threads[i].pc.current <= b
  }

  lemma FlightBound(cfg: Config, threads: seq<Thread>)
    ensures Total(threads, FlightWeight(cfg.expertSize)) <= cfg.expertSize * |threads|
  {
    TotalBound(threads, FlightWeight(cfg.expertSize), cfg.expertSize);
  }

  lemma BusyBytesBound(cfg: Config, s: State, p: nat)
    requires Inv(cfg, s) && BusyCount(s.cache) <= p
    ensures BusyBytes(s.cache) <= cfg.expertSize * p
  {
    hide WellFormed, MemoryOk, ThreadsOk;
    var zero := (id: Id, e: Entry) => 0;
    forall id | id in s.cache.entries
      ensures BusyWeight()(id, s.cache.entries[id])
           <= zero(id, s.cache.entries[id]) + cfg.expertSize * BusyOne()(id, s.cache.entries[id])
    {
      assert EntryOk(cfg, s.mem, s.threads, id, s.cache.entries[id]);
    }
    SumLinearBound(s.cache.entries, BusyWeight(), zero, BusyOne(), cfg.expertSize);
    SumOfZero(s.cache.entries, zero);
    ScaleUp(cfg.expertSize, BusyCount(s.cache), p);
  }

  /** Publishing keeps the occupancy equal to the resident bytes, before the eviction starts. */
  lemma PublishedOccupancy(cfg: Config, s: State, i: nat)
    requires Inv(cfg, s) && i < |s.threads| && s.threads[i].pc.Mapped?
    requires s.threads[i].pc.id in s.cache.entries
    ensures PublishedMem(cfg, s, i).occupancy == ResidentBytes(PublishedCache(cfg, s, i))
  {
    hide WellFormed, EntriesOk, ThreadsOk;
    var pc := s.threads[i].pc;
    PcIsCurrent(cfg, s.cache.entries, s.mem, s.threads, i);
    ResidentMoves(s.cache, PublishedCache(cfg, s, i), pc.id, PublishedCache(cfg, s, i).entries[pc.id]);
  }

  /** After a finished load the occupancy is within max(budget, hotset limit + busy bytes). */
  lemma FinishBound(cfg: Config, s: State, i: nat, run: seq<Eviction>, halt: Pass, p: nat)
    requires Inv(cfg, s) && Enabled(cfg, s, Finish(i, run, halt))
    requires BusyCount(NextFinish(cfg, s, i, run).cache) <= p
    ensures NextFinish(cfg, s, i, run).mem.occupancy <= OccupancyBound(cfg, s.cache.max, p)
  {
    hide WellFormed, EntriesOk, ThreadsOk, MemoryOk;
    FinishKeepsInv(cfg, s, i, run, halt);
    PublishedOccupancy(cfg, s, i);
    EvictionBound(PublishedCache(cfg, s, i), PublishedMem(cfg, s, i), run, halt);
    BusyBytesBound(cfg, NextFinish(cfg, s, i, run), p);
  }

  lemma RamFollows(cfg: Config, s: State, p: nat)
    requires Inv(cfg, s) && s.mem.occupancy <= OccupancyBound(cfg, s.cache.max, p)
    ensures s.mem.ram <= RamBound(cfg, s.cache.max, p, |s.threads|)
  {
    hide WellFormed, EntriesOk, ThreadsOk;
    FlightBound(cfg, s.threads);
  }

  lemma OtherStepsKeepOccupancy(cfg: Config, s: State, a: Action)
    requires Enabled(cfg, s, a) && !a.Finish?
    ensures Next(cfg, s, a).mem.occupancy == s.mem.occupancy
  {
  }

  lemma EvictionKeepsPeak(c: Cache, m: Mem, run: seq<Eviction>)
    ensures AfterMem(c, m, run).peak == m.peak
    decreases |run|
  {
    if run != [] { EvictionKeepsPeak(EvictCache(c, run[0]), EvictMem(c, m, run[0]), run[1..]); }
  }

  /** The peak and the values on their way to it are all RAM figures that were reached. */
  lemma PeakStep(cfg: Config, s: State, a: Action, b: int)
    requires Enabled(cfg, s, a) && PeakWithin(s, b) && Next(cfg, s, a).mem.ram <= b
    ensures PeakWithin(Next(cfg, s, a), b)
  {
    hide EvictionRun, EnterGet, EnterPrefetch;
    match a
    case Finish(i, run, _) =>
      if s.threads[i].pc.id in s.cache.entries {
        EvictionKeepsPeak(PublishedCache(cfg, s, i), PublishedMem(cfg, s, i), run);
      }
    case _ =>
  }

  lemma StepBounded(cfg: Config, s: State, a: Action, p: nat)
    requires Inv(cfg, s) && Enabled(cfg, s, a) && Bounded(cfg, s, p)
    requires BusyCount(Next(cfg, s, a).cache) <= p
    ensures Bounded(cfg, Next(cfg, s, a), p)
  {
    hide Inv, Next, Enabled, OccupancyBound, RamBound, PeakWithin;
    var s' := Next(cfg, s, a);
    StepKeepsInv(cfg, s, a);
    StepCounts(cfg, s, a);
    assert s'.mem.occupancy <= OccupancyBound(cfg, s.cache.max, p) by { StepOccupancy(cfg, s, a, p); }
    RamFollows(cfg, s', p);
    SameThreads(cfg, s, a);
    PeakStep(cfg, s, a, RamBound(cfg, s.cache.max, p, |s.threads|));
  }

  lemma SameThreads(cfg: Config, s: State, a: Action)
    requires Enabled(cfg, s, a)
    ensures |Next(cfg, s, a).threads| == |s.threads|
  {
    hide EvictionRun;
  }

  lemma StepOccupancy(cfg: Config, s: State, a: Action, p: nat)
    requires Inv(cfg, s) && Enabled(cfg, s, a) && Bounded(cfg, s, p)
    requires BusyCount(Next(cfg, s, a).cache) <= p
    ensures Next(cfg, s, a).mem.occupancy <= OccupancyBound(cfg, s.cache.max, p)
  {
    hide Inv, Enabled, OccupancyBound, RamBound, NextFinish;
    match a
    case Finish(i, run, halt) => FinishBound(cfg, s, i, run, halt, p);
    case _ => OtherStepsKeepOccupancy(cfg, s, a);
  }

  /** At most `p` entries are pinned or waited for in every state of the run. */
  ghost predicate BusyThroughout(cfg: Config, s: State, actions: seq<Action>, p: nat)
    requires Legal(cfg, s, actions)
    decreases |actions|
  {
    && BusyCount(s.cache) <= p
    && (actions != [] ==> BusyThroughout(cfg, Next(cfg, s, actions[0]), actions[1..], p))
  }

  lemma {:induction false} RunBounded(cfg: Config, s: State, actions: seq<Action>, p: nat)
    requires Inv(cfg, s) && Bounded(cfg, s, p) && Legal(cfg, s, actions)
    requires BusyThroughout(cfg, s, actions, p)
    ensures Bounded(cfg, Run(cfg, s, actions), p)
    decreases |actions|
  {
    hide Inv, Enabled, Next, Bounded;
    if actions != [] {
      var s' := Next(cfg, s, actions[0]);
      StepKeepsInv(cfg, s, actions[0]);
      StepBounded(cfg, s, actions[0], p);
      RunBounded(cfg, s', actions[1..], p);
    }
  }

  lemma InitBounded(cfg: Config, s: State, p: nat)
    requires Init(cfg, s)
    ensures Bounded(cfg, s, p)
  {
    ScaleUp(cfg.expertSize, 0, |s.threads|);
  }

  /** With N threads, at most P entries pinned or waited for at a time, and experts of size S, the RAM
      in use and its recorded peak never exceed base + max(budget, hotset limit + P*S) + N*S. */
  lemma MemoryNeverExceeds(cfg: Config, s: State, actions: seq<Action>, p: nat)
    requires Init(cfg, s) && Legal(cfg, s, actions) && BusyThroughout(cfg, s, actions, p)
    ensures var s' := Run(cfg, s, actions);
            var bound := cfg.baseRam + MaxOf(s.cache.max, cfg.hotLimit + cfg.expertSize * p)
                         + cfg.expertSize * |s.threads|;
            s'.mem.ram <= bound && s'.mem.peak <= bound
  {
    hide Inv, Enabled, Next;
    InitInv(cfg, s);
    InitBounded(cfg, s, p);
    RunBounded(cfg, s, actions, p);
    RunCounts(cfg, s, actions);
    RunSameThreads(cfg, s, actions);
  }

  lemma {:induction false} RunSameThreads(cfg: Config, s: State, actions: seq<Action>)
    requires Legal(cfg, s, actions)
    ensures |Run(cfg, s, actions).threads| == |s.threads|
    decreases |actions|
  {
    hide Enabled, Next;
    if actions != [] {
      SameThreads(cfg, s, actions[0]);
      RunSameThreads(cfg, Next(cfg, s, actions[0]), actions[1..]);
    }
  }

  // ----- how many entries the clients can keep busy -----

  /** Entries a thread can keep busy: the pins it holds and the one it may be waiting for. */
  function ClaimWeight(): Thread -> int {
    (t: Thread) => |t.held| + if t.pc.Waiting? then 1 else 0
  }

  function HeldWeight(held: multiset<Handle>): (Id, Entry) -> int {
    (id: Id, e: Entry) => held[HandleOf(id, e)]
  }

  function WaitedWeight(t: Thread): (Id, Entry) -> int {
    (id: Id, e: Entry) => if t.pc.Waiting? && t.pc.id == id then 1 else 0
  }

  function RefsWeight(threads: seq<Thread>): (Id, Entry) -> int {
    (id: Id, e: Entry) => Total(threads, PinWeight(HandleOf(id, e))) + Total(threads, WaitWeight(id))
  }

  lemma {:induction false} HeldSum(m: map<Id, Entry>, held: multiset<Handle>)
    ensures Sum(m, HeldWeight(held)) <= |held|
    decreases |m|
  {
    if m.Keys != {} {
      var id :| id in m;
      var h := HandleOf(id, m[id]);
      SumTake(m, HeldWeight(held), id);
      HeldSum(m - {id}, held[h := 0]);
      SumAgree(m - {id}, HeldWeight(held), HeldWeight(held[h := 0]));
    }
  }

  lemma WaitedSum(m: map<Id, Entry>, t: Thread)
    ensures Sum(m, WaitedWeight(t)) <= if t.pc.Waiting? then 1 else 0
  {
    if t.pc.Waiting? && t.pc.id in m {
      SumTake(m, WaitedWeight(t), t.pc.id);
      SumOfZero(m - {t.pc.id}, WaitedWeight(t));
    } else {
      SumOfZero(m, WaitedWeight(t));
    }
  }

  lemma {:induction false} RefsSum(m: map<Id, Entry>, threads: seq<Thread>)
    ensures Sum(m, RefsWeight(threads)) <= Total(threads, ClaimWeight())
  {
    if threads == [] {
      SumOfZero(m, RefsWeight([]));
    } else {
      var t := threads[0];
      var own := (id: Id, e: Entry) => HeldWeight(t.held)(id, e) + WaitedWeight(t)(id, e);
      forall id | id in m
        ensures RefsWeight(threads)(id, m[id]) <= own(id, m[id]) + 1 * RefsWeight(threads[1..])(id, m[id])
      {
        assert PinWeight(HandleOf(id, m[id]))(t) == HeldWeight(t.held)(id, m[id]);
        assert WaitWeight(id)(t) == WaitedWeight(t)(id, m[id]);
      }
      SumLinearBound(m, RefsWeight(threads), own, RefsWeight(threads[1..]), 1);
      SumLinearBound(m, own, HeldWeight(t.held), WaitedWeight(t), 1);
      HeldSum(m, t.held);
      WaitedSum(m, t);
      RefsSum(m, threads[1..]);
    }
  }

  /** The busy entries are at most the pins held plus the threads waiting. */
  lemma BusyCountByClaims(cfg: Config, s: State)
    requires Inv(cfg, s)
    ensures BusyCount(s.cache) <= Total(s.threads, ClaimWeight())
  {
    hide WellFormed, MemoryOk, ThreadsOk;
    var zero := (id: Id, e: Entry) => 0;
    forall id | id in s.cache.entries
      ensures BusyOne()(id, s.cache.entries[id])
           <= zero(id, s.cache.entries[id]) + 1 * RefsWeight(s.threads)(id, s.cache.entries[id])
    {
      var e := s.cache.entries[id];
      assert EntryOk(cfg, s.mem, s.threads, id, e);
      TotalAtLeast(s.threads, PinWeight(HandleOf(id, e)), 0);
      TotalAtLeast(s.threads, WaitWeight(id), 0);
    }
    SumLinearBound(s.cache.entries, BusyOne(), zero, RefsWeight(s.threads), 1);
    SumOfZero(s.cache.entries, zero);
    RefsSum(s.cache.entries, s.threads);
  }

  // ----- the benchmark's two threads -----

  /** The compute loop (thread 0) pins at most two experts at a time and never prefetches; the
      prefetch thread (thread 1) only prefetches. */
  predicate BenchmarkCall(s: State, a: Action) {
    match a
    case CallGet(i, _, _) => i == 0 && 0 < |s.threads| && |s.threads[0].held| <= 1
    case CallPrefetch(i, _, _) => i == 1
    case _ => true
  }

  ghost predicate BenchmarkRun(cfg: Config, s: State, actions: seq<Action>)
    requires Legal(cfg, s, actions)
    decreases |actions|
  {
    actions != [] ==> BenchmarkCall(s, actions[0]) && BenchmarkRun(cfg, Next(cfg, s, actions[0]), actions[1..])
  }

  predicate Disciplined(s: State) {
    && |s.threads| == 2
    && var compute, prefetch := s.threads[0], s.threads[1];
       && |compute.held| + (if compute.pc.Idle? then 0 else 1) <= 2
       && prefetch.held == multiset{} && !prefetch.pc.Waiting?
       && (IsLoader(prefetch.pc) ==> !prefetch.pc.pin)
  }

  lemma StepDisciplined(cfg: Config, s: State, a: Action)
    requires Enabled(cfg, s, a) && BenchmarkCall(s, a) && Disciplined(s)
    ensures Disciplined(Next(cfg, s, a))
  {
    hide EvictionRun, EnterGet, EnterPrefetch, AfterCache, AfterMem, FinishWait, Unpin, HandleOf;
  }

  lemma DisciplinedBusy(cfg: Config, s: State)
    requires Inv(cfg, s) && Disciplined(s)
    ensures BusyCount(s.cache) <= 2
  {
    hide Inv;
    BusyCountByClaims(cfg, s);
    assert s.threads == [s.threads[0], s.threads[1]];
    assert Total(s.threads[1..], ClaimWeight()) == ClaimWeight()(s.threads[1]);
  }

  lemma {:induction false} BenchmarkBusy(cfg: Config, s: State, actions: seq<Action>)
    requires Inv(cfg, s) && Legal(cfg, s, actions) && BenchmarkRun(cfg, s, actions) && Disciplined(s)
    ensures BusyThroughout(cfg, s, actions, 2)
    decreases |actions|
  {
    hide Inv, Enabled, Next, BenchmarkCall, Disciplined;
    DisciplinedBusy(cfg, s);
    if actions != [] {
      StepKeepsInv(cfg, s, actions[0]);
      StepDisciplined(cfg, s, actions[0]);
      BenchmarkBusy(cfg, Next(cfg, s, actions[0]), actions[1..]);
    }
  }

  /** The benchmark: two threads, at most two pins, so RAM and peak stay within
      base + max(budget, hotset limit + 2S) + 2S. */
  lemma BenchmarkMemoryBound(cfg: Config, s: State, actions: seq<Action>)
    requires Init(cfg, s) && |s.threads| == 2
    requires Legal(cfg, s, actions) && BenchmarkRun(cfg, s, actions)
    ensures var s' := Run(cfg, s, actions);
            var bound := cfg.baseRam + MaxOf(s.cache.max, cfg.hotLimit + 2 * cfg.expertSize) + 2 * cfg.expertSize;
            s'.mem.ram <= bound && s'.mem.peak <= bound
  {
    hide Inv, Enabled, Next;
    InitInv(cfg, s);
    BenchmarkBusy(cfg, s, actions);
    MemoryNeverExceeds(cfg, s, actions, 2);
  }

  /** The shortest way over the budget with two threads and room for one expert: a getter and a prefetcher
      both map before either evicts. BudgetCondition says exactly when the budget does suffice. */
  lemma BudgetAloneIsExceeded(cfg: Config, s: State, actions: seq<Action>)
    requires Init(cfg, s) && |s.threads| == 2 && s.cache.max == cfg.expertSize > 0 && s.mem.live == map[]
    requires actions == [CallGet(0, 0, 0), CallPrefetch(1, 1, 0), MapOk(0, 1), MapOk(1, 2)]
    ensures Legal(cfg, s, actions)
    ensures Run(cfg, s, actions).mem.ram == cfg.baseRam + 2 * cfg.expertSize > cfg.baseRam + s.cache.max
  {
    var s1 := Next(cfg, s, actions[0]);
    assert s1.cache.log == [Access(0, 0)];
    var s2 := Next(cfg, s1, actions[1]);
    var s3 := Next(cfg, s2, actions[2]);
    var s4 := Next(cfg, s3, actions[3]);
    assert actions[1..] == [actions[1], actions[2], actions[3]];
    assert actions[1..][1..] == [actions[2], actions[3]];
    assert [actions[2], actions[3]][1..] == [actions[3]];
    assert Legal(cfg, s4, []) && Legal(cfg, s3, [actions[3]]);
    assert Legal(cfg, s2, [actions[2], actions[3]]);
    assert Legal(cfg, s1, actions[1..]);
    assert Run(cfg, s3, [actions[3]]) == s4;
    assert Run(cfg, s2, [actions[2], actions[3]]) == s4;
    assert Run(cfg, s1, actions[1..]) == s4;
  }
}
