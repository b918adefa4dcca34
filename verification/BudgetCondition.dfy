/** When the budget alone bounds the memory in use. The cache maps before it evicts, so it does exactly when
    all experts that are ever asked for fit into the budget together. */
module BudgetCondition {
  import opened Sums
  import opened CacheModel
  import opened Eviction
  import opened CacheProtocol
  import opened CacheSafety
  import opened CacheTheorems
  import opened MemoryBound
  import opened FillingRuns

  // ----- resident or not, an entry is one expert's worth of memory at most -----

  predicate InFlight(pc: Pc) {
    pc.Tracking? || (pc.Mapped? && pc.ptr.At?)
  }

  /** What a thread has in flight for one expert. */
  function FlightFor(id: Id, size: nat): Thread -> int {
    (t: Thread) => if InFlight(t.pc) && t.pc.id == id then size else 0
  }

  function FlightIn(threads: seq<Thread>, size: nat): (Id, Entry) -> int {
    (id: Id, e: Entry) => Total(threads, FlightFor(id, size))
  }

  function OwnFlight(t: Thread, size: nat): (Id, Entry) -> int {
    (id: Id, e: Entry) => if InFlight(t.pc) && t.pc.id == id then size else 0
  }

  lemma OwnFlightSum(m: map<Id, Entry>, t: Thread, size: nat)
    requires InFlight(t.pc) ==> t.pc.id in m
    ensures Sum(m, OwnFlight(t, size)) == FlightWeight(size)(t)
  {
    var w := OwnFlight(t, size);
    if InFlight(t.pc) {
      SumTake(m, w, t.pc.id);
      SumOfZero(m - {t.pc.id}, w);
    } else {
      SumOfZero(m, w);
    }
  }

  /** The bytes in flight, counted thread by thread or expert by expert. */
  lemma {:induction false} FlightByExpert(m: map<Id, Entry>, threads: seq<Thread>, size: nat)
    requires forall i :: 0 <= i < |threads| && InFlight(threads[i].pc) ==> threads[i].pc.id in m
    ensures Total(threads, FlightWeight(size)) == Sum(m, FlightIn(threads, size))
  {
    if threads == [] {
      SumOfZero(m, FlightIn([], size));
    } else {
      OwnFlightSum(m, threads[0], size);
      FlightByExpert(m, threads[1..], size);
      SumOfParts(m, FlightIn(threads, size), OwnFlight(threads[0], size), FlightIn(threads[1..], size));
    }
  }

  lemma {:induction false} FlightNeedsLoader(threads: seq<Thread>, id: Id, size: nat)
    ensures Total(threads, FlightFor(id, size)) <= size * Total(threads, LoadWeight(id))
  {
    if threads != [] {
      var t := threads[0];
      FlightNeedsLoader(threads[1..], id, size);
      assert LoadWeight(id)(t) == 1 || FlightFor(id, size)(t) == LoadWeight(id)(t) == 0;
      assert FlightFor(id, size)(t) <= size * LoadWeight(id)(t);
      Distribute(size, LoadWeight(id)(threads[0]), Total(threads[1..], LoadWeight(id)));
    }
  }

  function One(): (Id, Entry) -> int {
    (id: Id, e: Entry) => 1
  }

  lemma {:induction false} SumOfOnes(m: map<Id, Entry>)
    ensures Sum(m, One()) == |m.Keys|
    decreases |m|
  {
    if m.Keys != {} {
      var id :| id in m;
      SumTake(m, One(), id);
      SumOfOnes(m - {id});
      assert (m - {id}).Keys == m.Keys - {id};
    }
  }

  function Footprint(threads: seq<Thread>, size: nat): (Id, Entry) -> int {
    (id: Id, e: Entry) => Bytes(e) + FlightIn(threads, size)(id, e)
  }

  lemma OneExpertEach(cfg: Config, m: Mem, threads: seq<Thread>, id: Id, e: Entry)
    requires EntryOk(cfg, m, threads, id, e)
    ensures Footprint(threads, cfg.expertSize)(id, e) <= cfg.expertSize
  {
    FlightNeedsLoader(threads, id, cfg.expertSize);
    assert FlightIn(threads, cfg.expertSize)(id, e) == Total(threads, FlightFor(id, cfg.expertSize));
    assert cfg.expertSize * Total(threads, LoadWeight(id)) == if e.loaded then 0 else cfg.expertSize;
  }

  /** However many threads load at once, no more memory is mapped than one expert per entry. */
  lemma RamByEntries(cfg: Config, s: State)
    requires Inv(cfg, s)
    ensures s.mem.ram <= cfg.baseRam + cfg.expertSize * |s.cache.entries.Keys|
  {
    hide WellFormed, EntryOk, HeldOk;
    var m, size := s.cache.entries, cfg.expertSize;
    forall i | 0 <= i < |s.threads| && InFlight(s.threads[i].pc)
      ensures s.threads[i].pc.id in m
    {
      FlightIsCurrent(cfg, s, i);
    }
    FlightByExpert(m, s.threads, size);
    SumOfParts(m, Footprint(s.threads, size), BytesWeight(), FlightIn(s.threads, size));
    var zero := (id: Id, e: Entry) => 0;
    forall id | id in m
      ensures Footprint(s.threads, size)(id, m[id]) <= zero(id, m[id]) + size * One()(id, m[id])
    {
      OneExpertEach(cfg, s.mem, s.threads, id, m[id]);
    }
    SumLinearBound(m, Footprint(s.threads, size), zero, One(), size);
    SumOfZero(m, zero);
    SumOfOnes(m);
  }

  lemma FlightIsCurrent(cfg: Config, s: State, i: nat)
    requires Inv(cfg, s) && i < |s.threads| && InFlight(s.threads[i].pc)
    ensures s.threads[i].pc.id in s.cache.entries
  {
    hide WellFormed, EntriesOk, MemoryOk, HeldOk;
    assert PcOk(cfg, s.cache.entries, s.mem, s.threads[i].pc);
  }

  // ----- runs over the experts below some number -----

  predicate AsksBelow(a: Action, n: nat) {
    (a.CallGet? || a.CallPrefetch?) ==> a.id < n
  }

  predicate AskBelow(actions: seq<Action>, n: nat) {
    forall k :: 0 <= k < |actions| ==> AsksBelow(actions[k], n)
  }

  ghost predicate ResidentBelow(s: State, n: nat) {
    forall id: Id :: id in s.cache.entries ==> id < n
  }

  lemma StepResidentBelow(cfg: Config, s: State, a: Action, n: nat)
    requires Enabled(cfg, s, a) && AsksBelow(a, n) && ResidentBelow(s, n)
    ensures ResidentBelow(Next(cfg, s, a), n)
  {
    hide EvictionRun, AfterCache;
    match a
    case Finish(i, run, _) =>
      if s.threads[i].pc.id in s.cache.entries { EvictionShrinks(PublishedCache(cfg, s, i), run); }
    case _ =>
  }

  lemma {:induction false} IdsBelow(ids: set<Id>, n: nat)
    requires forall id :: id in ids ==> id < n
    ensures |ids| <= n
  {
    if n == 0 {
      assert ids == {};
    } else if n - 1 in ids {
      var last: Id := n - 1;
      IdsBelow(ids - {last}, n - 1);
    } else {
      IdsBelow(ids, n - 1);
    }
  }

  lemma RamBelow(cfg: Config, s: State, n: nat)
    requires Inv(cfg, s) && ResidentBelow(s, n)
    ensures s.mem.ram <= cfg.baseRam + cfg.expertSize * n
  {
    hide Inv;
    RamByEntries(cfg, s);
    IdsBelow(s.cache.entries.Keys, n);
    ScaleUp(cfg.expertSize, |s.cache.entries.Keys|, n);
  }

  lemma {:induction false} RunBelow(cfg: Config, s: State, actions: seq<Action>, n: nat, b: int)
    requires Inv(cfg, s) && ResidentBelow(s, n) && Legal(cfg, s, actions) && AskBelow(actions, n)
    requires PeakWithin(s, b) && cfg.baseRam + cfg.expertSize * n <= b
    ensures Run(cfg, s, actions).mem.ram <= b && Run(cfg, s, actions).mem.peak <= b
    decreases |actions|
  {
    hide Inv, Enabled, Next, ResidentBelow, AsksBelow;
    RamBelow(cfg, s, n);
    if actions != [] {
      var s' := Next(cfg, s, actions[0]);
      StepKeepsInv(cfg, s, actions[0]);
      StepResidentBelow(cfg, s, actions[0], n);
      RamBelow(cfg, s', n);
      PeakStep(cfg, s, actions[0], b);
      RunBelow(cfg, s', actions[1..], n, b);
    }
  }

  /** Asking for experts below `n` only, RAM and peak never exceed n experts' worth. */
  lemma ExpertsBound(cfg: Config, s: State, actions: seq<Action>, n: nat)
    requires Init(cfg, s) && Legal(cfg, s, actions) && AskBelow(actions, n)
    ensures var s' := Run(cfg, s, actions);
            s'.mem.ram <= cfg.baseRam + cfg.expertSize * n && s'.mem.peak <= cfg.baseRam + cfg.expertSize * n
  {
    hide Inv, Legal, Run;
    InitInv(cfg, s);
    ScaleUp(cfg.expertSize, 0, n);
    RunBelow(cfg, s, actions, n, cfg.baseRam + cfg.expertSize * n);
  }

  // ----- the two thresholds -----

  lemma {:induction false} PrefetchesAskBelow(actions: seq<Action>, n: nat)
    requires PrefetchRun(actions, n)
    ensures AskBelow(actions, n)
  {
    forall k | 0 <= k < |actions|
      ensures AsksBelow(actions[k], n)
    {
      assert Prefetches(actions[k], n);
    }
  }

  /** One thread maps expert number `k` while `k - 1` experts fill the budget as far as they can. */
  lemma MapsBeforeEvicting(cfg: Config, s: State, k: nat, n: nat) returns (actions: seq<Action>)
    requires Init(cfg, s) && |s.threads| > 0 && 0 < k <= n <= 0x1_0000_0000 && (k - 1) * cfg.expertSize <= s.cache.max
    ensures Legal(cfg, s, actions) && AskBelow(actions, n)
    ensures Run(cfg, s, actions).mem.ram == cfg.baseRam + k * cfg.expertSize
  {
    hide Legal, Run, PrefetchRun, AskBelow;
    var t := ClimbTo(cfg, s, k - 1, 1, n);
    actions :| Legal(cfg, s, actions) && Run(cfg, s, actions) == t && PrefetchRun(actions, n);
    PrefetchesAskBelow(actions, n);
  }

  /** The fewest experts that together exceed (or, if `strict`, reach) the budget. */
  lemma {:induction false} FirstOver(size: nat, max: nat, n: nat, strict: bool) returns (k: nat)
    requires n > 0 && (if strict then n * size >= max else n * size > max)
    ensures 0 < k <= n && (k - 1) * size <= max && (if strict then k * size >= max else k * size > max)
  {
    if n == 1 {
      k := 1;
    } else if if strict then (n - 1) * size >= max else (n - 1) * size > max {
      k := FirstOver(size, max, n - 1, strict);
    } else {
      k := n;
    }
  }

  /** RAM and peak stay within (or, if `strict`, strictly below) base + budget in every run that asks only for
      experts below `n`. */
  ghost predicate BudgetSuffices(cfg: Config, s: State, n: nat, strict: bool) {
    forall actions :: Legal(cfg, s, actions) && AskBelow(actions, n) ==>
      var m, b := Run(cfg, s, actions).mem, cfg.baseRam + s.cache.max;
      if strict then m.ram < b && m.peak < b else m.ram <= b && m.peak <= b
  }

  lemma FittingSuffices(cfg: Config, s: State, n: nat, strict: bool)
    requires Init(cfg, s) && (if strict then n * cfg.expertSize < s.cache.max else n * cfg.expertSize <= s.cache.max)
    ensures BudgetSuffices(cfg, s, n, strict)
  {
    hide Legal, Run, AskBelow;
    forall actions | Legal(cfg, s, actions) && AskBelow(actions, n)
      ensures Run(cfg, s, actions).mem.ram <= cfg.baseRam + cfg.expertSize * n
      ensures Run(cfg, s, actions).mem.peak <= cfg.baseRam + cfg.expertSize * n
    {
      ExpertsBound(cfg, s, actions, n);
    }
  }

  lemma NotFittingFails(cfg: Config, s: State, n: nat, strict: bool)
    requires Init(cfg, s) && |s.threads| > 0 && n <= 0x1_0000_0000
    requires if strict then n * cfg.expertSize >= s.cache.max else n * cfg.expertSize > s.cache.max
    ensures !BudgetSuffices(cfg, s, n, strict)
  {
    if n == 0 {
      assert Legal(cfg, s, []) && AskBelow([], n) && Run(cfg, s, []) == s;
    } else {
      hide Legal, Run, AskBelow;
      var k := FirstOver(cfg.expertSize, s.cache.max, n, strict);
      var actions := MapsBeforeEvicting(cfg, s, k, n);
    }
  }

  /** The budget alone bounds RAM and peak, for any number of threads and under any schedule, exactly if all
      experts the threads may ask for fit into it together. */
  lemma BudgetSufficesIff(cfg: Config, s: State, n: nat)
    requires Init(cfg, s) && |s.threads| > 0 && n <= 0x1_0000_0000
    ensures BudgetSuffices(cfg, s, n, false) <==> n * cfg.expertSize <= s.cache.max
  {
    hide BudgetSuffices;
    if n * cfg.expertSize <= s.cache.max { FittingSuffices(cfg, s, n, false); } else { NotFittingFails(cfg, s, n, false); }
  }

  /** The reported form, peak strictly below the budget, holds exactly if they fit with room to spare. */
  lemma StrictlyBelowIff(cfg: Config, s: State, n: nat)
    requires Init(cfg, s) && |s.threads| > 0 && n <= 0x1_0000_0000
    ensures BudgetSuffices(cfg, s, n, true) <==> n * cfg.expertSize < s.cache.max
  {
    hide BudgetSuffices;
    if n * cfg.expertSize < s.cache.max { FittingSuffices(cfg, s, n, true); } else { NotFittingFails(cfg, s, n, true); }
  }
}
