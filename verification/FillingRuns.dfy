/** Runs that use as much memory as the protocol allows: one thread prefetches until the budget is full, then
    every thread maps one more expert before any of them publishes. */
module FillingRuns {
  import opened Sums
  import opened CacheModel
  import opened Eviction
  import opened CacheProtocol
  import opened CacheSafety
  import opened CacheTheorems
  import opened MemoryBound

  // ----- runs that only prefetch -----

  predicate Prefetches(a: Action, n: nat) {
    match a
    case CallPrefetch(_, id, _) => id < n
    case MapOk(_, _) => true
    case RecordPeak(_) => true
    case Finish(_, _, _) => true
    case _ => false
  }

  /** `t` can be reached from `s` by prefetches of experts below `n`. */
  ghost predicate Reaches(cfg: Config, s: State, t: State, n: nat) {
    exists actions :: Legal(cfg, s, actions) && Run(cfg, s, actions) == t && PrefetchRun(actions, n)
  }

  predicate PrefetchRun(actions: seq<Action>, n: nat) {
    forall k :: 0 <= k < |actions| ==> Prefetches(actions[k], n)
  }

  lemma ReachesItself(cfg: Config, s: State, n: nat)
    ensures Reaches(cfg, s, s, n)
  {
    assert Legal(cfg, s, []) && Run(cfg, s, []) == s && PrefetchRun([], n);
  }

  lemma {:induction false} RunSnoc(cfg: Config, s: State, actions: seq<Action>, a: Action)
    requires Legal(cfg, s, actions) && Enabled(cfg, Run(cfg, s, actions), a)
    ensures Legal(cfg, s, actions + [a]) && Run(cfg, s, actions + [a]) == Next(cfg, Run(cfg, s, actions), a)
    decreases |actions|
  {
    hide Enabled, Next;
    if actions == [] {
      var s' := Next(cfg, s, a);
      assert actions + [a] == [a] && [a][0] == a && [a][1..] == [];
      assert Legal(cfg, s', []) && Run(cfg, s', []) == s';
    } else {
      RunSnoc(cfg, Next(cfg, s, actions[0]), actions[1..], a);
      assert (actions + [a])[1..] == actions[1..] + [a];
    }
  }

  lemma ReachesStep(cfg: Config, s: State, t: State, n: nat, a: Action)
    requires Reaches(cfg, s, t, n) && Enabled(cfg, t, a) && Prefetches(a, n)
    ensures Reaches(cfg, s, Next(cfg, t, a), n)
  {
    hide Enabled, Next, Prefetches;
    var actions :| Legal(cfg, s, actions) && Run(cfg, s, actions) == t && PrefetchRun(actions, n);
    RunSnoc(cfg, s, actions, a);
    assert PrefetchRun(actions + [a], n);
  }

  // ----- such runs keep nothing busy -----

  /** No thread holds, awaits or will get a pin. */
  predicate NothingPinned(s: State) {
    forall i :: 0 <= i < |s.threads| ==>
      && s.threads[i].held == multiset{} && !s.threads[i].pc.Waiting?
      && (IsLoader(s.threads[i].pc) ==> !s.threads[i].pc.pin)
  }

  lemma StepPinsNothing(cfg: Config, s: State, a: Action, n: nat)
    requires Enabled(cfg, s, a) && Prefetches(a, n) && NothingPinned(s)
    ensures NothingPinned(Next(cfg, s, a))
  {
    hide EvictionRun, EnterPrefetch, AfterCache, AfterMem, HandleOf, Publish;
  }

  lemma NothingBusy(cfg: Config, s: State)
    requires Inv(cfg, s) && NothingPinned(s)
    ensures BusyCount(s.cache) <= 0
  {
    hide Inv;
    BusyCountByClaims(cfg, s);
    TotalZero(s.threads, ClaimWeight());
  }

  lemma {:induction false} PrefetchesKeepNothingBusy(cfg: Config, s: State, actions: seq<Action>, n: nat, p: nat)
    requires Inv(cfg, s) && NothingPinned(s) && Legal(cfg, s, actions) && PrefetchRun(actions, n)
    ensures BusyThroughout(cfg, s, actions, p)
    decreases |actions|
  {
    hide Inv, Enabled, Next, NothingPinned, Prefetches;
    NothingBusy(cfg, s);
    if actions != [] {
      StepKeepsInv(cfg, s, actions[0]);
      StepPinsNothing(cfg, s, actions[0], n);
      PrefetchesKeepNothingBusy(cfg, Next(cfg, s, actions[0]), actions[1..], n, p);
    }
  }

  // ----- filling the cache -----

  /** Some address that is not in use. */
  lemma {:induction false} UnusedAddress(used: set<nat>) returns (addr: nat)
    ensures addr !in used && forall a :: a in used ==> a < addr
  {
    if used == {} {
      addr := 0;
    } else {
      var a: nat :| a in used;
      var b := UnusedAddress(used - {a});
      addr := if a < b then b else a + 1;
      forall x | x in used ensures x < addr {
        assert x == a || x in used - {a};
      }
    }
  }

  /** Exactly the experts below `k` are there, `n` more threads have mapped the next ones, and the others are
      idle. */
  ghost predicate Climbing(cfg: Config, s: State, k: nat, j: nat) {
    && j <= |s.threads| && NotBefore(s.cache.log, 0)
    && (forall i :: j <= i < |s.threads| ==> s.threads[i].pc.Idle?)
    && (forall id: Id :: id in s.cache.entries <==> id < k + j)
    && s.mem.ram == cfg.baseRam + (k + j) * cfg.expertSize
  }

  ghost predicate Full(cfg: Config, s: State, k: nat) {
    Climbing(cfg, s, k, 0) && s.mem.occupancy == k * cfg.expertSize
  }

  lemma OneMoreExpert(x: nat, size: nat)
    ensures (x + 1) * size == x * size + size
  {
  }

  /** A thread asks for the next expert and maps it. */
  lemma MapNext(cfg: Config, s0: State, s: State, k: nat, j: nat, n: nat) returns (t: State)
    requires Reaches(cfg, s0, s, n) && Climbing(cfg, s, k, j) && j < |s.threads| && k + j < n <= 0x1_0000_0000
    ensures Reaches(cfg, s0, t, n) && Climbing(cfg, t, k, j + 1)
    ensures |t.threads| == |s.threads| && t.cache.max == s.cache.max && t.mem.occupancy == s.mem.occupancy
    ensures t.threads[j].pc.Tracking? && t.threads[j].pc.id == k + j
  {
    hide Reaches, EvictionRun, Stamps;
    var id: Id := k + j;
    var ask := CallPrefetch(j, id, 0);
    ReachesStep(cfg, s0, s, n, ask);
    t := Next(cfg, s, ask);
    var addr := UnusedAddress(t.mem.live.Keys);
    ReachesStep(cfg, s0, t, n, MapOk(j, addr));
    t := Next(cfg, t, MapOk(j, addr));
    OneMoreExpert(k + j, cfg.expertSize);
  }

  /** It publishes while the budget lasts, so nothing is evicted. */
  lemma PublishNext(cfg: Config, s0: State, s: State, k: nat, n: nat) returns (t: State)
    requires Reaches(cfg, s0, s, n) && Climbing(cfg, s, k, 1) && s.mem.occupancy == k * cfg.expertSize
    requires s.threads[0].pc.Tracking? && s.threads[0].pc.id == k && (k + 1) * cfg.expertSize <= s.cache.max
    ensures Reaches(cfg, s0, t, n) && Full(cfg, t, k + 1)
    ensures |t.threads| == |s.threads| && t.cache.max == s.cache.max
  {
    hide Reaches, Stamps;
    OneMoreExpert(k, cfg.expertSize);
    ReachesStep(cfg, s0, s, n, RecordPeak(0));
    t := Next(cfg, s, RecordPeak(0));
    var halt := Pass(LRU, Off, [], 0.0, 0);
    assert k in t.cache.entries;
    assert EvictionRun(PublishedCache(cfg, t, 0), PublishedMem(cfg, t, 0), [], halt);
    ReachesStep(cfg, s0, t, n, Finish(0, [], halt));
    t := Next(cfg, t, Finish(0, [], halt));
  }

  /** Any number of experts that fits into the budget can be resident. */
  lemma {:induction false} FillTo(cfg: Config, s: State, k: nat, n: nat) returns (t: State)
    requires Init(cfg, s) && |s.threads| > 0 && k <= n <= 0x1_0000_0000 && k * cfg.expertSize <= s.cache.max
    ensures Reaches(cfg, s, t, n) && Full(cfg, t, k) && |t.threads| == |s.threads| && t.cache.max == s.cache.max
  {
    hide Reaches, Climbing;
    if k == 0 {
      t := s;
      ReachesItself(cfg, s, n);
      NothingYet(cfg, s);
    } else {
      OneMoreExpert(k - 1, cfg.expertSize);
      t := FillTo(cfg, s, k - 1, n);
      t := MapNext(cfg, s, t, k - 1, 0, n);
      t := PublishNext(cfg, s, t, k - 1, n);
    }
  }

  lemma NothingYet(cfg: Config, s: State)
    requires Init(cfg, s)
    ensures Full(cfg, s, 0)
  {
  }

  /** On top of that, every thread can have one more expert mapped. */
  lemma {:induction false} ClimbTo(cfg: Config, s: State, k: nat, j: nat, n: nat) returns (t: State)
    requires Init(cfg, s) && j <= |s.threads| && |s.threads| > 0
    requires k + j <= n <= 0x1_0000_0000 && k * cfg.expertSize <= s.cache.max
    ensures Reaches(cfg, s, t, n) && t.mem.ram == cfg.baseRam + (k + j) * cfg.expertSize
    ensures Climbing(cfg, t, k, j) && |t.threads| == |s.threads|
  {
    hide Reaches;
    if j == 0 {
      t := FillTo(cfg, s, k, n);
    } else {
      t := ClimbTo(cfg, s, k, j - 1, n);
      t := MapNext(cfg, s, t, k, j - 1, n);
    }
  }

  /** The bound on RAM is attained: with a budget of exactly `q` experts that leaves room for the hotset and
      the busy entries, N threads have base + max(budget, hotset limit + P*S) + N*S mapped in some run. */
  lemma MemoryBoundIsAttained(cfg: Config, s: State, q: nat, p: nat) returns (actions: seq<Action>)
    requires Init(cfg, s) && |s.threads| > 0 && s.cache.max == q * cfg.expertSize
    requires cfg.hotLimit + cfg.expertSize * p <= s.cache.max && q + |s.threads| <= 0x1_0000_0000
    ensures Legal(cfg, s, actions) && BusyThroughout(cfg, s, actions, p)
    ensures Run(cfg, s, actions).mem.ram
         == cfg.baseRam + MaxOf(s.cache.max, cfg.hotLimit + cfg.expertSize * p) + cfg.expertSize * |s.threads|
  {
    hide Legal, Run, PrefetchRun, BusyThroughout, Inv;
    var n := q + |s.threads|;
    var t := ClimbTo(cfg, s, q, |s.threads|, n);
    actions :| Legal(cfg, s, actions) && Run(cfg, s, actions) == t && PrefetchRun(actions, n);
    InitInv(cfg, s);
    PrefetchesKeepNothingBusy(cfg, s, actions, n, p);
    Distribute(cfg.expertSize, q, |s.threads|);
  }
}
