/** The memory bound where it is not the budget's: a thread pins some experts, prefetches fill the hotset, and
    then every thread maps one more expert. Nothing resident can go, so the budget does not matter. */
module CrowdedRuns {
  import opened Sums
  import opened CacheModel
  import opened Eviction
  import opened HotsetTies
  import opened CacheProtocol
  import opened CacheSafety
  import opened CacheTheorems
  import opened MemoryBound
  import FillingRuns

  // ----- runs with few busy entries -----

  /** `t` can be reached from `s` with at most `p` entries busy at a time. */
  ghost predicate Reaches(cfg: Config, s: State, t: State, p: nat) {
    exists actions :: Legal(cfg, s, actions) && Run(cfg, s, actions) == t && BusyThroughout(cfg, s, actions, p)
  }

  function Claims(s: State): int {
    Total(s.threads, ClaimWeight())
  }

  lemma {:induction false} BusySnoc(cfg: Config, s: State, actions: seq<Action>, a: Action, p: nat)
    requires Legal(cfg, s, actions) && BusyThroughout(cfg, s, actions, p)
    requires Legal(cfg, s, actions + [a]) && BusyCount(Run(cfg, s, actions + [a]).cache) <= p
    ensures BusyThroughout(cfg, s, actions + [a], p)
    decreases |actions|
  {
    hide Enabled, Next, BusyCount;
    if actions == [] {
      var s' := Next(cfg, s, a);
      assert actions + [a] == [a] && [a][0] == a && [a][1..] == [];
      assert Legal(cfg, s', []) && Run(cfg, s', []) == s' && BusyThroughout(cfg, s', [], p);
    } else {
      assert (actions + [a])[1..] == actions[1..] + [a];
      BusySnoc(cfg, Next(cfg, s, actions[0]), actions[1..], a, p);
    }
  }

  lemma ReachesInv(cfg: Config, s: State, t: State, p: nat)
    requires Init(cfg, s) && Reaches(cfg, s, t, p)
    ensures Inv(cfg, t)
  {
    hide Inv, Init, BusyThroughout;
    var actions :| Legal(cfg, s, actions) && Run(cfg, s, actions) == t && BusyThroughout(cfg, s, actions, p);
    InitInv(cfg, s);
    RunKeepsInv(cfg, s, actions);
  }

  lemma ReachesStep(cfg: Config, s: State, t: State, p: nat, a: Action)
    requires Init(cfg, s) && Reaches(cfg, s, t, p) && Enabled(cfg, t, a) && Claims(Next(cfg, t, a)) <= p
    ensures Reaches(cfg, s, Next(cfg, t, a), p)
  {
    hide Enabled, Next, Inv, Init, BusyCount;
    ReachesInv(cfg, s, t, p);
    StepKeepsInv(cfg, t, a);
    BusyCountByClaims(cfg, Next(cfg, t, a));
    var actions :| Legal(cfg, s, actions) && Run(cfg, s, actions) == t && BusyThroughout(cfg, s, actions, p);
    FillingRuns.RunSnoc(cfg, s, actions, a);
    BusySnoc(cfg, s, actions, a, p);
  }

  /** Only the first thread holds pins, and nobody waits. */
  predicate OneHolder(s: State, q: nat) {
    && s.threads != [] && |s.threads[0].held| == q
    && (forall i :: 0 < i < |s.threads| ==> s.threads[i].held == multiset{})
    && forall i :: 0 <= i < |s.threads| ==> !s.threads[i].pc.Waiting?
  }

  lemma HolderClaims(s: State, q: nat)
    requires OneHolder(s, q)
    ensures Claims(s) == q
  {
    forall t | t in s.threads[1..]
      ensures ClaimWeight()(t) == 0
    {
      var i :| 0 <= i < |s.threads[1..]| && s.threads[1..][i] == t;
      assert s.threads[i + 1] == t;
    }
    TotalZero(s.threads[1..], ClaimWeight());
  }

  // ----- the stock -----

  /** Exactly the experts below `j` are resident, all mapped and accessed once; those below `q` are pinned. */
  ghost predicate StockOk(cfg: Config, c: Cache, q: nat, j: nat) {
    && NotBefore(c.log, 0)
    && (forall id: Id :: id in c.entries <==> id < j) && (forall id: Id :: id in c.stats <==> id < j)
    && (forall id: Id :: id < j ==> c.stats[id].count == 1)
    && forall id: Id :: id < j ==>
         var e := c.entries[id];
         e.loaded && e.ptr.At? && e.size == cfg.expertSize && e.waits == 0 && e.pins == if id < q then 1 else 0
  }

  ghost predicate Stocked(cfg: Config, s: State, q: nat, j: nat) {
    && OneHolder(s, q) && (forall i :: 0 <= i < |s.threads| ==> s.threads[i].pc.Idle?)
    && StockOk(cfg, s.cache, q, j)
    && s.mem.ram == cfg.baseRam + j * cfg.expertSize
  }

  function Ids(from: nat, to: nat): seq<Id>
    requires from <= to <= 0x1_0000_0000
  {
    seq(to - from, k requires 0 <= k < to - from => from + k)
  }

  /** The unpinned experts first. */
  function UnpinnedFirst(q: nat, j: nat): seq<Id>
    requires q <= j <= 0x1_0000_0000
  {
    Ids(q, j) + Ids(0, q)
  }

  lemma OrderIsSorted(cfg: Config, c: Cache, q: nat, j: nat)
    requires q <= j <= 0x1_0000_0000 && StockOk(cfg, c, q, j)
    ensures SortedByFrequency(c, UnpinnedFirst(q, j))
  {
    var order := UnpinnedFirst(q, j);
    forall id: Id
      ensures id in order <==> id in c.entries
    {
      if id < q { assert order[j - q + id] == id; } else if id < j { assert order[id - q] == id; }
    }
    forall k | 0 <= k < |order|
      ensures Frequency(c, order[k]) == 1
    {
      assert order[k] in order;
    }
  }

  lemma UnpinnedAreHot(cfg: Config, c: Cache, q: nat, j: nat, h: nat, id: Id)
    requires q <= j <= 0x1_0000_0000 && StockOk(cfg, c, q, j) && j - q <= h && q <= id < j && cfg.expertSize > 0
    ensures id in Hotset(c, Pass(LRU, On(h * cfg.expertSize), UnpinnedFirst(q, j), 0.0, 0))
  {
    hide Greedy, SortedByFrequency;
    var order := UnpinnedFirst(q, j);
    var p := Pass(LRU, On(h * cfg.expertSize), order, 0.0, 0);
    OrderIsSorted(cfg, c, q, j);
    FillingRuns.OneMoreExpert(h, cfg.expertSize);
    assert order[id - q] == id;
    HotByPosition(c, p, h * cfg.expertSize, cfg.expertSize, h, id - q);
  }

  /** Everything is pinned or hot, so the loop stops at once. */
  lemma NothingCanGo(cfg: Config, c: Cache, m: Mem, q: nat, j: nat, h: nat) returns (halt: Pass)
    requires q <= j <= 0x1_0000_0000 && StockOk(cfg, c, q, j) && j - q <= h && cfg.expertSize > 0
    ensures EvictionRun(c, m, [], halt) && HotLimit(halt.hot) == h * cfg.expertSize
  {
    hide Hotset, SortedByFrequency;
    halt := Pass(LRU, On(h * cfg.expertSize), UnpinnedFirst(q, j), 0.0, 0);
    OrderIsSorted(cfg, c, q, j);
    forall id: Id
      ensures !Candidate(c, Hotset(c, halt), id)
    {
      if q <= id < j { UnpinnedAreHot(cfg, c, q, j, h, id); }
    }
  }

  // ----- adding to the stock -----

  /** Thread 0 asks for expert `j`, maps and tracks it. */
  lemma Fetch(cfg: Config, s0: State, s: State, p: nat, q: nat, j: nat, ask: Action) returns (t: State)
    requires Init(cfg, s0) && Reaches(cfg, s0, s, p) && Stocked(cfg, s, q, j) && q <= p && j < 0x1_0000_0000
    requires ask == CallGet(0, j, 0) || ask == CallPrefetch(0, j, 0)
    ensures Reaches(cfg, s0, t, p) && OneHolder(t, q) && |t.threads| == |s.threads| && t.cache.max == s.cache.max
    ensures forall i :: 0 < i < |t.threads| ==> t.threads[i].pc.Idle?
    ensures var pc := t.threads[0].pc; pc.Mapped? && pc.id == j && pc.ptr.At? && pc.pin == ask.CallGet?
    ensures t.cache == if ask.CallGet? then EnterGet(s.cache, j, 0) else EnterPrefetch(s.cache, j, 0)
    ensures t.mem.ram == cfg.baseRam + (j + 1) * cfg.expertSize
  {
    hide Reaches, Init, EvictionRun, Claims, EnterGet, EnterPrefetch, StockOk;
    StockFacts(cfg, s.cache, q, j);
    EnterGetResident(s.cache, j);
    HolderClaims(Next(cfg, s, ask), q);
    ReachesStep(cfg, s0, s, p, ask);
    t := Next(cfg, s, ask);
    var addr := FillingRuns.UnusedAddress(t.mem.live.Keys);
    HolderClaims(Next(cfg, t, MapOk(0, addr)), q);
    ReachesStep(cfg, s0, t, p, MapOk(0, addr));
    t := Next(cfg, t, MapOk(0, addr));
    HolderClaims(Next(cfg, t, RecordPeak(0)), q);
    ReachesStep(cfg, s0, t, p, RecordPeak(0));
    t := Next(cfg, t, RecordPeak(0));
    FillingRuns.OneMoreExpert(j, cfg.expertSize);
  }

  lemma StockFacts(cfg: Config, c: Cache, q: nat, j: nat)
    requires StockOk(cfg, c, q, j) && j < 0x1_0000_0000
    ensures NotBefore(c.log, 0) && j !in c.entries
  {
    var id: Id := j;
    assert id !in c.entries;
  }

  lemma EnterGetResident(c: Cache, j: nat)
    requires j < 0x1_0000_0000 && j !in c.entries
    ensures EnterGet(c, j, 0).max == c.max && EnterPrefetch(c, j, 0).max == c.max
    ensures Lookup(c, j).Absent?
  {
  }

  lemma NewRecord(c: Cache, id: Id, pin: bool)
    requires NotBefore(c.log, 0) && id !in c.entries && id !in c.stats
    ensures var r := if pin then EnterGet(c, id, 0) else EnterPrefetch(c, id, 0);
              && NotBefore(r.log, 0) && r.stats.Keys == c.stats.Keys + {id} && r.stats[id].count == 1
              && (forall x: Id :: x in c.stats ==> r.stats[x] == c.stats[x])
              && r.entries == c.entries[id := Entry(c.created, Null, 0, 0, 0, false)]
  {
  }

  /** What publishing makes of the stock. */
  lemma PublishedStock(cfg: Config, c: Cache, q: nat, j: nat, ptr: Ptr, pin: bool)
    requires StockOk(cfg, c, q, j) && q <= j < 0x1_0000_0000 && ptr.At? && (pin ==> q == j)
    ensures var r := if pin then EnterGet(c, j, 0) else EnterPrefetch(c, j, 0);
            j in r.entries && StockOk(cfg, Publish(r, j, ptr, cfg.expertSize, pin), if pin then q + 1 else q, j + 1)
  {
    hide NotBefore, EnterGet, EnterPrefetch;
    var id: Id := j;
    assert id !in c.entries && id !in c.stats;
    NewRecord(c, id, pin);
    var r := if pin then EnterGet(c, j, 0) else EnterPrefetch(c, j, 0);
    var c' := Publish(r, j, ptr, cfg.expertSize, pin);
    forall x: Id | x < j + 1
      ensures c'.stats[x].count == 1
      ensures var e := c'.entries[x];
              e.loaded && e.ptr.At? && e.size == cfg.expertSize && e.waits == 0
              && e.pins == if x < (if pin then q + 1 else q) then 1 else 0
    {
      assert x == id || (x < j && x in c.stats && x in c.entries);
    }
    assert forall x: Id :: x in c'.stats <==> x < j + 1;
    assert forall x: Id :: x in c'.entries <==> x < j + 1;
  }

  /** It publishes expert `j`; nothing can be evicted. */
  lemma Stock(cfg: Config, s0: State, s: State, p: nat, q: nat, j: nat, h: nat, pin: bool) returns (t: State)
    requires Init(cfg, s0) && Reaches(cfg, s0, s, p) && Stocked(cfg, s, q, j) && q <= j < 0x1_0000_0000
    requires cfg.expertSize > 0 && h * cfg.expertSize <= cfg.hotLimit
    requires if pin then q == j < p else q <= p && j - q < h
    ensures Reaches(cfg, s0, t, p) && Stocked(cfg, t, if pin then q + 1 else q, j + 1)
    ensures |t.threads| == |s.threads| && t.cache.max == s.cache.max
  {
    hide Reaches, Init, EvictionRun, Claims, EnterGet, EnterPrefetch, StockOk, Fits;
    t := Fetch(cfg, s0, s, p, q, j, if pin then CallGet(0, j, 0) else CallPrefetch(0, j, 0));
    PublishedStock(cfg, s.cache, q, j, t.threads[0].pc.ptr, pin);
    var q' := if pin then q + 1 else q;
    var halt := NothingCanGo(cfg, PublishedCache(cfg, t, 0), PublishedMem(cfg, t, 0), q', j + 1, h);
    var last := Finish(0, [], halt);
    HolderClaims(Next(cfg, t, last), q');
    ReachesStep(cfg, s0, t, p, last);
    t := Next(cfg, t, last);
  }

  lemma {:induction false} StockUp(cfg: Config, s: State, p: nat, h: nat, j: nat) returns (t: State)
    requires Init(cfg, s) && |s.threads| > 0 && j <= p + h && p + h <= 0x1_0000_0000
    requires cfg.expertSize > 0 && h * cfg.expertSize <= cfg.hotLimit
    ensures Reaches(cfg, s, t, p) && Stocked(cfg, t, if j < p then j else p, j)
    ensures |t.threads| == |s.threads| && t.cache.max == s.cache.max
    decreases j
  {
    hide Reaches, Stocked;
    if j == 0 {
      t := s;
      EmptyStock(cfg, s, p);
    } else {
      t := StockUp(cfg, s, p, h, j - 1);
      t := Stock(cfg, s, t, p, if j - 1 < p then j - 1 else p, j - 1, h, j - 1 < p);
    }
  }

  lemma EmptyStock(cfg: Config, s: State, p: nat)
    requires Init(cfg, s) && |s.threads| > 0
    ensures Reaches(cfg, s, s, p) && Stocked(cfg, s, 0, 0)
  {
    InitInv(cfg, s);
    HolderClaims(s, 0);
    BusyCountByClaims(cfg, s);
    assert Legal(cfg, s, []) && Run(cfg, s, []) == s && BusyThroughout(cfg, s, [], p);
  }

  // ----- and every thread maps one more -----

  ghost predicate Crowded(cfg: Config, s: State, q: nat, j: nat, n: nat) {
    && OneHolder(s, q) && n <= |s.threads| && NotBefore(s.cache.log, 0)
    && (forall i :: n <= i < |s.threads| ==> s.threads[i].pc.Idle?)
    && (forall id: Id :: id in s.cache.entries <==> id < j + n)
    && s.mem.ram == cfg.baseRam + (j + n) * cfg.expertSize
  }

  lemma {:induction false} Crowd(cfg: Config, s0: State, s: State, p: nat, q: nat, j: nat, n: nat) returns (t: State)
    requires Init(cfg, s0) && Reaches(cfg, s0, s, p) && Stocked(cfg, s, q, j) && q <= p
    requires n <= |s.threads| && j + n <= 0x1_0000_0000
    ensures Reaches(cfg, s0, t, p) && Crowded(cfg, t, q, j, n) && |t.threads| == |s.threads|
  {
    hide Reaches, Init, Stocked, Crowded;
    if n == 0 {
      t := s;
      StockIsCrowded(cfg, s, q, j);
    } else {
      t := Crowd(cfg, s0, s, p, q, j, n - 1);
      t := CrowdOne(cfg, s0, t, p, q, j, n - 1);
    }
  }

  lemma StockIsCrowded(cfg: Config, s: State, q: nat, j: nat)
    requires Stocked(cfg, s, q, j)
    ensures Crowded(cfg, s, q, j, 0)
  {
  }

  lemma CrowdOne(cfg: Config, s0: State, s: State, p: nat, q: nat, j: nat, n: nat) returns (t: State)
    requires Init(cfg, s0) && Reaches(cfg, s0, s, p) && Crowded(cfg, s, q, j, n) && q <= p
    requires n < |s.threads| && j + n < 0x1_0000_0000
    ensures Reaches(cfg, s0, t, p) && Crowded(cfg, t, q, j, n + 1) && |t.threads| == |s.threads|
  {
    hide Reaches, Init, EvictionRun, Claims, Stamps;
    var id: Id := j + n;
    var ask := CallPrefetch(n, id, 0);
    HolderClaims(Next(cfg, s, ask), q);
    ReachesStep(cfg, s0, s, p, ask);
    t := Next(cfg, s, ask);
    var addr := FillingRuns.UnusedAddress(t.mem.live.Keys);
    HolderClaims(Next(cfg, t, MapOk(n, addr)), q);
    ReachesStep(cfg, s0, t, p, MapOk(n, addr));
    t := Next(cfg, t, MapOk(n, addr));
    FillingRuns.OneMoreExpert(j + n, cfg.expertSize);
  }

  /** The other branch of the bound is attained too: with a hotset limit of exactly `h` experts and a budget no
      larger than hotset limit and busy entries together, N threads have base + hotset limit + P*S + N*S mapped
      in some run with at most P busy entries. */
  lemma CrowdedBoundIsAttained(cfg: Config, s: State, h: nat, p: nat) returns (actions: seq<Action>)
    requires Init(cfg, s) && |s.threads| > 0 && cfg.expertSize > 0 && cfg.hotLimit == h * cfg.expertSize
    requires s.cache.max <= cfg.hotLimit + cfg.expertSize * p && p + h + |s.threads| <= 0x1_0000_0000
    ensures Legal(cfg, s, actions) && BusyThroughout(cfg, s, actions, p)
    ensures Run(cfg, s, actions).mem.ram
         == cfg.baseRam + MaxOf(s.cache.max, cfg.hotLimit + cfg.expertSize * p) + cfg.expertSize * |s.threads|
  {
    hide Legal, Run, BusyThroughout, Init;
    var t := StockUp(cfg, s, p, h, p + h);
    t := Crowd(cfg, s, t, p, p, p + h, |s.threads|);
    actions :| Legal(cfg, s, actions) && Run(cfg, s, actions) == t && BusyThroughout(cfg, s, actions, p);
    Distribute(cfg.expertSize, p + h, |s.threads|);
    Distribute(cfg.expertSize, p, h);
  }
}
