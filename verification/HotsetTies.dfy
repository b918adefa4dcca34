/** When the hotset's promise holds. The sort leaves ties open, so what is protected may change from pass to
    pass: distinct access counts rule that out for any sizes and every policy; for experts of one size the
    exact condition under LRU is given. */
module HotsetTies {
  import opened Sums
  import opened CacheModel
  import opened Eviction
  import opened TieOrders = Hotset

  /** Every pass of the run protects the same number of bytes. */
  ghost predicate HotThroughout(run: seq<Eviction>, limit: nat) {
    forall k :: 0 <= k < |run| ==> run[k].pass.hot == On(limit)
  }

  /** What the first pass protects is never evicted. */
  ghost predicate KeepsFirstHotset(c: Cache, run: seq<Eviction>) {
    run != [] ==> forall k :: 0 <= k < |run| ==> run[k].victim !in Hotset(c, run[0].pass)
  }

  // ----- distinct counts -----

  ghost predicate DistinctCounts(c: Cache) {
    forall x: Id, y: Id :: x in c.entries && y in c.entries && x != y ==> Frequency(c, x) != Frequency(c, y)
  }

  lemma SortedIsRanked(c: Cache, rank: Id -> int, order: seq<Id>)
    requires SortedByFrequency(c, order) && DistinctCounts(c)
    ensures Ranked(c.stats, rank, c.entries.Keys, order)
  {
    forall i, j | 0 <= i < j < |order|
      ensures Before(c.stats, rank, order[i], order[j])
    {
      assert order[i] in order && order[j] in order && order[i] != order[j];
    }
  }

  /** If no two resident experts have the same access count, no outcome of the sort and no policy ever makes
      the loop evict what its first pass protects, whatever the sizes. */
  lemma {:induction false} DistinctCountsKeepHotset(c: Cache, m: Mem, run: seq<Eviction>, halt: Pass, limit: nat)
    requires EvictionRun(c, m, run, halt) && HotThroughout(run, limit) && DistinctCounts(c)
    ensures KeepsFirstHotset(c, run)
    decreases |run|
  {
    hide IsVictim, Greedy, Ranked, Before, SortedByFrequency;
    if run != [] {
      var first, v := run[0].pass, run[0].victim;
      var c', m' := EvictCache(c, run[0]), EvictMem(c, m, run[0]);
      VictimIsCandidate(c, first, v);
      DiscardFields(c, v);
      DistinctCountsKeepHotset(c', m', run[1..], halt, limit);
      if |run| > 1 {
        var second := run[1..][0].pass;
        var rank := (id: Id) => 0;
        SortedIsRanked(c, rank, first.order);
        SortedIsRanked(c', rank, second.order);
        HotsetGrowsOnce(c, first, second, v, limit, rank);
      }
      forall k | 0 <= k < |run|
        ensures run[k].victim !in Hotset(c, first)
      {
        if k > 0 { assert run[k] == run[1..][k - 1]; }
      }
    }
  }

  // ----- one size: positions in the sorted order -----

  ghost predicate OneSize(c: Cache, size: nat) {
    forall id: Id :: id in c.entries ==> c.entries[id].size == size
  }

  function Above(c: Cache, x: Id): set<Id> {
    set y: Id | y in c.entries && Frequency(c, y) > Frequency(c, x)
  }

  function AtLeast(c: Cache, x: Id): set<Id> {
    set y: Id | y in c.entries && Frequency(c, y) >= Frequency(c, x)
  }

  lemma {:induction false} Subset<T>(a: set<T>, b: set<T>)
    requires a <= b
    ensures |a| <= |b|
    decreases |a|
  {
    if a != {} {
      var x :| x in a;
      Subset(a - {x}, b - {x});
    }
  }

  lemma {:induction false} ElementsCount(s: seq<Id>)
    requires NoDup(s)
    ensures |Elements(s)| == |s| && forall x: Id :: x in Elements(s) <==> x in s
  {
    if s != [] {
      ElementsCount(s[1..]);
      assert s[0] !in s[1..];
      assert Elements(s) == {s[0]} + Elements(s[1..]);
    }
  }

  /** The place an expert gets lies between those accessed more often and those accessed at least as often. */
  lemma PositionBounds(c: Cache, order: seq<Id>, k: nat)
    requires SortedByFrequency(c, order) && k < |order|
    ensures |Above(c, order[k])| <= k < |AtLeast(c, order[k])|
  {
    ElementsCount(order[..k]);
    ElementsCount(order[..k + 1]);
    forall y | y in Above(c, order[k])
      ensures y in Elements(order[..k])
    {
      assert y in order;
      var j :| 0 <= j < |order| && order[j] == y;
      assert j < k && order[..k][j] == y;
    }
    forall y | y in Elements(order[..k + 1])
      ensures y in AtLeast(c, order[k])
    {
      var j :| 0 <= j < k + 1 && order[..k + 1][j] == y;
      assert y == order[j] && y in order;
    }
    Subset(Above(c, order[k]), Elements(order[..k]));
    Subset(Elements(order[..k + 1]), AtLeast(c, order[k]));
  }

  lemma {:induction false} GreedyByCount(entries: map<Id, Entry>, order: seq<Id>, room: nat, size: nat, h: nat)
    requires Fits(room, size, h)
    requires forall k :: 0 <= k < |order| ==> order[k] in entries && entries[order[k]].size == size
    ensures Greedy(entries, order, room) == Elements(order[..if h < |order| then h else |order|])
  {
    if order != [] && h > 0 {
      OneLess(h, size);
      GreedyByCount(entries, order[1..], room - size, size, h - 1);
      var n := if h < |order| then h else |order|;
      assert order[..n][0] == order[0] && order[..n][1..] == order[1..][..n - 1];
    }
  }

  lemma OneLess(h: nat, size: nat)
    requires h > 0
    ensures h * size == (h - 1) * size + size && (h + 1) * size == h * size + size
  {
  }

  ghost predicate HotPass(c: Cache, p: Pass, limit: nat) {
    p.hot == On(limit) && SortedByFrequency(c, p.order)
  }

  /** The hotset is the first `h` places. */
  lemma HotByPosition(c: Cache, p: Pass, limit: nat, size: nat, h: nat, k: nat)
    requires OneSize(c, size) && HotPass(c, p, limit) && Fits(limit, size, h) && k < |p.order|
    ensures p.order[k] in Hotset(c, p) <==> k < h
  {
    var order := p.order;
    forall j | 0 <= j < |order|
      ensures order[j] in c.entries
    {
      assert order[j] in order;
    }
    GreedyByCount(c.entries, order, limit, size, h);
    var n := if h < |order| then h else |order|;
    ElementsCount(order[..n]);
    if k < h { assert order[..n][k] == order[k]; }
    if order[k] in order[..n] {
      var j :| 0 <= j < n && order[..n][j] == order[k];
    }
  }

  lemma PlaceOf(c: Cache, p: Pass, limit: nat, id: Id) returns (k: nat)
    requires HotPass(c, p, limit) && id in c.entries
    ensures k < |p.order| && p.order[k] == id
  {
    assert id in p.order;
    k :| 0 <= k < |p.order| && p.order[k] == id;
  }

  /** Protected by every outcome of the sort, by none, or by some. */
  predicate Sure(c: Cache, h: nat, x: Id) {
    x in c.entries && |AtLeast(c, x)| <= h
  }

  predicate Never(c: Cache, h: nat, x: Id) {
    x in c.entries && |Above(c, x)| >= h
  }

  predicate Open(c: Cache, h: nat, x: Id) {
    x in c.entries && |Above(c, x)| < h < |AtLeast(c, x)|
  }

  lemma SureIsHot(c: Cache, p: Pass, limit: nat, size: nat, h: nat, x: Id)
    requires OneSize(c, size) && HotPass(c, p, limit) && Fits(limit, size, h)
    ensures Sure(c, h, x) ==> x in Hotset(c, p)
    ensures Never(c, h, x) ==> x !in Hotset(c, p)
  {
    if x in c.entries {
      var k := PlaceOf(c, p, limit, x);
      PositionBounds(c, p.order, k);
      HotByPosition(c, p, limit, size, h, k);
    }
  }

  /** No outcome of the sort matters. */
  ghost predicate Determinate(c: Cache, h: nat) {
    forall x: Id :: !Open(c, h, x)
  }

  // ----- one eviction -----

  lemma DiscardCounts(c: Cache, v: Id, x: Id)
    ensures Above(Discard(c, v), x) == Above(c, x) - {v}
    ensures AtLeast(Discard(c, v), x) == AtLeast(c, x) - {v}
    ensures forall y: Id :: Frequency(Discard(c, v), y) == Frequency(c, y)
  {
  }

  lemma SubsetCounts(c: Cache, x: Id, y: Id)
    requires x in c.entries && y in c.entries
    ensures Frequency(c, x) >= Frequency(c, y) ==> |Above(c, x)| <= |Above(c, y)| && |AtLeast(c, x)| <= |AtLeast(c, y)|
    ensures Frequency(c, x) > Frequency(c, y) ==> |AtLeast(c, x)| <= |Above(c, y)| && |Above(c, x)| < |Above(c, y)|
    ensures |Above(c, x)| < |AtLeast(c, x)|
  {
    assert x in AtLeast(c, x) && x !in Above(c, x);
    Subset(Above(c, x) + {x}, AtLeast(c, x));
    if Frequency(c, x) >= Frequency(c, y) {
      Subset(Above(c, x), Above(c, y));
      Subset(AtLeast(c, x), AtLeast(c, y));
    }
    if Frequency(c, x) > Frequency(c, y) { Subset(AtLeast(c, x), Above(c, y)); }
  }

  /** Dropping an expert that is never protected changes nobody's class. */
  lemma NeverGoes(c: Cache, h: nat, v: Id, x: Id)
    requires Never(c, h, v) && x in c.entries && x != v
    ensures var c' := Discard(c, v);
            && (Sure(c, h, x) <==> Sure(c', h, x)) && (Never(c, h, x) <==> Never(c', h, x))
            && (Open(c, h, x) <==> Open(c', h, x))
  {
    hide Above, AtLeast, Frequency, Discard;
    DiscardFields(c, v);
    DiscardCounts(c, v, x);
    InSets(c, v, x);
    SubsetCounts(c, v, x);
    SubsetCounts(c, x, v);
    BothBelow(c, v, x);
  }

  lemma BothBelow(c: Cache, v: Id, x: Id)
    requires v in c.entries && x in c.entries && v != x
    ensures Frequency(c, v) >= Frequency(c, x) ==> |AtLeast(c, x)| >= |Above(c, v)| + 2
  {
    if Frequency(c, v) >= Frequency(c, x) {
      assert |Above(c, v) + {v, x}| == |Above(c, v)| + 2;
      Subset(Above(c, v) + {v, x}, AtLeast(c, x));
    }
  }

  lemma InSets(c: Cache, v: Id, x: Id)
    requires v in c.entries
    ensures v in Above(c, x) <==> Frequency(c, v) > Frequency(c, x)
    ensures v in AtLeast(c, x) <==> Frequency(c, v) >= Frequency(c, x)
  {
  }

  lemma DeterminateStays(c: Cache, h: nat, v: Id)
    requires Determinate(c, h) && Never(c, h, v)
    ensures Determinate(Discard(c, v), h)
    ensures forall x: Id :: Sure(c, h, x) ==> Sure(Discard(c, v), h, x)
  {
    hide Sure, Never, Open;
    forall x: Id
      ensures !Open(Discard(c, v), h, x)
      ensures Sure(c, h, x) ==> Sure(Discard(c, v), h, x)
    {
      ClassesAreResident(c, h, x);
      ClassesAreResident(Discard(c, v), h, x);
      ClassesExclusive(c, h, v);
      if x in c.entries && x != v { NeverGoes(c, h, v, x); }
    }
  }

  lemma ClassesAreResident(c: Cache, h: nat, x: Id)
    ensures Sure(c, h, x) || Never(c, h, x) || Open(c, h, x) <==> x in c.entries
  {
  }

  lemma ClassesExclusive(c: Cache, h: nat, x: Id)
    ensures !(Sure(c, h, x) && Never(c, h, x)) && !(Open(c, h, x) && (Sure(c, h, x) || Never(c, h, x)))
  {
    if x in c.entries { SubsetCounts(c, x, x); }
  }

  /** Without ties at the boundary no policy evicts what is surely protected. */
  lemma {:induction false} DeterminateKeepsSure(c: Cache, m: Mem, run: seq<Eviction>, halt: Pass, limit: nat, size: nat, h: nat)
    requires EvictionRun(c, m, run, halt) && HotThroughout(run, limit)
    requires OneSize(c, size) && Fits(limit, size, h) && Determinate(c, h)
    ensures forall k :: 0 <= k < |run| ==> !Sure(c, h, run[k].victim)
    decreases |run|
  {
    hide IsVictim, Greedy, SortedByFrequency, Sure, Never, Open, Fits, Discard;
    if run != [] {
      var p, v := run[0].pass, run[0].victim;
      VictimIsCandidate(c, p, v);
      DiscardFields(c, v);
      ClassesAreResident(c, h, v);
      SureIsHot(c, p, limit, size, h, v);
      DeterminateStays(c, h, v);
      DeterminateKeepsSure(EvictCache(c, run[0]), EvictMem(c, m, run[0]), run[1..], halt, limit, size, h);
      forall k | 0 <= k < |run|
        ensures !Sure(c, h, run[k].victim)
      {
        if k > 0 { assert run[k] == run[1..][k - 1]; }
      }
    }
  }

  lemma HotIsSureIfDeterminate(c: Cache, p: Pass, limit: nat, size: nat, h: nat, x: Id)
    requires OneSize(c, size) && HotPass(c, p, limit) && Fits(limit, size, h) && Determinate(c, h)
    requires x in c.entries && x in Hotset(c, p)
    ensures Sure(c, h, x)
  {
    hide Sure, Never, Open;
    ClassesAreResident(c, h, x);
    SureIsHot(c, p, limit, size, h, x);
  }

  /** For experts of one size it suffices that no class of equal counts is cut by the end of the hotset:
      then no outcome of the sort and no policy makes the loop evict what its first pass protects. */
  lemma UncutTiesKeepHotset(c: Cache, m: Mem, run: seq<Eviction>, halt: Pass, limit: nat, size: nat, h: nat)
    requires EvictionRun(c, m, run, halt) && HotThroughout(run, limit)
    requires OneSize(c, size) && Fits(limit, size, h) && Determinate(c, h)
    ensures KeepsFirstHotset(c, run)
  {
    hide IsVictim, Greedy, SortedByFrequency, Sure, Never, Open, Fits, Discard;
    DeterminateKeepsSure(c, m, run, halt, limit, size, h);
    if run != [] {
      HotIsResident(c, run[0].pass);
      forall k | 0 <= k < |run|
        ensures run[k].victim !in Hotset(c, run[0].pass)
      {
        if run[k].victim in Hotset(c, run[0].pass) {
          HotIsSureIfDeterminate(c, run[0].pass, limit, size, h, run[k].victim);
        }
      }
    }
  }

  lemma HotIsResident(c: Cache, p: Pass)
    requires ProperPass(c, p)
    ensures Hotset(c, p) <= c.entries.Keys
  {
    if p.hot.On? { GreedyFits(c.entries, p.order, p.hot.limit); }
  }
}
