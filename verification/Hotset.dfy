/** The protected hotset: it is a prefix of the frequency order, and under one fixed order of ties it
    only grows while the eviction loop runs. */
module Hotset {
  import opened Sums
  import opened CacheModel
  import opened Eviction

  // ----- closed under higher frequency -----

  lemma {:induction false} GreedyTakesPrefix(entries: map<Id, Entry>, order: seq<Id>, room: int) returns (n: nat)
    ensures n <= |order|
    ensures forall id: Id :: id in Greedy(entries, order, room) <==> id in order[..n]
  {
    if order == [] || order[0] !in entries || entries[order[0]].size > room {
      n := 0;
    } else {
      var k := GreedyTakesPrefix(entries, order[1..], room - entries[order[0]].size);
      n := k + 1;
      assert order[..n] == [order[0]] + order[1..][..k];
    }
  }

  /** The hotset fits its limit, and every resident expert accessed more often than a protected one is
      protected too. */
  lemma HotsetClosedUpwards(c: Cache, p: Pass, a: Id, b: Id)
    requires p.hot.On? && SortedByFrequency(c, p.order)
    requires a in Hotset(c, p) && b in c.entries && Frequency(c, b) > Frequency(c, a)
    ensures b in Hotset(c, p)
    ensures Hotset(c, p) <= c.entries.Keys
    ensures Sum(c.entries, HotWeight(Hotset(c, p))) <= p.hot.limit
  {
    hide Greedy;
    GreedyFits(c.entries, p.order, p.hot.limit);
    var n := GreedyTakesPrefix(c.entries, p.order, p.hot.limit);
    var i :| 0 <= i < n && p.order[..n][i] == a;
    assert p.order[i] == a && b in p.order;
    var j :| 0 <= j < |p.order| && p.order[j] == b;
    assert j < i;
    assert p.order[..n][j] == b;
  }

  // ----- one fixed order of ties -----

  /** Higher count first; equal counts by a fixed rank. */
  predicate Before(stats: map<Id, Stats>, rank: Id -> int, x: Id, y: Id) {
    var f, g := CountIn(stats, x), CountIn(stats, y);
    f > g || (f == g && rank(x) < rank(y))
  }

  function CountIn(stats: map<Id, Stats>, id: Id): nat {
    if id in stats then stats[id].count else 0
  }

  ghost predicate Ranked(stats: map<Id, Stats>, rank: Id -> int, resident: set<Id>, order: seq<Id>) {
    && (forall id: Id :: id in order <==> id in resident)
    && (forall i, j :: 0 <= i < j < |order| ==> Before(stats, rank, order[i], order[j]))
  }

  lemma RankedIsSorted(c: Cache, rank: Id -> int, order: seq<Id>)
    requires Ranked(c.stats, rank, c.entries.Keys, order)
    ensures SortedByFrequency(c, order)
  {
  }

  lemma RankedEmpty(stats: map<Id, Stats>, rank: Id -> int, resident: set<Id>, a: seq<Id>)
    requires Ranked(stats, rank, resident, a)
    ensures a == [] <==> resident == {}
    ensures a != [] ==> a[0] in resident
  {
    if a != [] { assert a[0] in a; }
    if resident != {} {
      var x :| x in resident;
      assert x in a;
    }
  }

  lemma FirstIsLeast(stats: map<Id, Stats>, rank: Id -> int, resident: set<Id>, a: seq<Id>, x: Id)
    requires Ranked(stats, rank, resident, a) && x in resident
    ensures a != [] && (x == a[0] || Before(stats, rank, a[0], x))
  {
    assert x in a;
    var k :| 0 <= k < |a| && a[k] == x;
  }

  /** A ranked list of a given set is unique. */
  lemma {:induction false} RankedUnique(stats: map<Id, Stats>, rank: Id -> int, resident: set<Id>, a: seq<Id>, b: seq<Id>)
    requires Ranked(stats, rank, resident, a) && Ranked(stats, rank, resident, b)
    ensures a == b
    decreases |a|
  {
    RankedEmpty(stats, rank, resident, a);
    RankedEmpty(stats, rank, resident, b);
    if a != [] {
      FirstIsLeast(stats, rank, resident, a, b[0]);
      FirstIsLeast(stats, rank, resident, b, a[0]);
      RankedTail(stats, rank, resident, a);
      RankedTail(stats, rank, resident, b);
      RankedUnique(stats, rank, resident - {a[0]}, a[1..], b[1..]);
    }
  }

  lemma RankedTail(stats: map<Id, Stats>, rank: Id -> int, resident: set<Id>, a: seq<Id>)
    requires Ranked(stats, rank, resident, a) && a != []
    ensures Ranked(stats, rank, resident - {a[0]}, a[1..])
  {
    forall id: Id
      ensures id in a[1..] <==> id in resident - {a[0]}
    {
      if id in a && id != a[0] {
        var k :| 0 <= k < |a| && a[k] == id;
        assert a[1..][k - 1] == id;
      }
    }
  }

  lemma RankedNoDup(stats: map<Id, Stats>, rank: Id -> int, resident: set<Id>, a: seq<Id>)
    requires Ranked(stats, rank, resident, a)
    ensures NoDup(a)
  {
  }

  lemma RankedRemove(stats: map<Id, Stats>, rank: Id -> int, resident: set<Id>, a: seq<Id>, v: Id)
    requires Ranked(stats, rank, resident, a)
    ensures Ranked(stats, rank, resident - {v}, Remove(a, v))
  {
    RankedNoDup(stats, rank, resident, a);
    if v in a {
      var k :| 0 <= k < |a| && a[k] == v;
      RemoveAt(a, k);
    } else {
      RemoveAbsent(a, v);
    }
  }

  /** Dropping an unprotected expert keeps everything that was protected. */
  lemma {:induction false} GreedySurvives(entries: map<Id, Entry>, order: seq<Id>, room: int, v: Id)
    requires v !in Greedy(entries, order, room)
    ensures Greedy(entries, order, room) <= Greedy(entries - {v}, Remove(order, v), room)
  {
    if order != [] && order[0] in entries && entries[order[0]].size <= room {
      assert order[0] in Greedy(entries, order, room);
      GreedySurvives(entries, order[1..], room - entries[order[0]].size, v);
      assert Remove(order, v) == [order[0]] + Remove(order[1..], v);
      assert Remove(order, v)[1..] == Remove(order[1..], v);
    }
  }

  /** All passes of a run share the limit and one order of ties. */
  ghost predicate OneTieOrder(c: Cache, run: seq<Eviction>, halt: Pass, limit: nat, rank: Id -> int)
    decreases |run|
  {
    var p := if run == [] then halt else run[0].pass;
    && p.hot == On(limit)
    && Ranked(c.stats, rank, c.entries.Keys, p.order)
    && (run != [] ==> OneTieOrder(EvictCache(c, run[0]), run[1..], halt, limit, rank))
  }

  lemma HotsetGrowsOnce(c: Cache, p: Pass, q: Pass, v: Id, limit: nat, rank: Id -> int)
    requires p.hot == q.hot == On(limit)
    requires Ranked(c.stats, rank, c.entries.Keys, p.order)
    requires v !in Hotset(c, p)
    requires Ranked(c.stats, rank, (c.entries - {v}).Keys, q.order)
    ensures Hotset(c, p) <= Hotset(Discard(c, v), q)
  {
    RankedRemove(c.stats, rank, c.entries.Keys, p.order, v);
    assert (c.entries - {v}).Keys == c.entries.Keys - {v};
    RankedUnique(c.stats, rank, c.entries.Keys - {v}, q.order, Remove(p.order, v));
    GreedySurvives(c.entries, p.order, limit, v);
  }

  /** Under one tie order the hotset only grows while the loop runs, so nothing protected when the
      loop starts is evicted by it. */
  lemma {:induction false} HotsetIsStable(c: Cache, m: Mem, run: seq<Eviction>, halt: Pass, limit: nat, rank: Id -> int)
    requires EvictionRun(c, m, run, halt) && OneTieOrder(c, run, halt, limit, rank)
    ensures var first := if run == [] then halt else run[0].pass;
            && Hotset(c, first) <= Hotset(AfterCache(c, run), halt)
            && Hotset(c, first) <= AfterCache(c, run).entries.Keys
            && forall k :: 0 <= k < |run| ==> run[k].victim !in Hotset(c, first)
    decreases |run|
  {
    hide Greedy, IsVictim, Ranked, Discard, SortedByFrequency, Hotset, EvictMem;
    if run == [] {
      RankedIsResident(c, halt, limit, rank);
    } else {
      var c', m' := EvictCache(c, run[0]), EvictMem(c, m, run[0]);
      var second := if run[1..] == [] then halt else run[1..][0].pass;
      VictimIsCandidate(c, run[0].pass, run[0].victim);
      assert c'.stats == c.stats && c'.entries == c.entries - {run[0].victim} by { DiscardFields(c, run[0].victim); }
      HotsetGrowsOnce(c, run[0].pass, second, run[0].victim, limit, rank);
      HotsetIsStable(c', m', run[1..], halt, limit, rank);
      forall k | 0 <= k < |run|
        ensures run[k].victim !in Hotset(c, run[0].pass)
      {
        if k > 0 { assert run[k] == run[1..][k - 1]; }
      }
    }
  }

  lemma RankedIsResident(c: Cache, p: Pass, limit: nat, rank: Id -> int)
    requires p.hot == On(limit) && Ranked(c.stats, rank, c.entries.Keys, p.order)
    ensures Hotset(c, p) <= c.entries.Keys
  {
    RankedIsSorted(c, rank, p.order);
    GreedyFits(c.entries, p.order, limit);
  }

  lemma DiscardFields(c: Cache, v: Id)
    ensures Discard(c, v).stats == c.stats && Discard(c, v).entries == c.entries - {v}
  {
  }

  // ----- what the open tie order of the sort allows -----

  /** Three experts of one byte in a budget of one byte: two were got and given back, the last was prefetched. */
  function ThreeEqualExperts(): Cache {
    var s := Stats(1, 0, [0]);
    Cache(1, map[1 := Entry(0, At(10), 1, 0, 0, true), 2 := Entry(1, At(20), 1, 0, 0, true), 3 := Entry(2, At(30), 1, 0, 0, true)],
          [1, 2, 3], map[1 := s, 2 := s, 3 := s], 0, 2, 0, 3, [3, 2, 1],
          [Access(3, 0), Access(2, 0), Access(1, 0)])
  }

  /** Their mappings, and nothing else in memory. */
  function ThreeMappings(): Mem {
    Mem(3, 3, 3, map[10 := RegionOf(1, 1), 20 := RegionOf(2, 1), 30 := RegionOf(3, 1)])
  }

  /** What holds of cache and memory whenever the loop starts: the cache is well formed, the occupancy is its
      resident bytes, every entry shows its own region, and the hotset limit is a share of the budget. */
  ghost predicate Regular(c: Cache, m: Mem, limit: nat) {
    && WellFormed(c) && m.occupancy == ResidentBytes(c) && limit <= c.max
    && forall id: Id :: id in c.entries && c.entries[id].ptr.At? ==>
         c.entries[id].ptr.addr in m.live && m.live[c.entries[id].ptr.addr] == RegionOf(id, c.entries[id].size)
  }

  lemma ThreeStamps()
    ensures var log := ThreeEqualExperts().log;
            forall id: Id :: Stamps(log, id) == if id == 1 || id == 2 || id == 3 then [0] else []
  {
    var l0: seq<Access> := [];
    var l1, l2, l3 := l0 + [Access(3, 0)], l0 + [Access(3, 0)] + [Access(2, 0)], l0 + [Access(3, 0)] + [Access(2, 0)] + [Access(1, 0)];
    assert ThreeEqualExperts().log == l3;
    forall id: Id
      ensures Stamps(l3, id) == if id == 1 || id == 2 || id == 3 then [0] else []
    {
      LogExtended(l0, Access(3, 0), id);
      LogExtended(l1, Access(2, 0), id);
      LogExtended(l2, Access(1, 0), id);
    }
  }

  lemma ThreeTouches()
    ensures forall id: Id :: LastTouch([3, 2, 1], id) == if id == 1 then 2 else if id == 2 then 1 else if id == 3 then 0 else -1
  {
    var t0: seq<Id> := [];
    assert t0 + [3] + [2] + [1] == [3, 2, 1];
    forall id: Id
      ensures LastTouch(t0 + [3] + [2] + [1], id) == if id == 1 then 2 else if id == 2 then 1 else if id == 3 then 0 else -1
    {
      TouchPosition(t0, 3, id);
      TouchPosition(t0 + [3], 2, id);
      TouchPosition(t0 + [3] + [2], 1, id);
    }
  }

  lemma ThreeListed()
    ensures Listed([1, 2, 3], [3, 2, 1], {1, 2, 3})
  {
    hide LastTouch;
    ThreeTouches();
  }

  lemma ThreeAccounted()
    ensures var c := ThreeEqualExperts(); Accounted(c.stats, c.log, {1, 2, 3})
  {
    hide Stamps;
    ThreeStamps();
    assert Summary([0]) == Stats(1, 0, [0]);
  }

  lemma ThreeAreWellFormed()
    ensures WellFormed(ThreeEqualExperts())
  {
    hide Listed, Accounted;
    ThreeListed();
    ThreeAccounted();
    assert ThreeEqualExperts().entries.Keys == {1, 2, 3};
  }

  lemma ThreeBytes()
    ensures ResidentBytes(ThreeEqualExperts()) == 3
  {
    var m := ThreeEqualExperts().entries;
    SumTake(m, BytesWeight(), 1);
    SumTake(m - {1}, BytesWeight(), 2);
    SumTake(m - {1} - {2}, BytesWeight(), 3);
    assert (m - {1} - {2} - {3}).Keys == {};
  }

  lemma ThreeAreRegular()
    ensures Regular(ThreeEqualExperts(), ThreeMappings(), 1)
  {
    hide WellFormed, ResidentBytes;
    ThreeAreWellFormed();
    ThreeBytes();
  }

  /** The sort is not stable, so two passes may order equal counts differently; then an expert
      protected in the first pass can be the victim of the second. */
  lemma OpenTiesMayEvictProtected()
    ensures exists c: Cache, m: Mem, first: Eviction, second: Eviction ::
              && Regular(c, m, 1) && first.pass.hot == second.pass.hot == On(1)
              && MayEvict(c, m, first) && MayEvict(EvictCache(c, first), EvictMem(c, m, first), second)
              && second.victim in Hotset(c, first.pass)
  {
    hide MayEvict, Hotset, Greedy, Regular;
    var c := ThreeEqualExperts();
    var m := ThreeMappings();
    var first := Eviction(Pass(LRU, On(1), [1, 2, 3], 0.0, 0), 3);
    var second := Eviction(Pass(LRU, On(1), [2, 1], 0.0, 0), 1);
    ThreeAreRegular();
    TieFirst(c, m, first);
    var c' := EvictCache(c, first);
    assert Remove([1, 2, 3], 3) == [1, 2];
    TieSecond(c', EvictMem(c, m, first), second);
  }

  lemma HotIsFirst(c: Cache, p: Pass, a: Id, rest: seq<Id>)
    requires p.hot == On(1) && p.order == [a] + rest && rest != [] && a in c.entries && rest[0] in c.entries
    requires c.entries[a].size == c.entries[rest[0]].size == 1
    ensures Hotset(c, p) == {a}
  {
    assert p.order[1..] == rest;
    assert Greedy(c.entries, rest, 0) == {};
  }

  lemma TieFirst(c: Cache, m: Mem, first: Eviction)
    requires c == ThreeEqualExperts() && m.occupancy == 3
    requires first == Eviction(Pass(LRU, On(1), [1, 2, 3], 0.0, 0), 3)
    ensures MayEvict(c, m, first) && Hotset(c, first.pass) == {1}
  {
    hide Hotset;
    assert first.pass.order == [1] + [2, 3];
    HotIsFirst(c, first.pass, 1, [2, 3]);
    assert c.lru[2] == 3;
    assert LeastRecent(c, {1}, Anything(), 3);
  }

  lemma TieSecond(c: Cache, m: Mem, second: Eviction)
    requires c.entries == ThreeEqualExperts().entries - {3} && c.lru == [1, 2] && c.max == 1
    requires c.stats == ThreeEqualExperts().stats && m.occupancy == 2
    requires second == Eviction(Pass(LRU, On(1), [2, 1], 0.0, 0), 1)
    ensures MayEvict(c, m, second)
  {
    hide Hotset;
    var o: seq<Id> := [2, 1];
    assert second.pass.order == [2] + [1];
    HotIsFirst(c, second.pass, 2, [1]);
    assert c.lru[0] == 1;
    assert LeastRecent(c, {2}, Anything(), 1);
    assert o[0] == 2 && o[1] == 1;
  }
}
