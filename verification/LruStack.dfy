/** The stack property of the LRU policy for sequential runs of the compute loop: with uniform sizes,
    the hotset off, every mapping successful and room for at least two experts, the recency list is
    always the first C ids of the list an unbounded cache would keep. */
module LruStack {
  import opened Sums
  import opened CacheModel
  import opened Eviction
  import opened SequentialUse

  /** The unbounded cache's list. */
  function MoveToFront(list: seq<Id>, id: Id): seq<Id> {
    [id] + Remove(list, id)
  }

  function Prefix(list: seq<Id>, n: nat): seq<Id> {
    if |list| <= n then list else list[..n]
  }

  lemma MoveKeepsNoDup(list: seq<Id>, id: Id)
    requires NoDup(list)
    ensures NoDup(MoveToFront(list, id))
  {
    RemoveNoDup(list, id);
    var rest := Remove(list, id);
    forall j | 0 <= j < |rest| ensures rest[j] != id { assert rest[j] in rest; }
  }

  lemma {:induction false} PrefixMember(list: seq<Id>, n: nat, k: nat)
    requires k < |list| && k < n
    ensures list[k] in Prefix(list, n)
  {
    assert Prefix(list, n)[k] == list[k];
  }

  /** A hit within the first n positions reorders that prefix alone. */
  lemma PrefixHit(list: seq<Id>, n: nat, id: Id)
    requires NoDup(list) && id in Prefix(list, n)
    ensures Prefix(MoveToFront(list, id), n) == [id] + Remove(Prefix(list, n), id)
  {
    hide Remove;
    var p := Prefix(list, n);
    var k :| 0 <= k < |p| && p[k] == id;
    RemoveAt(list, k);
    RemoveAt(p, k);
    if |list| > n { CutAfter(list, n, k); }
  }

  lemma CutAfter(list: seq<Id>, n: nat, k: nat)
    requires k < n < |list|
    ensures list[..n][..k] == list[..k]
    ensures list[..n][k + 1..] == list[k + 1..n]
    ensures forall x: Id :: ([x] + (list[..k] + list[k + 1..]))[..n] == [x] + (list[..k] + list[k + 1..n])
  {
    forall x: Id
      ensures ([x] + (list[..k] + list[k + 1..]))[..n] == [x] + (list[..k] + list[k + 1..n])
    {
      var rest := list[..k] + list[k + 1..];
      assert rest[..n - 1] == list[..k] + list[k + 1..n];
      assert ([x] + rest)[..n] == [x] + rest[..n - 1];
    }
  }

  /** A miss pushes the prefix down by one and drops what falls off the end. */
  lemma PrefixMiss(list: seq<Id>, n: nat, id: Id)
    requires NoDup(list) && id !in Prefix(list, n) && n > 0
    ensures Prefix(MoveToFront(list, id), n) == Prefix([id] + Prefix(list, n), n)
  {
    if id in list {
      var k :| 0 <= k < |list| && list[k] == id;
      if k < n { PrefixMember(list, n, k); }
      RemoveAt(list, k);
    } else {
      RemoveAbsent(list, id);
    }
  }

  // ----- one get -----

  /** Between calls: every entry is a loaded mapping of the uniform size and nobody waits. */
  ghost predicate Uniform(c: Cache, size: nat) {
    forall id: Id :: id in c.entries ==>
      && c.entries[id].loaded && c.entries[id].ptr.At? && c.entries[id].size == size && c.entries[id].waits == 0
  }

  /** Pins sit only on the first n list positions. */
  predicate PinnedWithin(c: Cache, n: nat) {
    forall k :: n <= k < |c.lru| && c.lru[k] in c.entries ==> c.entries[c.lru[k]].pins == 0
  }

  ghost predicate Steady(c: Cache, m: Mem, size: nat, cap: nat) {
    && Listed(c.lru, c.touches, c.entries.Keys)
    && Uniform(c, size) && Fits(c.max, size, cap)
    && m.occupancy == |c.lru| * size && |c.lru| <= cap
  }

  /** The mapping succeeded with the uniform size, and the evictions follow LRU with the hotset off. */
  predicate PlainLoad(l: Load, size: nat) {
    && l.ptr.At? && l.size == size && l.halt.hot.Off?
    && forall k :: 0 <= k < |l.run| ==> l.run[k].pass.policy.LRU? && l.run[k].pass.hot.Off?
  }

  function PinnedOnce(c: Cache, id: Id): map<Id, Entry>
    requires id in c.entries
  {
    c.entries[id := c.entries[id].(pins := c.entries[id].pins + 1)]
  }

  /** Where the element now at position j >= 1 stood before the move: at most one place further up. */
  lemma PositionBefore(list: seq<Id>, id: Id, j: nat) returns (i: nat)
    requires NoDup(list) && id in list && 1 <= j < |MoveToFront(list, id)|
    ensures j - 1 <= i < |list| && list[i] == MoveToFront(list, id)[j] && list[i] != id
  {
    var k :| 0 <= k < |list| && list[k] == id;
    RemoveAt(list, k);
    i := if j - 1 < k then j - 1 else j;
  }

  lemma MoveKeepsLength(list: seq<Id>, id: Id)
    requires NoDup(list) && id in list
    ensures |MoveToFront(list, id)| == |list|
  {
    var k :| 0 <= k < |list| && list[k] == id;
    RemoveAt(list, k);
  }

  lemma HitFields(c: Cache, m: Mem, id: Id, l: Load)
    requires id in c.entries && c.entries[id].loaded
    ensures var c' := GetCache(c, id, l);
            && c'.lru == MoveToFront(c.lru, id) && c'.touches == c.touches + [id]
            && c'.entries == PinnedOnce(c, id) && c'.hits == c.hits + 1 && c'.max == c.max
            && GetMem(c, m, id, l) == m
  {
  }

  lemma HitStep(c: Cache, m: Mem, id: Id, l: Load, size: nat, cap: nat, n: nat)
    requires Steady(c, m, size, cap) && id in c.entries && PinnedWithin(c, n)
    ensures var c' := GetCache(c, id, l);
            && Steady(c', GetMem(c, m, id, l), size, cap) && PinnedWithin(c', n + 1)
            && c'.lru == MoveToFront(c.lru, id) && c'.hits == c.hits + 1
            && c'.entries == PinnedOnce(c, id)
  {
    hide GetCache, GetMem, OrderedByTouch;
    HitFields(c, m, id, l);
    var c' := GetCache(c, id, l);
    TouchListed(c.lru, c.touches, c.entries.Keys, id);
    assert id in c.lru;
    MoveKeepsLength(c.lru, id);
    assert c'.entries.Keys == c.entries.Keys;
    forall j | n + 1 <= j < |c'.lru| && c'.lru[j] in c'.entries
      ensures c'.entries[c'.lru[j]].pins == 0
    {
      var i := PositionBefore(c.lru, id, j);
    }
  }

  // ----- a miss -----

  lemma MissFields(c: Cache, m: Mem, id: Id, l: Load)
    requires id !in c.entries && l.ptr.At?
    ensures id in EnterGet(c, id, l.now).entries
    ensures var c2, m2 := LoadedCache(EnterGet(c, id, l.now), id, l, true), LoadedMem(m, id, l);
            && c2.lru == [id] + c.lru && c2.touches == c.touches + [id]
            && c2.entries == c.entries[id := Entry(c.created, l.ptr, l.size, 1, 0, true)]
            && c2.hits == c.hits && c2.max == c.max
            && m2.occupancy == m.occupancy + l.size
  {
  }

  /** Like Steady, but possibly one expert over the budget. */
  ghost predicate Swollen(c: Cache, m: Mem, size: nat, cap: nat) {
    && Listed(c.lru, c.touches, c.entries.Keys)
    && Uniform(c, size) && Fits(c.max, size, cap)
    && m.occupancy == |c.lru| * size && |c.lru| <= cap + 1
  }

  lemma LastIsVictim(c: Cache, m: Mem, e: Eviction, size: nat, cap: nat, n: nat)
    requires Swollen(c, m, size, cap) && PinnedWithin(c, n) && |c.lru| == cap + 1 && n <= cap
    requires MayEvict(c, m, e) && e.pass.policy.LRU? && e.pass.hot.Off?
    ensures e.victim == c.lru[cap]
  {
    assert Hotset(c, e.pass) == {};
    var k := PositionOfLeastRecent(c, {}, e.victim);
    assert c.lru[cap] in c.lru;
    assert Candidate(c, {}, c.lru[cap]);
  }

  lemma DropLast(c: Cache, m: Mem, e: Eviction, size: nat, cap: nat, n: nat)
    requires Swollen(c, m, size, cap) && PinnedWithin(c, n) && |c.lru| == cap + 1 && n <= cap
    requires MayEvict(c, m, e) && e.victim == c.lru[cap]
    ensures var c', m' := EvictCache(c, e), EvictMem(c, m, e);
            && Steady(c', m', size, cap) && PinnedWithin(c', n)
            && c'.lru == c.lru[..cap] && c'.hits == c.hits && c'.entries == c.entries - {e.victim}
  {
    hide MayEvict, Listed, Remove, PinnedWithin;
    ListedIsNoDup(c);
    ListedMembers(c);
    assert c.lru[cap] in c.lru;
    assert (c.entries - {e.victim}).Keys == c.entries.Keys - {e.victim};
    RemoveListed(c.lru, c.touches, c.entries.Keys, e.victim);
    RemoveLast(c.lru);
    assert (cap + 1) * size == cap * size + size;
    FewerPinned(c, EvictCache(c, e), n);
  }

  lemma FewerPinned(c: Cache, c': Cache, n: nat)
    requires PinnedWithin(c, n) && c.lru != [] && c'.lru == c.lru[..|c.lru| - 1]
    requires c'.entries == c.entries - {c.lru[|c.lru| - 1]}
    ensures PinnedWithin(c', n)
  {
  }

  lemma RemoveLast(list: seq<Id>)
    requires NoDup(list) && list != []
    ensures Remove(list, list[|list| - 1]) == list[..|list| - 1]
  {
    RemoveAt(list, |list| - 1);
  }

  /** The loop evicts nothing, or exactly the last id of the list. */
  lemma EvictionTrims(c: Cache, m: Mem, run: seq<Eviction>, halt: Pass, size: nat, cap: nat, n: nat)
    requires Swollen(c, m, size, cap) && PinnedWithin(c, n) && n <= cap
    requires EvictionRun(c, m, run, halt) && AllLru(run, halt)
    ensures var c', m' := AfterCache(c, run), AfterMem(c, m, run);
            && Steady(c', m', size, cap) && PinnedWithin(c', n)
            && c'.lru == Prefix(c.lru, cap) && c'.hits == c.hits
            && (forall id: Id :: id in c'.entries ==> id in c.entries && c'.entries[id] == c.entries[id])
  {
    hide Listed, LeastRecent, EvictCache, EvictMem;
    OverBudgetIffMore(|c.lru|, size, cap, c.max);
    if |c.lru| <= cap {
      assert run == [];
    } else {
      LastStays(c, size, cap, halt, n);
      assert run != [];
      LastIsVictim(c, m, run[0], size, cap, n);
      DropLast(c, m, run[0], size, cap, n);
      var c', m' := EvictCache(c, run[0]), EvictMem(c, m, run[0]);
      OverBudgetIffMore(|c'.lru|, size, cap, c'.max);
      assert run[1..] == [];
    }
  }

  lemma LastStays(c: Cache, size: nat, cap: nat, halt: Pass, n: nat)
    requires Listed(c.lru, c.touches, c.entries.Keys) && Uniform(c, size) && halt.hot.Off?
    requires PinnedWithin(c, n) && |c.lru| == cap + 1 && n <= cap
    ensures Candidate(c, Hotset(c, halt), c.lru[cap])
  {
    assert c.lru[cap] in c.lru;
  }

  /** A pinned newcomer at the front may take the cache over its budget, by one expert at most. */
  lemma OneMore(c: Cache, m: Mem, c2: Cache, m2: Mem, id: Id, e: Entry, size: nat, cap: nat, n: nat)
    requires Steady(c, m, size, cap) && PinnedWithin(c, n) && id !in c.entries
    requires c2.lru == [id] + c.lru && c2.touches == c.touches + [id] && c2.entries == c.entries[id := e]
    requires e.loaded && e.ptr.At? && e.size == size && e.waits == 0
    requires c2.max == c.max && m2.occupancy == m.occupancy + size
    ensures Swollen(c2, m2, size, cap) && PinnedWithin(c2, n + 1)
  {
    hide Listed;
    InsertListed(c.lru, c.touches, c.entries.Keys, id);
    assert c2.entries.Keys == c.entries.Keys + {id};
    assert (|c.lru| + 1) * size == |c.lru| * size + size;
    ListedMembers(c);
    forall k | n + 1 <= k < |c2.lru| && c2.lru[k] in c2.entries
      ensures c2.entries[c2.lru[k]].pins == 0
    {
      assert c2.lru[k] == c.lru[k - 1] && c.lru[k - 1] in c.lru;
    }
  }

  lemma ListedIsNoDup(c: Cache)
    requires Listed(c.lru, c.touches, c.entries.Keys)
    ensures NoDup(c.lru)
  {
  }

  lemma ListedMembers(c: Cache)
    requires Listed(c.lru, c.touches, c.entries.Keys)
    ensures forall id: Id :: id in c.lru <==> id in c.entries
  {
  }

  lemma MissStep(c: Cache, m: Mem, id: Id, l: Load, size: nat, cap: nat, n: nat)
    requires Steady(c, m, size, cap) && PinnedWithin(c, n) && n < cap
    requires id !in c.entries && GetLegal(c, m, id, l) && PlainLoad(l, size)
    ensures var c' := GetCache(c, id, l);
            && Steady(c', GetMem(c, m, id, l), size, cap) && PinnedWithin(c', n + 1)
            && c'.lru == Prefix([id] + c.lru, cap) && c'.hits == c.hits
            && (forall x: Id :: x in c'.entries && x in c.entries ==> c'.entries[x] == c.entries[x])
            && (forall x: Id :: x in c'.entries && x !in c.entries ==> x == id && c'.entries[x].pins == 1)
  {
    hide Steady, Swollen, PinnedWithin, EnterGet, LoadedCache, LoadedMem, EvictionRun;
    MissFields(c, m, id, l);
    var c2, m2 := LoadedCache(EnterGet(c, id, l.now), id, l, true), LoadedMem(m, id, l);
    OneMore(c, m, c2, m2, id, Entry(c.created, l.ptr, l.size, 1, 0, true), size, cap, n);
    EvictionTrims(c2, m2, l.run, l.halt, size, cap, n + 1);
  }

  // ----- the stack property of one get -----

  /** With at most the first `n` ids pinned, and room for one more unless the id is resident. */
  lemma GetKeepsStack(c: Cache, m: Mem, id: Id, l: Load, size: nat, cap: nat, list: seq<Id>, n: nat)
    requires Steady(c, m, size, cap) && PinnedWithin(c, n) && cap > 0 && (id in c.entries || n < cap)
    requires GetLegal(c, m, id, l) && PlainLoad(l, size)
    requires NoDup(list) && c.lru == Prefix(list, cap)
    ensures var c' := GetCache(c, id, l);
            && Steady(c', GetMem(c, m, id, l), size, cap) && PinnedWithin(c', n + 1)
            && c'.lru == Prefix(MoveToFront(list, id), cap)
            && c'.hits == c.hits + (if id in Prefix(list, cap) then 1 else 0)
            && (forall x: Id :: x in c'.entries ==>
                  c'.entries[x].pins == (if x in c.entries then c.entries[x].pins else 0) + (if x == id then 1 else 0))
  {
    hide GetLegal, OrderedByTouch, GetCache, GetMem, NoDup;
    assert id in c.lru <==> id in c.entries;
    if id in c.entries {
      HitStep(c, m, id, l, size, cap, n);
      PrefixHit(list, cap, id);
    } else {
      MissStep(c, m, id, l, size, cap, n);
      PrefixMiss(list, cap, id);
    }
  }

  // ----- one layer -----

  predicate Unpinned(c: Cache) {
    forall id: Id :: id in c.entries ==> c.entries[id].pins == 0
  }

  /** The state between layers, against the unbounded list. */
  ghost predicate OnStack(c: Cache, m: Mem, size: nat, cap: nat, list: seq<Id>) {
    Steady(c, m, size, cap) && Unpinned(c) && NoDup(list) && c.lru == Prefix(list, cap)
  }

  function AfterLayer(list: seq<Id>, a: Id, b: Id): seq<Id> {
    MoveToFront(MoveToFront(list, a), b)
  }

  /** Hits of one layer for a cache of `cap` experts, read off the unbounded list. */
  function LayerHits(list: seq<Id>, cap: nat, a: Id, b: Id): nat {
    (if a in Prefix(list, cap) then 1 else 0) + (if b in Prefix(MoveToFront(list, a), cap) then 1 else 0)
  }

  /** Both experts of a layer fit: room for two, or for one if they are the same. */
  predicate RoomForBoth(cap: nat, y: Layer) {
    cap >= 2 || (cap == 1 && y.a == y.b)
  }

  lemma FirstGet(c: Cache, m: Mem, y: Layer, size: nat, cap: nat, list: seq<Id>)
    requires OnStack(c, m, size, cap, list) && cap >= 1
    requires GetLegal(c, m, y.a, y.first) && PlainLoad(y.first, size)
    ensures var c1, m1 := GetCache(c, y.a, y.first), GetMem(c, m, y.a, y.first);
            && Steady(c1, m1, size, cap) && PinnedWithin(c1, 1)
            && c1.lru == Prefix(MoveToFront(list, y.a), cap) && NoDup(MoveToFront(list, y.a))
            && c1.hits == c.hits + (if y.a in Prefix(list, cap) then 1 else 0)
            && y.a in c1.entries
            && forall x: Id :: x in c1.entries ==> c1.entries[x].pins == if x == y.a then 1 else 0
  {
    hide GetLegal, GetCache, GetMem, OrderedByTouch;
    GetKeepsStack(c, m, y.a, y.first, size, cap, list, 0);
    MoveKeepsNoDup(list, y.a);
    var c1 := GetCache(c, y.a, y.first);
    assert c1.lru[0] == y.a && y.a in c1.lru;
  }

  lemma SecondGet(c1: Cache, m1: Mem, y: Layer, size: nat, cap: nat, list: seq<Id>)
    requires Steady(c1, m1, size, cap) && PinnedWithin(c1, 1) && RoomForBoth(cap, y)
    requires NoDup(list) && c1.lru == Prefix(list, cap) && list != [] && list[0] == y.a && y.a in c1.entries
    requires forall x: Id :: x in c1.entries ==> c1.entries[x].pins == if x == y.a then 1 else 0
    requires GetLegal(c1, m1, y.b, y.second) && PlainLoad(y.second, size)
    ensures var c2, m2 := GetCache(c1, y.b, y.second), GetMem(c1, m1, y.b, y.second);
            && Steady(c2, m2, size, cap)
            && c2.lru == Prefix(MoveToFront(list, y.b), cap) && NoDup(MoveToFront(list, y.b))
            && c2.hits == c1.hits + (if y.b in Prefix(list, cap) then 1 else 0)
            && y.a in c2.entries && y.b in c2.entries
            && forall x: Id :: x in c2.entries ==>
                 c2.entries[x].pins == (if x == y.a then 1 else 0) + (if x == y.b then 1 else 0)
  {
    hide GetLegal, GetCache, GetMem, OrderedByTouch;
    GetKeepsStack(c1, m1, y.b, y.second, size, cap, list, 1);
    MoveKeepsNoDup(list, y.b);
    var c2 := GetCache(c1, y.b, y.second);
    assert c2.lru[0] == y.b && y.b in c2.lru;
    if y.a != y.b {
      RemoveFirstStays(list, y.b);
      assert c2.lru[1] == y.a && y.a in c2.lru;
    }
  }

  lemma RemoveFirstStays(list: seq<Id>, x: Id)
    requires list != [] && list[0] != x
    ensures Remove(list, x) != [] && Remove(list, x)[0] == list[0]
  {
  }

  lemma UnpinsRestore(c2: Cache, m: Mem, a: Id, b: Id, size: nat, cap: nat)
    requires Steady(c2, m, size, cap) && a in c2.entries && b in c2.entries
    requires forall x: Id :: x in c2.entries ==> c2.entries[x].pins == (if x == a then 1 else 0) + (if x == b then 1 else 0)
    ensures var c3 := Unpin(Unpin(c2, a), b);
            Steady(c3, m, size, cap) && Unpinned(c3) && c3.lru == c2.lru && c3.hits == c2.hits
  {
    hide OrderedByTouch;
    var c3 := Unpin(Unpin(c2, a), b);
    assert c3.entries.Keys == c2.entries.Keys;
  }

  lemma LayerKeepsStack(c: Cache, m: Mem, y: Layer, size: nat, cap: nat, list: seq<Id>)
    requires OnStack(c, m, size, cap, list) && RoomForBoth(cap, y)
    requires LayerLegal(c, m, y) && PlainLoad(y.first, size) && PlainLoad(y.second, size)
    ensures OnStack(LayerCache(c, m, y), LayerMem(c, m, y), size, cap, AfterLayer(list, y.a, y.b))
    ensures LayerCache(c, m, y).hits == c.hits + LayerHits(list, cap, y.a, y.b)
  {
    hide GetLegal, GetCache, GetMem, Steady, PinnedWithin, PlainLoad, Unpin, NoDup;
    FirstGet(c, m, y, size, cap, list);
    var c1, m1 := GetCache(c, y.a, y.first), GetMem(c, m, y.a, y.first);
    SecondGet(c1, m1, y, size, cap, MoveToFront(list, y.a));
    UnpinsRestore(GetCache(c1, y.b, y.second), GetMem(c1, m1, y.b, y.second), y.a, y.b, size, cap);
  }

  // ----- whole runs -----

  /** The unbounded list after a trace of layers, and the hits a cache of `cap` experts gets on it. */
  function FinalList(trace: seq<(Id, Id)>, list: seq<Id>): seq<Id>
    decreases |trace|
  {
    if trace == [] then list else FinalList(trace[1..], AfterLayer(list, trace[0].0, trace[0].1))
  }

  function StackHits(trace: seq<(Id, Id)>, list: seq<Id>, cap: nat): nat
    decreases |trace|
  {
    if trace == [] then 0
    else
      var a, b := trace[0].0, trace[0].1;
      LayerHits(list, cap, a, b) + StackHits(trace[1..], AfterLayer(list, a, b), cap)
  }

  function Trace(ys: seq<Layer>): seq<(Id, Id)> {
    if ys == [] then [] else [(ys[0].a, ys[0].b)] + Trace(ys[1..])
  }

  ghost predicate PlainRun(ys: seq<Layer>, size: nat) {
    forall k :: 0 <= k < |ys| ==> PlainLoad(ys[k].first, size) && PlainLoad(ys[k].second, size)
  }

  lemma {:induction false} LayersKeepStack(c: Cache, m: Mem, ys: seq<Layer>, size: nat, cap: nat, list: seq<Id>)
    requires OnStack(c, m, size, cap, list) && forall k :: 0 <= k < |ys| ==> RoomForBoth(cap, ys[k])
    requires LayersLegal(c, m, ys) && PlainRun(ys, size)
    ensures OnStack(LayersCache(c, m, ys), LayersMem(c, m, ys), size, cap, FinalList(Trace(ys), list))
    ensures LayersCache(c, m, ys).hits == c.hits + StackHits(Trace(ys), list, cap)
    decreases |ys|
  {
    hide OnStack, LayerLegal, LayerCache, LayerMem, PlainLoad, LayerHits, AfterLayer;
    if ys != [] {
      LayerKeepsStack(c, m, ys[0], size, cap, list);
      LayersKeepStack(LayerCache(c, m, ys[0]), LayerMem(c, m, ys[0]), ys[1..], size, cap, AfterLayer(list, ys[0].a, ys[0].b));
      assert Trace(ys)[1..] == Trace(ys[1..]);
    }
  }

  /** For every trace the resident list is the first C ids of the unbounded cache's list, and the hit
      count is the number of accesses found among its first C ids. */
  lemma StackProperty(max: nat, m: Mem, ys: seq<Layer>, size: nat, cap: nat)
    requires Fits(max, size, cap) && cap >= 2 && m.occupancy == 0
    requires LayersLegal(EmptyCache(max), m, ys) && PlainRun(ys, size)
    ensures var c' := LayersCache(EmptyCache(max), m, ys);
            && c'.lru == Prefix(FinalList(Trace(ys), []), cap)
            && c'.hits == StackHits(Trace(ys), [], cap)
  {
    hide LayersLegal, PlainRun;
    LayersKeepStack(EmptyCache(max), m, ys, size, cap, []);
  }

  lemma PrefixGrows(list: seq<Id>, n: nat, n': nat, id: Id)
    requires n <= n' && id in Prefix(list, n)
    ensures id in Prefix(list, n')
  {
    var k :| 0 <= k < |Prefix(list, n)| && Prefix(list, n)[k] == id;
    PrefixMember(list, n', k);
  }

  lemma {:induction false} MoreRoomMoreHits(trace: seq<(Id, Id)>, list: seq<Id>, n: nat, n': nat)
    requires n <= n'
    ensures StackHits(trace, list, n) <= StackHits(trace, list, n')
    decreases |trace|
  {
    if trace != [] {
      var a, b := trace[0].0, trace[0].1;
      if a in Prefix(list, n) { PrefixGrows(list, n, n', a); }
      if b in Prefix(MoveToFront(list, a), n) { PrefixGrows(MoveToFront(list, a), n, n', b); }
      MoreRoomMoreHits(trace[1..], AfterLayer(list, a, b), n, n');
    }
  }

  /** On the same trace a larger budget never gives fewer hits. */
  lemma LargerBudgetNeverHitsLess(small: nat, large: nat, m: Mem, m': Mem, ys: seq<Layer>, ys': seq<Layer>, size: nat, n: nat, n': nat)
    requires Fits(small, size, n) && Fits(large, size, n') && 2 <= n && small <= large
    requires m.occupancy == m'.occupancy == 0 && Trace(ys) == Trace(ys')
    requires LayersLegal(EmptyCache(small), m, ys) && PlainRun(ys, size)
    requires LayersLegal(EmptyCache(large), m', ys') && PlainRun(ys', size)
    ensures LayersCache(EmptyCache(small), m, ys).hits <= LayersCache(EmptyCache(large), m', ys').hits
  {
    hide LayersLegal, LayersCache, PlainRun, StackHits, FinalList;
    OverBudgetIffMore(n, size, n', large);
    StackProperty(small, m, ys, size, n);
    StackProperty(large, m', ys', size, n');
    MoreRoomMoreHits(Trace(ys), [], n, n');
  }

  // ----- why two experts are needed -----

  /** A load whose published cache has every entry pinned evicts nothing. */
  lemma AllPinnedStays(c: Cache, m: Mem, run: seq<Eviction>, halt: Pass)
    requires EvictionRun(c, m, run, halt)
    requires m.occupancy <= c.max || forall id: Id :: id in c.entries ==> c.entries[id].pins != 0
    ensures run == []
  {
    if run != [] && m.occupancy > c.max {
      VictimIsCandidate(c, run[0].pass, run[0].victim);
    }
  }

  /** Both experts of a layer are pinned and neither can go: two different ones stay resident. */
  lemma TwoPinnedStay(max: nat, m: Mem, y: Layer, size: nat)
    requires y.a != y.b
    requires LayerLegal(EmptyCache(max), m, y) && PlainLoad(y.first, size) && PlainLoad(y.second, size)
    ensures LayerCache(EmptyCache(max), m, y).lru == [y.b, y.a]
  {
    hide EnterGet, LoadedCache, LoadedMem, EvictionRun, Unpin;
    var c := EmptyCache(max);
    MissFields(c, m, y.a, y.first);
    var c1, m1 := GetCache(c, y.a, y.first), GetMem(c, m, y.a, y.first);
    AllPinnedStays(LoadedCache(EnterGet(c, y.a, y.first.now), y.a, y.first, true), LoadedMem(m, y.a, y.first), y.first.run, y.first.halt);
    MissFields(c1, m1, y.b, y.second);
    var c2 := GetCache(c1, y.b, y.second);
    AllPinnedStays(LoadedCache(EnterGet(c1, y.b, y.second.now), y.b, y.second, true), LoadedMem(m1, y.b, y.second), y.second.run, y.second.halt);
    assert c2.lru == [y.b, y.a];
    UnpinKeepsList(c2, y.a);
    UnpinKeepsList(Unpin(c2, y.a), y.b);
  }

  /** Asking for the same expert twice is a miss and a hit. */
  lemma SameTwice(max: nat, m: Mem, y: Layer, size: nat)
    requires y.a == y.b
    requires LayerLegal(EmptyCache(max), m, y) && PlainLoad(y.first, size)
    ensures LayerCache(EmptyCache(max), m, y).lru == [y.a]
  {
    hide EnterGet, LoadedCache, LoadedMem, EvictionRun, Unpin;
    var c := EmptyCache(max);
    MissFields(c, m, y.a, y.first);
    var c1, m1 := GetCache(c, y.a, y.first), GetMem(c, m, y.a, y.first);
    AllPinnedStays(LoadedCache(EnterGet(c, y.a, y.first.now), y.a, y.first, true), LoadedMem(m, y.a, y.first), y.first.run, y.first.halt);
    assert c1.lru == [y.a];
    HitFields(c1, m1, y.a, y.second);
    var c2 := GetCache(c1, y.b, y.second);
    UnpinKeepsList(c2, y.a);
    UnpinKeepsList(Unpin(c2, y.a), y.b);
  }

  /** With a budget of one expert a first layer leaves the stack's list exactly if its two targets are the
      same expert. */
  lemma BudgetOfOneOverflows(max: nat, m: Mem, y: Layer, size: nat)
    requires Fits(max, size, 1) && m.occupancy == 0
    requires LayerLegal(EmptyCache(max), m, y) && PlainLoad(y.first, size) && PlainLoad(y.second, size)
    ensures LayerCache(EmptyCache(max), m, y).lru == Prefix(AfterLayer([], y.a, y.b), 1) <==> y.a == y.b
  {
    hide LayerLegal, LayerCache, PlainLoad;
    if y.a == y.b { SameTwice(max, m, y, size); } else { TwoPinnedStay(max, m, y, size); }
  }

  /** Likewise in the middle of a run that was on the stack so far: two different experts stay resident. */
  lemma DifferentOverflow(c: Cache, m: Mem, y: Layer, size: nat, list: seq<Id>)
    requires OnStack(c, m, size, 1, list) && y.a != y.b
    requires LayerLegal(c, m, y) && PlainLoad(y.first, size) && PlainLoad(y.second, size)
    ensures LayerCache(c, m, y).lru == [y.b, y.a]
  {
    hide EnterGet, LoadedCache, LoadedMem, EvictionRun, Unpin, GetCache, GetMem, OrderedByTouch, Steady;
    FirstGet(c, m, y, size, 1, list);
    var c1, m1 := GetCache(c, y.a, y.first), GetMem(c, m, y.a, y.first);
    OnlyOne(c1, m1, size, y.a, MoveToFront(list, y.a));
    OverflowAfter(c1, m1, y);
  }

  lemma OnlyOne(c: Cache, m: Mem, size: nat, a: Id, list: seq<Id>)
    requires Steady(c, m, size, 1) && list != [] && list[0] == a && c.lru == Prefix(list, 1)
    ensures c.lru == [a] && forall x: Id :: x in c.entries <==> x == a
  {
    assert forall x: Id :: x in c.lru <==> x in c.entries;
  }

  lemma OverflowAfter(c1: Cache, m1: Mem, y: Layer)
    requires c1.lru == [y.a] && (forall x: Id :: x in c1.entries <==> x == y.a) && c1.entries[y.a].pins == 1
    requires y.a != y.b && GetLegal(c1, m1, y.b, y.second) && y.second.ptr.At?
    ensures Unpin(Unpin(GetCache(c1, y.b, y.second), y.a), y.b).lru == [y.b, y.a]
  {
    hide EnterGet, LoadedCache, LoadedMem, EvictionRun, Unpin;
    MissFields(c1, m1, y.b, y.second);
    var c2 := GetCache(c1, y.b, y.second);
    AllPinnedStays(LoadedCache(EnterGet(c1, y.b, y.second.now), y.b, y.second, true), LoadedMem(m1, y.b, y.second), y.second.run, y.second.halt);
    assert c2.lru == [y.b, y.a];
    UnpinKeepsList(c2, y.a);
    UnpinKeepsList(Unpin(c2, y.a), y.b);
  }

  lemma {:induction false} LayersPrefix(c: Cache, m: Mem, ys: seq<Layer>, k: nat)
    requires LayersLegal(c, m, ys) && k <= |ys|
    ensures LayersLegal(c, m, ys[..k])
    ensures k < |ys| ==> LayerLegal(LayersCache(c, m, ys[..k]), LayersMem(c, m, ys[..k]), ys[k])
    decreases |ys|
  {
    hide LayerLegal, LayerCache, LayerMem;
    if k > 0 {
      assert ys[..k][0] == ys[0] && ys[..k][1..] == ys[1..][..k - 1];
      LayersPrefix(LayerCache(c, m, ys[0]), LayerMem(c, m, ys[0]), ys[1..], k - 1);
    }
  }

  /** After the first `k` layers the resident list is a prefix of the unbounded one. */
  ghost predicate OnStackAfter(max: nat, m: Mem, ys: seq<Layer>, cap: nat, k: nat)
    requires k <= |ys|
  {
    LayersCache(EmptyCache(max), m, ys[..k]).lru == Prefix(FinalList(Trace(ys[..k]), []), cap)
  }

  lemma RoomStaysOnStack(max: nat, m: Mem, ys: seq<Layer>, size: nat, cap: nat, k: nat)
    requires Fits(max, size, cap) && m.occupancy == 0 && k <= |ys|
    requires LayersLegal(EmptyCache(max), m, ys) && PlainRun(ys, size) && forall i :: 0 <= i < k ==> RoomForBoth(cap, ys[i])
    ensures OnStack(LayersCache(EmptyCache(max), m, ys[..k]), LayersMem(EmptyCache(max), m, ys[..k]), size, cap, FinalList(Trace(ys[..k]), []))
    ensures OnStackAfter(max, m, ys, cap, k)
  {
    hide LayersLegal, LayersCache, LayersMem, FinalList, Trace, PlainLoad, RoomForBoth;
    LayersPrefix(EmptyCache(max), m, ys, k);
    assert forall i :: 0 <= i < k ==> ys[..k][i] == ys[i];
    LayersKeepStack(EmptyCache(max), m, ys[..k], size, cap, []);
  }

  /** The first layer whose experts do not both fit leaves the stack. */
  lemma NoRoomLeavesStack(max: nat, m: Mem, ys: seq<Layer>, size: nat, cap: nat, k: nat)
    requires Fits(max, size, cap) && m.occupancy == 0 && k < |ys|
    requires LayersLegal(EmptyCache(max), m, ys) && PlainRun(ys, size)
    requires (forall i :: 0 <= i < k ==> RoomForBoth(cap, ys[i])) && !RoomForBoth(cap, ys[k])
    ensures !OnStackAfter(max, m, ys, cap, k + 1)
  {
    hide LayersLegal, LayersCache, LayersMem, FinalList, Trace, LayerLegal, LayerCache, LayerMem, PlainLoad, OnStack;
    var c, m' := LayersCache(EmptyCache(max), m, ys[..k]), LayersMem(EmptyCache(max), m, ys[..k]);
    LayersPrefix(EmptyCache(max), m, ys, k);
    LayersExtend(EmptyCache(max), m, ys[..k], ys[k]);
    assert ys[..k + 1] == ys[..k] + [ys[k]];
    if cap == 1 {
      RoomStaysOnStack(max, m, ys, size, cap, k);
      DifferentOverflow(c, m', ys[k], size, FinalList(Trace(ys[..k]), []));
    } else {
      assert !RoomForBoth(cap, ys[0]);
      assert ys[..k] == ys[..0];
      NoLayers(max, m, ys);
      FirstLayerStays(max, m, ys[k], size);
    }
  }

  lemma NoLayers(max: nat, m: Mem, ys: seq<Layer>)
    ensures LayersCache(EmptyCache(max), m, ys[..0]) == EmptyCache(max) && LayersMem(EmptyCache(max), m, ys[..0]) == m
  {
  }

  lemma FirstLayerStays(max: nat, m: Mem, y: Layer, size: nat)
    requires LayerLegal(EmptyCache(max), m, y) && PlainLoad(y.first, size) && PlainLoad(y.second, size)
    ensures LayerCache(EmptyCache(max), m, y).lru != []
  {
    hide LayerLegal, LayerCache, PlainLoad;
    if y.a == y.b { SameTwice(max, m, y, size); } else { TwoPinnedStay(max, m, y, size); }
  }

  /** Over whole runs: the resident list is the stack's prefix after every layer exactly if the budget has room
      for both experts of every layer, that is, for two, or for one and every layer asks twice for the same. */
  lemma OnStackThroughoutIff(max: nat, m: Mem, ys: seq<Layer>, size: nat, cap: nat)
    requires Fits(max, size, cap) && m.occupancy == 0
    requires LayersLegal(EmptyCache(max), m, ys) && PlainRun(ys, size)
    ensures (forall k :: 0 <= k <= |ys| ==> OnStackAfter(max, m, ys, cap, k))
       <==> forall k :: 0 <= k < |ys| ==> RoomForBoth(cap, ys[k])
  {
    hide LayersLegal, PlainRun, OnStackAfter, RoomForBoth;
    if forall k :: 0 <= k < |ys| ==> RoomForBoth(cap, ys[k]) {
      forall k | 0 <= k <= |ys|
        ensures OnStackAfter(max, m, ys, cap, k)
      {
        RoomStaysOnStack(max, m, ys, size, cap, k);
      }
    } else {
      var k := FirstWithoutRoom(ys, cap, 0);
      NoRoomLeavesStack(max, m, ys, size, cap, k);
    }
  }

  lemma FirstWithoutRoom(ys: seq<Layer>, cap: nat, from: nat) returns (k: nat)
    requires from <= |ys| && forall i :: 0 <= i < from ==> RoomForBoth(cap, ys[i])
    requires !forall i :: 0 <= i < |ys| ==> RoomForBoth(cap, ys[i])
    ensures k < |ys| && !RoomForBoth(cap, ys[k]) && forall i :: 0 <= i < k ==> RoomForBoth(cap, ys[i])
    decreases |ys| - from
  {
    hide RoomForBoth;
    if from < |ys| && RoomForBoth(cap, ys[from]) { k := FirstWithoutRoom(ys, cap, from + 1); } else { k := from; }
  }

  lemma UnpinKeepsList(c: Cache, id: Id)
    ensures Unpin(c, id).lru == c.lru
  {
  }
}
