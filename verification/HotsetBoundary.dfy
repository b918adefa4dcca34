/** Experts of one size under LRU: exactly when some outcome of the sort lets the loop evict an expert that its
    first pass protects. */
module HotsetBoundary {
  import opened Sums
  import opened CacheModel
  import opened Eviction
  import opened TieOrders = Hotset
  import opened HotsetTies

  // ----- sorted orders exist -----

  function IndexOf(s: seq<Id>, x: Id): (k: nat)
    ensures k <= |s| && (k < |s| ==> s[k] == x) && (x in s ==> k < |s|)
  {
    if s == [] || s[0] == x then 0 else 1 + IndexOf(s[1..], x)
  }

  lemma IndexAt(s: seq<Id>, k: nat)
    requires NoDup(s) && k < |s|
    ensures IndexOf(s, s[k]) == k
  {
    assert s[k] in s;
  }

  ghost predicate Injective(rank: Id -> int, ids: set<Id>) {
    forall x, y :: x in ids && y in ids && x != y ==> rank(x) != rank(y)
  }

  /** The first place of an ordered list that comes after `x`. */
  lemma PlaceFor(stats: map<Id, Stats>, rank: Id -> int, order: seq<Id>, x: Id) returns (p: nat)
    requires forall k :: 0 <= k < |order| ==> Before(stats, rank, order[k], x) || Before(stats, rank, x, order[k])
    requires forall i, j :: 0 <= i < j < |order| ==> Before(stats, rank, order[i], order[j])
    ensures p <= |order|
    ensures forall k :: 0 <= k < p ==> Before(stats, rank, order[k], x)
    ensures forall k :: p <= k < |order| ==> Before(stats, rank, x, order[k])
  {
    p := 0;
    while p < |order| && Before(stats, rank, order[p], x)
      invariant p <= |order| && forall k :: 0 <= k < p ==> Before(stats, rank, order[k], x)
    {
      p := p + 1;
    }
  }

  lemma {:induction false} RankedExists(stats: map<Id, Stats>, rank: Id -> int, ids: set<Id>) returns (order: seq<Id>)
    requires Injective(rank, ids)
    ensures Ranked(stats, rank, ids, order)
    decreases |ids|
  {
    if ids == {} {
      order := [];
    } else {
      var x :| x in ids;
      var rest := RankedExists(stats, rank, ids - {x});
      forall k | 0 <= k < |rest|
        ensures Before(stats, rank, rest[k], x) || Before(stats, rank, x, rest[k])
      {
        assert rest[k] in rest;
      }
      var p := PlaceFor(stats, rank, rest, x);
      order := rest[..p] + [x] + rest[p..];
      assert forall y: Id :: y in order <==> y in rest || y == x;
    }
  }

  // ----- quiet caches of one size -----

  /** Everything resident is a loaded mapping of one size that nobody holds or awaits. */
  ghost predicate Quiet(c: Cache, m: Mem, size: nat) {
    && NoDup(c.lru) && (forall id: Id :: id in c.lru <==> id in c.entries)
    && (forall id: Id :: id in c.entries ==> Evictable(c.entries[id]) && c.entries[id].ptr.At?)
    && OneSize(c, size) && m.occupancy == |c.lru| * size
  }

  /** LRU throughout, with the same hotset limit. */
  ghost predicate LruHot(run: seq<Eviction>, limit: nat) {
    HotThroughout(run, limit) && forall k :: 0 <= k < |run| ==> run[k].pass.policy.LRU?
  }

  function LruPass(limit: nat, order: seq<Id>): Pass {
    Pass(LRU, On(limit), order, 0.0, 0)
  }

  lemma Listing(c: Cache, m: Mem, size: nat, k: nat)
    requires Quiet(c, m, size) && k < |c.lru|
    ensures c.lru[k] in c.entries && IndexOf(c.lru, c.lru[k]) == k
    ensures forall hotset: set<Id> :: Candidate(c, hotset, c.lru[k]) <==> c.lru[k] !in hotset
  {
    assert c.lru[k] in c.lru;
    IndexAt(c.lru, k);
  }

  lemma IndexInjective(c: Cache, m: Mem, size: nat)
    requires Quiet(c, m, size)
    ensures forall x: Id, y: Id :: x in c.entries && y in c.entries && x != y ==> IndexOf(c.lru, x) != IndexOf(c.lru, y)
    ensures forall x: Id :: x in c.entries ==> IndexOf(c.lru, x) < |c.lru| && c.lru[IndexOf(c.lru, x)] == x
  {
  }

  lemma QuietDiscard(c: Cache, m: Mem, size: nat, k: nat, p: Pass)
    requires Quiet(c, m, size) && k < |c.lru|
    ensures var e := Eviction(p, c.lru[k]);
            && Quiet(EvictCache(c, e), EvictMem(c, m, e), size)
            && EvictCache(c, e).lru == c.lru[..k] + c.lru[k + 1..] && EvictCache(c, e).max == c.max
  {
    hide NoDup, Remove;
    assert c.lru[k] in c.lru;
    RemovedPlace(c.lru, k);
    assert |c.lru| * size == (|c.lru| - 1) * size + size;
  }

  lemma RemovedPlace(list: seq<Id>, k: nat)
    requires NoDup(list) && k < |list|
    ensures NoDup(Remove(list, list[k])) && Remove(list, list[k]) == list[..k] + list[k + 1..]
    ensures |Remove(list, list[k])| == |list| - 1
  {
    RemoveAt(list, k);
    RemoveNoDup(list, list[k]);
  }

  /** The victim is the last place of the list that is not protected. */
  lemma VictimPlace(c: Cache, m: Mem, size: nat, p: Pass, v: Id) returns (k: nat)
    requires Quiet(c, m, size) && p.policy.LRU? && IsVictim(c, p, v)
    ensures k < |c.lru| && c.lru[k] == v && v !in Hotset(c, p)
    ensures forall j :: k < j < |c.lru| ==> c.lru[j] in Hotset(c, p)
  {
    k := PositionOfLeastRecent(c, Hotset(c, p), v);
    forall j | k < j < |c.lru|
      ensures c.lru[j] in Hotset(c, p)
    {
      Listing(c, m, size, j);
    }
  }

  /** Any run can be completed. */
  lemma {:induction false} FinishLru(c: Cache, m: Mem, size: nat, limit: nat) returns (run: seq<Eviction>, halt: Pass)
    requires Quiet(c, m, size)
    ensures EvictionRun(c, m, run, halt) && LruHot(run, limit)
    decreases |c.lru|
  {
    IndexInjective(c, m, size);
    var rank := (id: Id) => IndexOf(c.lru, id);
    var order := RankedExists(c.stats, rank, c.entries.Keys);
    RankedIsSorted(c, rank, order);
    halt := LruPass(limit, order);
    run := [];
    if m.occupancy > c.max && exists id: Id :: Candidate(c, Hotset(c, halt), id) {
      var id: Id :| Candidate(c, Hotset(c, halt), id);
      var v := LeastRecentExists(c, Hotset(c, halt), id);
      run, halt := EvictFirst(c, m, size, limit, halt, v);
    }
  }

  /** One eviction and then any completion. */
  lemma {:induction false} EvictFirst(c: Cache, m: Mem, size: nat, limit: nat, p: Pass, v: Id) returns (run: seq<Eviction>, halt: Pass)
    requires Quiet(c, m, size) && m.occupancy > c.max && HotPass(c, p, limit) && p.policy.LRU? && IsVictim(c, p, v)
    ensures EvictionRun(c, m, run, halt) && LruHot(run, limit) && run != [] && run[0] == Eviction(p, v)
    decreases |c.lru|, 0
  {
    hide Quiet, IsVictim, HotPass, EvictCache, EvictMem;
    var e := Eviction(p, v);
    var k := VictimPlace(c, m, size, p, v);
    QuietDiscard(c, m, size, k, p);
    var rest, h := FinishLru(EvictCache(c, e), EvictMem(c, m, e), size, limit);
    run, halt := [e] + rest, h;
    Prepend(c, m, e, rest, halt, limit);
  }

  lemma Prepend(c: Cache, m: Mem, e: Eviction, rest: seq<Eviction>, halt: Pass, limit: nat)
    requires EvictionRun(EvictCache(c, e), EvictMem(c, m, e), rest, halt) && LruHot(rest, limit)
    requires m.occupancy > c.max && HotPass(c, e.pass, limit) && e.pass.policy.LRU? && IsVictim(c, e.pass, e.victim)
    ensures EvictionRun(c, m, [e] + rest, halt) && LruHot([e] + rest, limit)
  {
    hide IsVictim, SortedByFrequency, EvictCache, EvictMem;
    assert ([e] + rest)[1..] == rest;
  }

  // ----- the experts whose protection is open -----

  lemma SameClass(c: Cache, h: nat, x: Id, y: Id)
    requires Open(c, h, x) && y in c.entries
    ensures Frequency(c, x) == Frequency(c, y) ==>
              Above(c, x) == Above(c, y) && AtLeast(c, x) == AtLeast(c, y) && Open(c, h, y)
    ensures Open(c, h, y) ==> Frequency(c, x) == Frequency(c, y)
    ensures Never(c, h, y) ==> Frequency(c, y) < Frequency(c, x)
  {
    SubsetCounts(c, x, y);
    SubsetCounts(c, y, x);
  }

  /** The least recent open expert stands at place `q`. */
  ghost predicate LastOpen(c: Cache, h: nat, q: nat) {
    q < |c.lru| && Open(c, h, c.lru[q]) && forall j :: q < j < |c.lru| ==> !Open(c, h, c.lru[j])
  }

  lemma {:induction false} LastOpenExists(c: Cache, h: nat, k: nat) returns (q: nat)
    requires k < |c.lru| && Open(c, h, c.lru[k])
    ensures LastOpen(c, h, q)
    decreases |c.lru| - k
  {
    if next :| k < next < |c.lru| && Open(c, h, c.lru[next]) {
      q := LastOpenExists(c, h, next);
    } else {
      q := k;
    }
  }

  /** The never protected experts less recent than place `q`. */
  function Behind(c: Cache, h: nat, q: nat): set<Id> {
    if q < |c.lru| then set y: Id | y in c.lru[q + 1..] && Never(c, h, y) else {}
  }

  ghost predicate NeverAfter(c: Cache, h: nat, q: nat, y: Id) {
    exists j :: q < j < |c.lru| && c.lru[j] == y && Never(c, h, y)
  }

  lemma BehindAt(c: Cache, h: nat, q: nat, y: Id)
    requires q < |c.lru|
    ensures y in Behind(c, h, q) <==> NeverAfter(c, h, q, y)
  {
    if y in c.lru[q + 1..] {
      var i :| 0 <= i < |c.lru[q + 1..]| && c.lru[q + 1..][i] == y;
      assert c.lru[q + 1 + i] == y;
    }
    if j :| q < j < |c.lru| && c.lru[j] == y {
      assert c.lru[q + 1..][j - q - 1] == y;
    }
  }

  lemma ListWithout(c: Cache, k: nat)
    requires NoDup(c.lru) && k < |c.lru|
    ensures var l := Discard(c, c.lru[k]).lru;
            && l == c.lru[..k] + c.lru[k + 1..] && |l| == |c.lru| - 1
            && (forall j :: 0 <= j < k ==> l[j] == c.lru[j]) && (forall j :: k <= j < |l| ==> l[j] == c.lru[j + 1])
  {
    RemoveAt(c.lru, k);
  }

  /** Evicting a never protected expert from behind leaves the rest of the picture as it was. */
  lemma BehindShrinks(c: Cache, m: Mem, size: nat, h: nat, q: nat, k: nat)
    requires Quiet(c, m, size) && LastOpen(c, h, q) && q < k < |c.lru| && Never(c, h, c.lru[k])
    ensures var c' := Discard(c, c.lru[k]);
            && LastOpen(c', h, q) && c'.lru[q] == c.lru[q]
            && Behind(c', h, q) == Behind(c, h, q) - {c.lru[k]} && c.lru[k] in Behind(c, h, q)
  {
    hide Open, Never, Behind, OneSize, Discard;
    var v := c.lru[k];
    var c' := Discard(c, v);
    ListWithout(c, k);
    DiscardFields(c, v);
    assert c.lru[q] in c.lru && c.lru[q] != v;
    NeverGoes(c, h, v, c.lru[q]);
    forall j | q < j < |c'.lru|
      ensures !Open(c', h, c'.lru[j])
    {
      var i := if j < k then j else j + 1;
      assert c'.lru[j] == c.lru[i] && c.lru[i] in c.lru && c.lru[i] != v;
      NeverGoes(c, h, v, c.lru[i]);
    }
    BehindAt(c, h, q, v);
    forall y: Id
      ensures y in Behind(c', h, q) <==> y in Behind(c, h, q) - {v}
    {
      BehindAt(c, h, q, y);
      BehindAt(c', h, q, y);
      BehindBefore(c, c', h, q, k, y);
      BehindStays(c, c', h, q, k, y);
    }
  }

  lemma BehindBefore(c: Cache, c': Cache, h: nat, q: nat, k: nat, y: Id)
    requires NoDup(c.lru) && (forall id: Id :: id in c.lru <==> id in c.entries)
    requires q < k < |c.lru| && Never(c, h, c.lru[k]) && c' == Discard(c, c.lru[k]) && c'.lru == c.lru[..k] + c.lru[k + 1..]
    ensures NeverAfter(c', h, q, y) ==> y != c.lru[k] && NeverAfter(c, h, q, y)
  {
    hide Never, Discard;
    if NeverAfter(c', h, q, y) {
      var j :| q < j < |c'.lru| && c'.lru[j] == y && Never(c', h, y);
      var i := if j < k then j else j + 1;
      assert c.lru[i] == y && y in c.lru && y != c.lru[k];
      NeverGoes(c, h, c.lru[k], y);
    }
  }

  lemma BehindStays(c: Cache, c': Cache, h: nat, q: nat, k: nat, y: Id)
    requires forall id: Id :: id in c.lru <==> id in c.entries
    requires q < k < |c.lru| && Never(c, h, c.lru[k]) && c' == Discard(c, c.lru[k]) && c'.lru == c.lru[..k] + c.lru[k + 1..]
    ensures y != c.lru[k] && NeverAfter(c, h, q, y) ==> NeverAfter(c', h, q, y)
  {
    hide Never, Discard;
    if y != c.lru[k] && NeverAfter(c, h, q, y) {
      var j :| q < j < |c.lru| && c.lru[j] == y && Never(c, h, y);
      var i := if j < k then j else j - 1;
      assert c'.lru[i] == y && y in c.lru;
      NeverGoes(c, h, c.lru[k], y);
    }
  }

  // ----- two ways to order ties -----

  lemma PlacesBefore(c: Cache, rank: Id -> int, order: seq<Id>, k: nat, y: Id) returns (j: nat)
    requires Ranked(c.stats, rank, c.entries.Keys, order) && k < |order| && y in c.entries && y != order[k]
    ensures j < |order| && order[j] == y && (Before(c.stats, rank, y, order[k]) <==> j < k)
  {
    assert y in order;
    j :| 0 <= j < |order| && order[j] == y;
  }

  lemma CountIsFrequency(c: Cache, y: Id)
    ensures CountIn(c.stats, y) == Frequency(c, y)
  {
  }

  /** Ordering ties by recency, most recent first, leaves the least recent open expert unprotected. */
  lemma MostRecentFirst(c: Cache, m: Mem, p: Pass, limit: nat, size: nat, h: nat, q: nat)
    requires Quiet(c, m, size) && LastOpen(c, h, q) && Fits(limit, size, h) && HotPass(c, p, limit)
    requires Ranked(c.stats, (id: Id) => IndexOf(c.lru, id), c.entries.Keys, p.order)
    ensures c.lru[q] !in Hotset(c, p)
  {
    hide Greedy, Open, Fits, SortedByFrequency;
    var x := c.lru[q];
    Listing(c, m, size, q);
    var k := PlaceOf(c, p, limit, x);
    var rank := (id: Id) => IndexOf(c.lru, id);
    forall y | y in AtLeast(c, x) - {x}
      ensures y in p.order[..k]
    {
      SameClass(c, h, x, y);
      var i := IndexOf(c.lru, y);
      assert y in c.lru && c.lru[i] == y;
      CountIsFrequency(c, x);
      CountIsFrequency(c, y);
      var j := PlacesBefore(c, rank, p.order, k, y);
      assert p.order[..k][j] == y;
    }
    PrefixCard(p.order, k, AtLeast(c, x) - {x});
    assert k >= |AtLeast(c, x) - {x}|;
    OpenBounds(c, h, x);
    HotByPosition(c, p, limit, size, h, k);
  }

  lemma OpenBounds(c: Cache, h: nat, x: Id)
    requires Open(c, h, x)
    ensures x in AtLeast(c, x) && |AtLeast(c, x) - {x}| >= h && |Above(c, x)| < h
  {
  }

  lemma PrefixCard(order: seq<Id>, k: nat, ids: set<Id>)
    requires k <= |order| && forall y :: y in ids ==> y in order[..k]
    ensures |ids| <= k
  {
    Subset(ids, Elements(order[..k]));
    ElementsAtMost(order[..k]);
  }

  lemma {:induction false} ElementsAtMost(s: seq<Id>)
    ensures |Elements(s)| <= |s|
  {
    if s != [] {
      ElementsAtMost(s[1..]);
      assert Elements(s) == {s[0]} + Elements(s[1..]);
    }
  }

  /** Least recent first, it is protected. */
  lemma LeastRecentFirst(c: Cache, m: Mem, p: Pass, limit: nat, size: nat, h: nat, q: nat)
    requires Quiet(c, m, size) && LastOpen(c, h, q) && Fits(limit, size, h) && HotPass(c, p, limit)
    requires Ranked(c.stats, (id: Id) => 0 - IndexOf(c.lru, id), c.entries.Keys, p.order)
    ensures c.lru[q] in Hotset(c, p)
  {
    hide Greedy, Open, Fits, SortedByFrequency;
    var x := c.lru[q];
    Listing(c, m, size, q);
    var k := PlaceOf(c, p, limit, x);
    var rank := (id: Id) => 0 - IndexOf(c.lru, id);
    forall j | 0 <= j < k
      ensures p.order[j] in Above(c, x)
    {
      var y := p.order[j];
      assert y in p.order && Before(c.stats, rank, y, p.order[k]);
      SameClass(c, h, x, y);
      var i := IndexOf(c.lru, y);
      assert y in c.lru && c.lru[i] == y;
      CountIsFrequency(c, x);
      CountIsFrequency(c, y);
    }
    AllAbove(c, p, k, x);
    OpenBounds(c, h, x);
    HotByPosition(c, p, limit, size, h, k);
  }

  lemma AllAbove(c: Cache, p: Pass, k: nat, x: Id)
    requires SortedByFrequency(c, p.order) && k < |p.order|
    requires forall j :: 0 <= j < k ==> p.order[j] in Above(c, x)
    ensures k <= |Above(c, x)|
  {
    hide Above;
    ElementsCount(p.order[..k]);
    forall y | y in Elements(p.order[..k])
      ensures y in Above(c, x)
    {
      var j :| 0 <= j < k && p.order[..k][j] == y;
    }
    Subset(Elements(p.order[..k]), Above(c, x));
  }

  // ----- a run that evicts a protected expert -----

  /** A first pass exists with ties ordered by the given rank, and it has a victim. */
  lemma FirstPass(c: Cache, m: Mem, limit: nat, size: nat, h: nat, rank: Id -> int) returns (p: Pass, v: Id, k: nat)
    requires Quiet(c, m, size) && Fits(limit, size, h) && Injective(rank, c.entries.Keys) && |c.lru| > h
    ensures HotPass(c, p, limit) && p.policy.LRU? && Ranked(c.stats, rank, c.entries.Keys, p.order)
    ensures IsVictim(c, p, v) && k < |c.lru| && c.lru[k] == v && v !in Hotset(c, p)
    ensures forall j :: k < j < |c.lru| ==> c.lru[j] in Hotset(c, p)
  {
    hide Greedy, Hotset, Fits, LeastRecent, Before;
    var order := RankedExists(c.stats, rank, c.entries.Keys);
    RankedIsSorted(c, rank, order);
    p := LruPass(limit, order);
    SameLength(c, m, size, order);
    HotByPosition(c, p, limit, size, h, h);
    assert order[h] in order;
    assert Candidate(c, Hotset(c, p), order[h]);
    v := LeastRecentExists(c, Hotset(c, p), order[h]);
    assert IsVictim(c, p, v);
    k := VictimPlace(c, m, size, p, v);
  }

  lemma SameLength(c: Cache, m: Mem, size: nat, order: seq<Id>)
    requires Quiet(c, m, size) && SortedByFrequency(c, order)
    ensures |order| == |c.lru|
  {
    ElementsCount(order);
    ElementsCount(c.lru);
    assert Elements(order) == Elements(c.lru);
  }

  lemma IndexRanks(c: Cache, m: Mem, size: nat)
    requires Quiet(c, m, size)
    ensures Injective((id: Id) => IndexOf(c.lru, id), c.entries.Keys)
    ensures Injective((id: Id) => 0 - IndexOf(c.lru, id), c.entries.Keys)
  {
    IndexInjective(c, m, size);
  }

  /** A victim that the hotset does not hold is open or never protected. */
  lemma VictimClass(c: Cache, p: Pass, limit: nat, size: nat, h: nat, v: Id)
    requires OneSize(c, size) && HotPass(c, p, limit) && Fits(limit, size, h) && v in c.entries && v !in Hotset(c, p)
    ensures Open(c, h, v) || Never(c, h, v)
  {
    hide Open, Never, Sure;
    SureIsHot(c, p, limit, size, h, v);
    ClassesAreResident(c, h, v);
  }

  ghost predicate Evicts(run: seq<Eviction>, x: Id) {
    exists k :: 0 <= k < |run| && run[k].victim == x
  }

  lemma PrependEvicts(e: Eviction, rest: seq<Eviction>, x: Id)
    requires Evicts(rest, x)
    ensures Evicts([e] + rest, x)
  {
    var k :| 0 <= k < |rest| && rest[k].victim == x;
    assert ([e] + rest)[k + 1].victim == x;
  }

  /** From here on, preferring the more recent of equals, the loop gets to the least recent open expert if it
      evicts more than what lies behind it unprotected. */
  lemma {:induction false} EvictOpen(c: Cache, m: Mem, limit: nat, size: nat, h: nat, f: nat, q: nat)
      returns (run: seq<Eviction>, halt: Pass)
    requires Quiet(c, m, size) && Fits(limit, size, h) && Fits(c.max, size, f) && h <= f
    requires LastOpen(c, h, q) && |c.lru| > f + |Behind(c, h, q)|
    ensures EvictionRun(c, m, run, halt) && LruHot(run, limit) && Evicts(run, c.lru[q])
    decreases |c.lru|
  {
    hide Quiet, Fits, LastOpen, Behind, IsVictim, Hotset, EvictionRun, LruHot, Evicts, Ranked, Open, Never, HotPass, Discard, EvictMem;
    IndexRanks(c, m, size);
    var p, v, k := FirstPass(c, m, limit, size, h, (id: Id) => IndexOf(c.lru, id));
    MostRecentFirst(c, m, p, limit, size, h, q);
    StillOver(c, m, size, f);
    var e := Eviction(p, v);
    QuietDiscard(c, m, size, k, p);
    assert q < |c.lru| by { OpenPlace(c, h, q); }
    assert k >= q;
    if k == q {
      run, halt := EvictFirst(c, m, size, limit, p, v);
      assert Evicts(run, v) by { EvictsFirst(run); }
    } else {
      BehindVictimNever(c, m, size, p, limit, h, q, k);
      BehindShrinks(c, m, size, h, q, k);
      var rest, hlt := EvictOpen(EvictCache(c, e), EvictMem(c, m, e), limit, size, h, f, q);
      run, halt := [e] + rest, hlt;
      Prepend(c, m, e, rest, halt, limit);
      PrependEvicts(e, rest, c.lru[q]);
    }
  }

  lemma OpenPlace(c: Cache, h: nat, q: nat)
    requires LastOpen(c, h, q)
    ensures q < |c.lru| && Open(c, h, c.lru[q])
  {
  }

  lemma EvictsFirst(run: seq<Eviction>)
    requires run != []
    ensures Evicts(run, run[0].victim)
  {
  }

  lemma StillOver(c: Cache, m: Mem, size: nat, f: nat)
    requires Quiet(c, m, size) && Fits(c.max, size, f)
    ensures |c.lru| > f <==> m.occupancy > c.max
  {
    OverBudgetIffMore(|c.lru|, size, f, c.max);
  }

  lemma BehindVictimNever(c: Cache, m: Mem, size: nat, p: Pass, limit: nat, h: nat, q: nat, k: nat)
    requires Quiet(c, m, size) && Fits(limit, size, h) && HotPass(c, p, limit) && LastOpen(c, h, q)
    requires q < k < |c.lru| && c.lru[k] !in Hotset(c, p)
    ensures Never(c, h, c.lru[k])
  {
    hide Hotset, Open, Never, Fits;
    assert c.lru[k] in c.lru;
    VictimClass(c, p, limit, size, h, c.lru[k]);
  }

  // ----- the condition -----

  /** Two experts are equals at the boundary that the least recent open one can use: a third of its class, or a
      never protected expert less recent than one of the class. */
  ghost predicate RoomToRotate(c: Cache, h: nat, q: nat) {
    || (q < |c.lru| && |AtLeast(c, c.lru[q])| >= h + 2)
    || exists i, j :: 0 <= i < j < |c.lru| && Open(c, h, c.lru[i]) && Never(c, h, c.lru[j])
  }

  /** `h` experts are protected, `f` fit into the budget. Some expert's protection is open to the sort; the loop
      evicts at least twice, and more often than there are never protected experts behind the least recent
      open one; and there is room to rotate. */
  ghost predicate Exposed(c: Cache, h: nat, f: nat) {
    exists q :: LastOpen(c, h, q) && RoomToRotate(c, h, q) && |c.lru| >= f + 2 && |c.lru| > f + |Behind(c, h, q)|
  }

  /** If the first victim is open itself, its class has a third member. */
  lemma ThirdMember(c: Cache, m: Mem, p: Pass, limit: nat, size: nat, h: nat, q: nat, k: nat)
    requires Quiet(c, m, size) && Fits(limit, size, h) && HotPass(c, p, limit) && LastOpen(c, h, q) && RoomToRotate(c, h, q)
    requires Ranked(c.stats, (id: Id) => 0 - IndexOf(c.lru, id), c.entries.Keys, p.order)
    requires k < |c.lru| && c.lru[k] !in Hotset(c, p) && Open(c, h, c.lru[k])
    requires forall j :: k < j < |c.lru| ==> c.lru[j] in Hotset(c, p)
    ensures |AtLeast(c, c.lru[q])| >= h + 2
  {
    hide Hotset, Fits, SortedByFrequency, Above, AtLeast, Open, Never;
    if |AtLeast(c, c.lru[q])| < h + 2 {
      var i, j :| 0 <= i < j < |c.lru| && Open(c, h, c.lru[i]) && Never(c, h, c.lru[j]);
      SureIsHot(c, p, limit, size, h, c.lru[j]);
      ClassesExclusive(c, h, c.lru[j]);
      assert i < k;
      LaterPlace(c, m, p, limit, size, h, i, k);
      Listing(c, m, size, q);
      SameClass(c, h, c.lru[i], c.lru[q]);
    }
  }

  /** Of two open experts the more recent one stands later, so it has `h + 1` others before it. */
  lemma LaterPlace(c: Cache, m: Mem, p: Pass, limit: nat, size: nat, h: nat, i: nat, k: nat)
    requires Quiet(c, m, size) && Fits(limit, size, h) && HotPass(c, p, limit)
    requires Ranked(c.stats, (id: Id) => 0 - IndexOf(c.lru, id), c.entries.Keys, p.order)
    requires i < k < |c.lru| && Open(c, h, c.lru[i]) && Open(c, h, c.lru[k]) && c.lru[k] !in Hotset(c, p)
    ensures |AtLeast(c, c.lru[i])| >= h + 2
  {
    hide Hotset, Fits, SortedByFrequency, Above, AtLeast, Open;
    var x, v := c.lru[i], c.lru[k];
    Listing(c, m, size, i);
    Listing(c, m, size, k);
    SameClass(c, h, x, v);
    CountIsFrequency(c, x);
    CountIsFrequency(c, v);
    var rank := (id: Id) => 0 - IndexOf(c.lru, id);
    var a := PlaceOf(c, p, limit, x);
    var b := PlacesBefore(c, rank, p.order, a, v);
    HotByPosition(c, p, limit, size, h, b);
    PositionBounds(c, p.order, a);
  }

  /** A first victim from ahead of the least recent open expert: everything behind is surely protected, and the
      expert stays open one place further up. */
  lemma AheadStaysOpen(c: Cache, m: Mem, p: Pass, limit: nat, size: nat, h: nat, q: nat, k: nat)
    requires Quiet(c, m, size) && Fits(limit, size, h) && HotPass(c, p, limit) && LastOpen(c, h, q)
    requires k < q && c.lru[k] !in Hotset(c, p) && forall j :: k < j < |c.lru| ==> c.lru[j] in Hotset(c, p)
    requires Open(c, h, c.lru[k]) ==> |AtLeast(c, c.lru[q])| >= h + 2
    ensures var c' := Discard(c, c.lru[k]);
            LastOpen(c', h, q - 1) && c'.lru[q - 1] == c.lru[q] && Behind(c', h, q - 1) == {}
  {
    hide Hotset, Fits, Open, Never, Sure, Behind, SortedByFrequency, OneSize, Discard;
    var v, x := c.lru[k], c.lru[q];
    var c' := Discard(c, v);
    ListWithout(c, k);
    assert v in c.lru && x in c.lru && v != x;
    VictimClass(c, p, limit, size, h, v);
    StaysOpen(c, h, v, x);
    hide Quiet, HotPass;
    forall j | q - 1 < j < |c'.lru|
      ensures !Open(c', h, c'.lru[j]) && !Never(c', h, c'.lru[j])
    {
      assert c'.lru[j] == c.lru[j + 1];
      SureBehindStays(c, m, p, limit, size, h, v, j + 1);
    }
    NoneBehind(c', h, q - 1);
  }

  lemma NoneBehind(c: Cache, h: nat, q: nat)
    requires q < |c.lru| && forall j :: q < j < |c.lru| ==> !Never(c, h, c.lru[j])
    ensures Behind(c, h, q) == {}
  {
    hide Behind, Never;
    if Behind(c, h, q) != {} {
      var y :| y in Behind(c, h, q);
      BehindAt(c, h, q, y);
    }
  }

  lemma SureBehindStays(c: Cache, m: Mem, p: Pass, limit: nat, size: nat, h: nat, v: Id, j: nat)
    requires Quiet(c, m, size) && HotPass(c, p, limit) && Fits(limit, size, h) && j < |c.lru|
    requires c.lru[j] in Hotset(c, p) && !Open(c, h, c.lru[j]) && v !in Hotset(c, p)
    ensures !Open(Discard(c, v), h, c.lru[j]) && !Never(Discard(c, v), h, c.lru[j])
  {
    hide Hotset, Fits, Open, Never, Sure, SortedByFrequency;
    var y := c.lru[j];
    assert y in c.lru;
    SureBehind(c, p, limit, size, h, y);
    SureStays(c, h, v, y);
    ClassesExclusive(Discard(c, v), h, y);
  }

  lemma SureBehind(c: Cache, p: Pass, limit: nat, size: nat, h: nat, y: Id)
    requires OneSize(c, size) && HotPass(c, p, limit) && Fits(limit, size, h) && y in c.entries && y in Hotset(c, p)
    requires !Open(c, h, y)
    ensures Sure(c, h, y)
  {
    hide Open, Never, Sure;
    SureIsHot(c, p, limit, size, h, y);
    ClassesAreResident(c, h, y);
  }

  lemma SureStays(c: Cache, h: nat, v: Id, y: Id)
    requires Sure(c, h, y) && y != v
    ensures Sure(Discard(c, v), h, y)
  {
    DiscardCounts(c, v, y);
    Subset(AtLeast(c, y) - {v}, AtLeast(c, y));
  }

  lemma StaysOpen(c: Cache, h: nat, v: Id, x: Id)
    requires Open(c, h, x) && v in c.entries && v != x
    requires Never(c, h, v) || (Open(c, h, v) && |AtLeast(c, x)| >= h + 2)
    ensures Open(Discard(c, v), h, x)
  {
    if Never(c, h, v) {
      NeverGoes(c, h, v, x);
    } else {
      SameClass(c, h, x, v);
      DiscardCounts(c, v, x);
    }
  }

  /** Everything behind a first victim further back than the open expert, or none of it, still allows the loop
      to get to that expert. */
  lemma ExposedCanGo(c: Cache, m: Mem, limit: nat, size: nat, h: nat, f: nat, q: nat) returns (run: seq<Eviction>, halt: Pass)
    requires Quiet(c, m, size) && Fits(limit, size, h) && Fits(c.max, size, f) && h <= f
    requires LastOpen(c, h, q) && RoomToRotate(c, h, q) && |c.lru| >= f + 2 && |c.lru| > f + |Behind(c, h, q)|
    ensures EvictionRun(c, m, run, halt) && LruHot(run, limit) && !KeepsFirstHotset(c, run)
  {
    hide Quiet, Fits, LastOpen, Behind, IsVictim, Hotset, EvictionRun, LruHot, Ranked, Open, Never, HotPass, Discard, EvictMem, RoomToRotate;
    IndexRanks(c, m, size);
    OpenPlace(c, h, q);
    var p, v, k := FirstPass(c, m, limit, size, h, (id: Id) => 0 - IndexOf(c.lru, id));
    LeastRecentFirst(c, m, p, limit, size, h, q);
    StillOver(c, m, size, f);
    QuietDiscard(c, m, size, k, p);
    var e := Eviction(p, v);
    var q' := if k > q then q else q - 1;
    if k > q {
      BehindVictimNever(c, m, size, p, limit, h, q, k);
      BehindShrinks(c, m, size, h, q, k);
    } else {
      if Open(c, h, v) { ThirdMember(c, m, p, limit, size, h, q, k); }
      AheadStaysOpen(c, m, p, limit, size, h, q, k);
    }
    var rest, hlt := EvictOpen(EvictCache(c, e), EvictMem(c, m, e), limit, size, h, f, q');
    run, halt := [e] + rest, hlt;
    Prepend(c, m, e, rest, halt, limit);
    PrependEvicts(e, rest, c.lru[q]);
  }

  // ----- otherwise nothing protected goes -----

  lemma {:induction false} BehindOnly(c: Cache, m: Mem, run: seq<Eviction>, halt: Pass, limit: nat, size: nat, h: nat, f: nat, q: nat)
    requires EvictionRun(c, m, run, halt) && LruHot(run, limit)
    requires Quiet(c, m, size) && Fits(limit, size, h) && Fits(c.max, size, f) && LastOpen(c, h, q)
    requires |c.lru| <= f + |Behind(c, h, q)|
    ensures forall k :: 0 <= k < |run| ==> Never(c, h, run[k].victim)
    decreases |run|
  {
    hide Quiet, Fits, LastOpen, Behind, IsVictim, Hotset, Open, Never, SortedByFrequency, Discard, EvictMem;
    if run != [] {
      var p, v := run[0].pass, run[0].victim;
      var c', m' := EvictCache(c, run[0]), EvictMem(c, m, run[0]);
      StillOver(c, m, size, f);
      OpenPlace(c, h, q);
      var k := VictimPlace(c, m, size, p, v);
      SomeoneBehind(c, m, size, p, limit, h, q, k);
      BehindVictimNever(c, m, size, p, limit, h, q, k);
      BehindShrinks(c, m, size, h, q, k);
      QuietDiscard(c, m, size, k, p);
      BehindOnly(c', m', run[1..], halt, limit, size, h, f, q);
      forall i | 0 <= i < |run|
        ensures Never(c, h, run[i].victim)
      {
        if i > 0 {
          assert run[i] == run[1..][i - 1];
          NeverBefore(c, h, v, run[i].victim);
        }
      }
    }
  }

  lemma SomeoneBehind(c: Cache, m: Mem, size: nat, p: Pass, limit: nat, h: nat, q: nat, k: nat)
    requires Quiet(c, m, size) && Fits(limit, size, h) && HotPass(c, p, limit) && LastOpen(c, h, q)
    requires |Behind(c, h, q)| > 0 && k < |c.lru| && forall j :: k < j < |c.lru| ==> c.lru[j] in Hotset(c, p)
    ensures k > q
  {
    hide Hotset, Fits, Behind, Never, Open;
    var y :| y in Behind(c, h, q);
    BehindAt(c, h, q, y);
    SureIsHot(c, p, limit, size, h, y);
  }

  lemma NeverBefore(c: Cache, h: nat, v: Id, y: Id)
    requires Never(Discard(c, v), h, y)
    ensures Never(c, h, y)
  {
    DiscardCounts(c, v, y);
    Subset(Above(c, y) - {v}, Above(c, y));
    DiscardFields(c, v);
  }

  lemma NeverKept(c: Cache, run: seq<Eviction>, limit: nat, size: nat, h: nat)
    requires run != [] ==> HotPass(c, run[0].pass, limit)
    requires OneSize(c, size) && Fits(limit, size, h) && forall k :: 0 <= k < |run| ==> Never(c, h, run[k].victim)
    ensures KeepsFirstHotset(c, run)
  {
    hide Never, Hotset, Fits, SortedByFrequency;
    if run != [] {
      forall k | 0 <= k < |run|
        ensures run[k].victim !in Hotset(c, run[0].pass)
      {
        SureIsHot(c, run[0].pass, limit, size, h, run[k].victim);
      }
    }
  }

  /** Without room to rotate the first victim is the one open expert left out, and then nothing is open. */
  lemma NoRoomFirst(c: Cache, m: Mem, p: Pass, limit: nat, size: nat, h: nat, q: nat, k: nat)
    requires Quiet(c, m, size) && Fits(limit, size, h) && HotPass(c, p, limit) && LastOpen(c, h, q) && !RoomToRotate(c, h, q)
    requires k < |c.lru| && c.lru[k] !in Hotset(c, p) && forall j :: k < j < |c.lru| ==> c.lru[j] in Hotset(c, p)
    ensures var c' := Discard(c, c.lru[k]);
            && Determinate(c', h)
            && forall y: Id :: y in Hotset(c, p) ==> Sure(c', h, y)
  {
    hide Greedy, Fits, SortedByFrequency, Above, AtLeast;
    var x, v := c.lru[q], c.lru[k];
    Listing(c, m, size, q);
    Listing(c, m, size, k);
    NoRoomVictim(c, m, p, limit, size, h, q, k);
    HotIsResident(c, p);
    DiscardFields(c, v);
    forall y: Id
      ensures !Open(Discard(c, v), h, y)
      ensures y in Hotset(c, p) ==> Sure(Discard(c, v), h, y)
    {
      if y in c.entries && y != v { AfterLeftOut(c, p, limit, size, h, x, v, y); }
    }
  }

  lemma NoRoomVictim(c: Cache, m: Mem, p: Pass, limit: nat, size: nat, h: nat, q: nat, k: nat)
    requires Quiet(c, m, size) && Fits(limit, size, h) && HotPass(c, p, limit) && LastOpen(c, h, q) && !RoomToRotate(c, h, q)
    requires k < |c.lru| && c.lru[k] !in Hotset(c, p) && forall j :: k < j < |c.lru| ==> c.lru[j] in Hotset(c, p)
    ensures Open(c, h, c.lru[k]) && |AtLeast(c, c.lru[q])| == h + 1
  {
    hide Hotset, Fits, SortedByFrequency, Never;
    Listing(c, m, size, k);
    VictimClass(c, p, limit, size, h, c.lru[k]);
    ClassesExclusive(c, h, c.lru[k]);
    var u := LeftOut(c, m, p, limit, size, h, q);
    assert u in c.lru;
    var i :| 0 <= i < |c.lru| && c.lru[i] == u;
    assert i <= k;
  }

  lemma AfterLeftOut(c: Cache, p: Pass, limit: nat, size: nat, h: nat, x: Id, v: Id, y: Id)
    requires OneSize(c, size) && HotPass(c, p, limit) && Fits(limit, size, h)
    requires Open(c, h, x) && Open(c, h, v) && |AtLeast(c, x)| == h + 1 && y in c.entries && y != v
    ensures !Open(Discard(c, v), h, y) && (y in Hotset(c, p) ==> Sure(Discard(c, v), h, y))
  {
    hide Hotset, Fits, SortedByFrequency;
    SameClass(c, h, x, v);
    SameClass(c, h, x, y);
    DiscardCounts(c, v, y);
    ClassesAreResident(c, h, y);
    SureIsHot(c, p, limit, size, h, y);
    SubsetCounts(c, x, y);
    if Sure(c, h, y) { SureStays(c, h, v, y); }
    DiscardFields(c, v);
    InSets(c, v, y);
    assert !Never(c, h, y) || v in Above(c, y);
  }

  /** Some member of the open class is not protected. */
  lemma LeftOut(c: Cache, m: Mem, p: Pass, limit: nat, size: nat, h: nat, q: nat) returns (u: Id)
    requires Quiet(c, m, size) && Fits(limit, size, h) && HotPass(c, p, limit) && LastOpen(c, h, q)
    ensures Open(c, h, u) && u !in Hotset(c, p)
  {
    hide Greedy, Fits;
    var x := c.lru[q];
    var k := PlaceOf(c, p, limit, x);
    SameLength(c, m, size, p.order);
    PositionBounds(c, p.order, k);
    OrderReaches(c, m, size, p, x, h);
    u := p.order[h];
    assert u in p.order;
    HotByPosition(c, p, limit, size, h, h);
    PositionBounds(c, p.order, h);
    SubsetCounts(c, x, u);
    SubsetCounts(c, u, x);
    PlaceClass(c, p.order, h, x);
  }

  lemma OrderReaches(c: Cache, m: Mem, size: nat, p: Pass, x: Id, h: nat)
    requires Quiet(c, m, size) && SortedByFrequency(c, p.order) && Open(c, h, x)
    ensures h < |p.order|
  {
    ElementsCount(p.order);
    Subset(AtLeast(c, x), Elements(p.order));
  }

  /** The expert at the end of the hotset is of the open class. */
  lemma PlaceClass(c: Cache, order: seq<Id>, h: nat, x: Id)
    requires SortedByFrequency(c, order) && Open(c, h, x) && h < |order|
    ensures Open(c, h, order[h])
  {
    var u := order[h];
    assert u in order;
    PositionBounds(c, order, h);
    if Frequency(c, u) > Frequency(c, x) {
      SubsetCounts(c, u, x);
    } else if Frequency(c, u) < Frequency(c, x) {
      SubsetCounts(c, x, u);
      AtLeastBefore(c, order, h, x);
    }
    SameClass(c, h, x, u);
  }

  lemma AtLeastBefore(c: Cache, order: seq<Id>, h: nat, x: Id)
    requires SortedByFrequency(c, order) && h < |order| && x in c.entries && Frequency(c, order[h]) < Frequency(c, x)
    ensures |AtLeast(c, x)| <= h
  {
    forall y | y in AtLeast(c, x)
      ensures y in order[..h]
    {
      assert y in order;
      var j :| 0 <= j < |order| && order[j] == y;
      assert j < h && order[..h][j] == y;
    }
    PrefixCard(order, h, AtLeast(c, x));
  }

  lemma NoRoomKeeps(c: Cache, m: Mem, run: seq<Eviction>, halt: Pass, limit: nat, size: nat, h: nat, q: nat)
    requires EvictionRun(c, m, run, halt) && LruHot(run, limit)
    requires Quiet(c, m, size) && Fits(limit, size, h) && LastOpen(c, h, q) && !RoomToRotate(c, h, q)
    ensures KeepsFirstHotset(c, run)
  {
    hide Fits, LastOpen, RoomToRotate, IsVictim, Hotset, SortedByFrequency, Sure, Open, Discard, EvictMem, Determinate;
    if run != [] {
      var p, v := run[0].pass, run[0].victim;
      var c', m' := EvictCache(c, run[0]), EvictMem(c, m, run[0]);
      var k := VictimPlace(c, m, size, p, v);
      NoRoomFirst(c, m, p, limit, size, h, q, k);
      DiscardFields(c, v);
      DeterminateKeepsSure(c', m', run[1..], halt, limit, size, h);
      forall i | 0 <= i < |run|
        ensures run[i].victim !in Hotset(c, p)
      {
        if i > 0 { assert run[i] == run[1..][i - 1]; }
      }
    }
  }

  lemma OneEvictionKeeps(c: Cache, m: Mem, run: seq<Eviction>, halt: Pass, limit: nat, size: nat, f: nat)
    requires EvictionRun(c, m, run, halt) && LruHot(run, limit)
    requires Quiet(c, m, size) && Fits(c.max, size, f) && |c.lru| <= f + 1
    ensures KeepsFirstHotset(c, run)
  {
    hide Fits, IsVictim, Hotset, SortedByFrequency;
    if run != [] {
      var k := VictimPlace(c, m, size, run[0].pass, run[0].victim);
      QuietDiscard(c, m, size, k, run[0].pass);
      StillOver(EvictCache(c, run[0]), EvictMem(c, m, run[0]), size, f);
      assert run[1..] == [];
    }
  }

  lemma UnexposedKeeps(c: Cache, m: Mem, run: seq<Eviction>, halt: Pass, limit: nat, size: nat, h: nat, f: nat)
    requires EvictionRun(c, m, run, halt) && LruHot(run, limit)
    requires Quiet(c, m, size) && Fits(limit, size, h) && Fits(c.max, size, f) && !Exposed(c, h, f)
    ensures KeepsFirstHotset(c, run)
  {
    hide Fits, IsVictim, Hotset, SortedByFrequency, Open, RoomToRotate, Behind, KeepsFirstHotset;
    if x: Id :| Open(c, h, x) {
      OpenIsResident(c, h, x);
      assert x in c.lru;
      var k :| 0 <= k < |c.lru| && c.lru[k] == x;
      var q := LastOpenExists(c, h, k);
      if !RoomToRotate(c, h, q) {
        NoRoomKeeps(c, m, run, halt, limit, size, h, q);
      } else if |c.lru| < f + 2 {
        OneEvictionKeeps(c, m, run, halt, limit, size, f);
      } else {
        BehindOnly(c, m, run, halt, limit, size, h, f, q);
        NeverKept(c, run, limit, size, h);
      }
    } else {
      UncutTiesKeepHotset(c, m, run, halt, limit, size, h);
    }
  }

  lemma OpenIsResident(c: Cache, h: nat, x: Id)
    requires Open(c, h, x)
    ensures x in c.entries
  {
  }

  /** For a quiet cache of experts of one size, LRU, and a hotset limit within the budget: some outcome of the
      sort makes the loop evict an expert that its first pass protects, exactly if the cache is exposed. */
  lemma ProtectedMayGoIff(c: Cache, m: Mem, limit: nat, size: nat, h: nat, f: nat)
    requires Quiet(c, m, size) && Fits(limit, size, h) && Fits(c.max, size, f) && limit <= c.max
    ensures (exists run, halt :: EvictionRun(c, m, run, halt) && LruHot(run, limit) && !KeepsFirstHotset(c, run))
       <==> Exposed(c, h, f)
  {
    hide Quiet, EvictionRun, LruHot, KeepsFirstHotset, LastOpen, RoomToRotate, Behind;
    FewerProtected(limit, c.max, size, h, f);
    if Exposed(c, h, f) {
      var q :| LastOpen(c, h, q) && RoomToRotate(c, h, q) && |c.lru| >= f + 2 && |c.lru| > f + |Behind(c, h, q)|;
      var run, halt := ExposedCanGo(c, m, limit, size, h, f, q);
    }
    if run, halt :| EvictionRun(c, m, run, halt) && LruHot(run, limit) && !KeepsFirstHotset(c, run) {
      if !Exposed(c, h, f) { UnexposedKeeps(c, m, run, halt, limit, size, h, f); }
    }
  }

  lemma FewerProtected(limit: nat, max: nat, size: nat, h: nat, f: nat)
    requires Fits(limit, size, h) && Fits(max, size, f) && limit <= max
    ensures h <= f
  {
    if h > f { ScaleUp(size, f + 1, h); }
  }
}
