/** `evict_if_over_budget` as a relation: which entries may go, how the hotset protects some of them,
    which victim each policy picks, and what a whole run of the loop guarantees. */
module Eviction {
  import opened Sums
  import opened CacheModel

  datatype Policy = LRU | LRUK | ARC | HYBRID

  /** The hotset setting: off, or a limit in bytes. */
  datatype Hot = Off | On(limit: nat)

  /** What one pass of the loop reads: the policy, the hotset setting, the order the frequency sort
      left the experts in (ties are the sort's choice), ARC's fixed target and the clock. */
  datatype Pass = Pass(policy: Policy, hot: Hot, order: seq<Id>, arcTarget: real, now: Time)

  datatype Eviction = Eviction(pass: Pass, victim: Id)

  /** The switches a pass of the loop reads; they may be changed between any two passes. */
  datatype Switches = Switches(policy: Policy, hot: Hot)

  /** Pass number `k` of a run, the last one included, reads the switches `at(k)`; ARC's target is fixed. */
  ghost predicate Follows(run: seq<Eviction>, halt: Pass, at: nat -> Switches, arcTarget: real) {
    && Switches(halt.policy, halt.hot) == at(|run|) && halt.arcTarget == arcTarget
    && forall k :: 0 <= k < |run| ==>
         Switches(run[k].pass.policy, run[k].pass.hot) == at(k) && run[k].pass.arcTarget == arcTarget
  }

  // ----- hotset -----

  function Frequency(c: Cache, id: Id): nat {
    StatsFor(c, id).count
  }

  /** The outcome of sorting all resident ids by descending access count. */
  ghost predicate SortedByFrequency(c: Cache, order: seq<Id>) {
    && NoDup(order)
    && (forall id: Id :: id in order <==> id in c.entries)
    && (forall i, j :: 0 <= i < j < |order| ==> Frequency(c, order[i]) >= Frequency(c, order[j]))
  }

  /** Takes ids while they fit in the remaining room and stops at the first that does not. */
  function Greedy(entries: map<Id, Entry>, order: seq<Id>, room: int): set<Id> {
    if order == [] || order[0] !in entries || entries[order[0]].size > room then {}
    else {order[0]} + Greedy(entries, order[1..], room - entries[order[0]].size)
  }

  function Hotset(c: Cache, p: Pass): set<Id> {
    match p.hot
    case Off => {}
    case On(limit) => Greedy(c.entries, p.order, limit)
  }

  function HotLimit(h: Hot): nat {
    match h
    case Off => 0
    case On(limit) => limit
  }

  // ----- victims -----

  predicate Evictable(e: Entry) {
    e.loaded && e.pins == 0 && e.waits == 0
  }

  predicate Candidate(c: Cache, hotset: set<Id>, id: Id) {
    id in c.entries && Evictable(c.entries[id]) && id !in hotset
  }

  const INFINITE_DISTANCE: nat := 0xFFFF_FFFF_FFFF_FFFF

  /** LRU-K's backward distance: to the oldest stamp in the window. */
  function BackDistance(c: Cache, now: Time, id: Id): int {
    var w := StatsFor(c, id).window;
    if |w| < 2 then INFINITE_DISTANCE else now - w[0]
  }

  /** HYBRID's score: access count over decayed age in seconds. */
  function Score(c: Cache, now: Time, id: Id): real
    requires now >= StatsFor(c, id).last
  {
    var age := (now - StatsFor(c, id).last) as real / 1000000000.0;
    StatsFor(c, id).count as real / (1.0 + 0.1 * age)
  }

  /** ARC's first segment holds the experts accessed less than twice. */
  predicate Once(c: Cache, id: Id) {
    Frequency(c, id) < 2
  }

  function OnceWeight(c: Cache): (Id, Entry) -> int {
    (id: Id, e: Entry) => if Once(c, id) then e.size else 0
  }

  ghost predicate EvictFromOnce(c: Cache, arcTarget: real) {
    Sum(c.entries, OnceWeight(c)) as real > arcTarget
  }

  /** `id` is the candidate nearest to the LRU end among those that satisfy `wanted`. */
  ghost predicate LeastRecent(c: Cache, hotset: set<Id>, wanted: Id -> bool, id: Id) {
    && Candidate(c, hotset, id) && wanted(id)
    && exists k :: 0 <= k < |c.lru| && c.lru[k] == id
                   && forall j :: k < j < |c.lru| ==> !(Candidate(c, hotset, c.lru[j]) && wanted(c.lru[j]))
  }

  function Anything(): Id -> bool {
    (id: Id) => true
  }

  function Segment(c: Cache, once: bool): Id -> bool {
    (id: Id) => Once(c, id) == once
  }

  ghost predicate NonePreferred(c: Cache, hotset: set<Id>, once: bool) {
    forall id: Id :: Candidate(c, hotset, id) ==> Once(c, id) != once
  }

  ghost predicate MaximalDistance(c: Cache, hotset: set<Id>, now: Time, id: Id) {
    && Candidate(c, hotset, id)
    && forall x: Id :: Candidate(c, hotset, x) ==> BackDistance(c, now, x) <= BackDistance(c, now, id)
  }

  ghost predicate MinimalScore(c: Cache, hotset: set<Id>, now: Time, id: Id) {
    && Candidate(c, hotset, id)
    && forall x: Id :: Candidate(c, hotset, x) ==>
         now >= StatsFor(c, x).last && now >= StatsFor(c, id).last && Score(c, now, id) <= Score(c, now, x)
  }

  ghost predicate ArcChoice(c: Cache, hotset: set<Id>, arcTarget: real, id: Id) {
    var once := EvictFromOnce(c, arcTarget);
    || LeastRecent(c, hotset, Segment(c, once), id)
    || (NonePreferred(c, hotset, once) && LeastRecent(c, hotset, Anything(), id))
  }

  ghost predicate IsVictim(c: Cache, p: Pass, id: Id) {
    match p.policy
    case LRU => LeastRecent(c, Hotset(c, p), Anything(), id)
    case LRUK => MaximalDistance(c, Hotset(c, p), p.now, id)
    case ARC => ArcChoice(c, Hotset(c, p), p.arcTarget, id)
    case HYBRID => MinimalScore(c, Hotset(c, p), p.now, id)
  }

  lemma {:induction false} LastCandidate(c: Cache, hotset: set<Id>, k: nat) returns (j: nat)
    requires k < |c.lru| && Candidate(c, hotset, c.lru[k])
    ensures j < |c.lru| && Candidate(c, hotset, c.lru[j])
    ensures forall x :: j < x < |c.lru| ==> !Candidate(c, hotset, c.lru[x])
    decreases |c.lru| - k
  {
    if next :| k < next < |c.lru| && Candidate(c, hotset, c.lru[next]) {
      j := LastCandidate(c, hotset, next);
    } else {
      j := k;
    }
  }

  lemma LeastRecentExists(c: Cache, hotset: set<Id>, id: Id) returns (v: Id)
    requires (forall x: Id :: x in c.lru <==> x in c.entries) && Candidate(c, hotset, id)
    ensures LeastRecent(c, hotset, Anything(), v)
  {
    assert id in c.lru;
    var k :| 0 <= k < |c.lru| && c.lru[k] == id;
    var j := LastCandidate(c, hotset, k);
    v := c.lru[j];
  }

  // ----- the loop -----

  ghost predicate ProperPass(c: Cache, p: Pass) {
    p.hot.On? ==> SortedByFrequency(c, p.order)
  }

  /** One iteration that evicts: over budget, and the policy's own choice. */
  ghost predicate MayEvict(c: Cache, m: Mem, e: Eviction) {
    m.occupancy > c.max && ProperPass(c, e.pass) && IsVictim(c, e.pass, e.victim)
  }

  function EvictCache(c: Cache, e: Eviction): Cache {
    Discard(c, e.victim)
  }

  function EvictMem(c: Cache, m: Mem, e: Eviction): Mem {
    if e.victim in c.entries then Release(m, c.entries[e.victim]) else m
  }

  /** The loop stops: within budget, or a last pass `halt` found no candidate. */
  ghost predicate MayStop(c: Cache, m: Mem, halt: Pass) {
    || m.occupancy <= c.max
    || (ProperPass(c, halt) && forall id: Id :: !Candidate(c, Hotset(c, halt), id))
  }

  ghost predicate EvictionRun(c: Cache, m: Mem, run: seq<Eviction>, halt: Pass)
    decreases |run|
  {
    if run == [] then
      MayStop(c, m, halt)
    else (
      && MayEvict(c, m, run[0])
      && EvictionRun(EvictCache(c, run[0]), EvictMem(c, m, run[0]), run[1..], halt)
    )
  }

  function AfterCache(c: Cache, run: seq<Eviction>): Cache
    decreases |run|
  {
    if run == [] then c else AfterCache(EvictCache(c, run[0]), run[1..])
  }

  function AfterMem(c: Cache, m: Mem, run: seq<Eviction>): Mem
    decreases |run|
  {
    if run == [] then m else AfterMem(EvictCache(c, run[0]), EvictMem(c, m, run[0]), run[1..])
  }

  /** Whatever the policy, a victim is loaded, unpinned, unwaited and outside the hotset. */
  lemma VictimIsCandidate(c: Cache, p: Pass, id: Id)
    requires IsVictim(c, p, id)
    ensures Candidate(c, Hotset(c, p), id)
  {
  }

  // ----- the hotset's size -----

  function HotWeight(hotset: set<Id>): (Id, Entry) -> int {
    (id: Id, e: Entry) => if id in hotset then e.size else 0
  }

  lemma {:induction false} GreedyFits(entries: map<Id, Entry>, order: seq<Id>, room: int)
    requires NoDup(order) && room >= 0
    ensures Greedy(entries, order, room) <= entries.Keys
    ensures forall id :: id in Greedy(entries, order, room) ==> id in order
    ensures Sum(entries, HotWeight(Greedy(entries, order, room))) <= room
  {
    if order == [] || order[0] !in entries || entries[order[0]].size > room {
      SumOfZero(entries, HotWeight({}));
    } else {
      var id := order[0];
      var rest := Greedy(entries, order[1..], room - entries[id].size);
      GreedyFits(entries, order[1..], room - entries[id].size);
      assert id !in rest by { assert forall j :: 0 < j < |order| ==> order[j] != id; }
      SumTake(entries, HotWeight({id} + rest), id);
      SumTake(entries, HotWeight(rest), id);
      SumAgree(entries - {id}, HotWeight({id} + rest), HotWeight(rest));
    }
  }

  lemma {:induction false} SumOfZero(m: map<Id, Entry>, w: (Id, Entry) -> int)
    requires forall id :: id in m ==> w(id, m[id]) == 0
    ensures Sum(m, w) == 0
    decreases |m|
  {
    if m.Keys != {} {
      var id :| id in m;
      SumTake(m, w, id);
      SumOfZero(m - {id}, w);
    }
  }

  lemma {:induction false} SumAgree(m: map<Id, Entry>, a: (Id, Entry) -> int, b: (Id, Entry) -> int)
    requires forall id :: id in m ==> a(id, m[id]) == b(id, m[id])
    ensures Sum(m, a) == Sum(m, b)
    decreases |m|
  {
    if m.Keys != {} {
      var id :| id in m;
      SumTake(m, a, id);
      SumTake(m, b, id);
      SumAgree(m - {id}, a, b);
    }
  }

  // ----- completeness and the budget bound -----

  /** Bytes of the entries that are pinned or waited for. */
  function BusyWeight(): (Id, Entry) -> int {
    (id: Id, e: Entry) => if e.pins != 0 || e.waits != 0 then Bytes(e) else 0
  }

  ghost function BusyBytes(c: Cache): int {
    Sum(c.entries, BusyWeight())
  }

  /** With no candidate left, everything resident is hot or busy. */
  lemma NoCandidateBound(c: Cache, hotset: set<Id>)
    requires forall id: Id :: !Candidate(c, hotset, id)
    ensures ResidentBytes(c) <= Sum(c.entries, HotWeight(hotset)) + BusyBytes(c)
  {
    forall id | id in c.entries
      ensures BytesWeight()(id, c.entries[id])
           <= HotWeight(hotset)(id, c.entries[id]) + 1 * BusyWeight()(id, c.entries[id])
    {
      assert !Candidate(c, hotset, id);
    }
    SumLinearBound(c.entries, BytesWeight(), HotWeight(hotset), BusyWeight(), 1);
  }

  lemma EvictOneBytes(c: Cache, m: Mem, e: Eviction)
    requires MayEvict(c, m, e)
    ensures var c', m' := EvictCache(c, e), EvictMem(c, m, e);
            && ResidentBytes(c') == ResidentBytes(c) - Bytes(c.entries[e.victim])
            && m'.occupancy == m.occupancy - Bytes(c.entries[e.victim])
            && BusyBytes(c') == BusyBytes(c)
            && c'.max == c.max
  {
    VictimIsCandidate(c, e.pass, e.victim);
    SumTake(c.entries, BytesWeight(), e.victim);
    SumTake(c.entries, BusyWeight(), e.victim);
  }

  /** A run of the loop ends with the occupancy at most
      max(budget, hotset limit + bytes of pinned or waited entries), plus whatever other caches hold. */
  lemma {:induction false} EvictionBound(c: Cache, m: Mem, run: seq<Eviction>, halt: Pass)
    requires EvictionRun(c, m, run, halt)
    ensures var c', m' := AfterCache(c, run), AfterMem(c, m, run);
            && c'.max == c.max
            && m'.occupancy - ResidentBytes(c') == m.occupancy - ResidentBytes(c)
            && BusyBytes(c') == BusyBytes(c)
            && m'.occupancy <= MaxOf(c.max, m.occupancy - ResidentBytes(c) + HotLimit(halt.hot) + BusyBytes(c))
    decreases |run|
  {
    if run != [] {
      EvictOneBytes(c, m, run[0]);
      EvictionBound(EvictCache(c, run[0]), EvictMem(c, m, run[0]), run[1..], halt);
    } else if m.occupancy > c.max {
      NoCandidateBound(c, Hotset(c, halt));
      match halt.hot
      case Off => SumOfZero(c.entries, HotWeight({}));
      case On(limit) => GreedyFits(c.entries, halt.order, limit);
    }
  }

  /** What a run removes: `id` is still there afterwards exactly if it was not one of the victims,
      and what stays is untouched, in the same order. */
  lemma {:induction false} EvictionFrame(c: Cache, m: Mem, run: seq<Eviction>, halt: Pass, id: Id)
    requires EvictionRun(c, m, run, halt) && id in c.entries
    ensures var c' := AfterCache(c, run);
            if id in c'.entries then c'.entries[id] == c.entries[id]
            else Evictable(c.entries[id])
    decreases |run|
  {
    if run != [] {
      VictimIsCandidate(c, run[0].pass, run[0].victim);
      if run[0].victim != id {
        EvictionFrame(EvictCache(c, run[0]), EvictMem(c, m, run[0]), run[1..], halt, id);
      } else {
        StaysGone(EvictCache(c, run[0]), run[1..], id);
      }
    }
  }

  lemma {:induction false} StaysGone(c: Cache, run: seq<Eviction>, id: Id)
    requires id !in c.entries
    ensures id !in AfterCache(c, run).entries
    decreases |run|
  {
    if run != [] { StaysGone(EvictCache(c, run[0]), run[1..], id); }
  }

  lemma {:induction false} EvictionCounts(c: Cache, run: seq<Eviction>)
    ensures AfterCache(c, run).hits == c.hits && AfterCache(c, run).misses == c.misses
    ensures AfterCache(c, run).max == c.max
    decreases |run|
  {
    if run != [] { EvictionCounts(EvictCache(c, run[0]), run[1..]); }
  }

  lemma {:induction false} EvictionShrinks(c: Cache, run: seq<Eviction>)
    ensures AfterCache(c, run).entries.Keys <= c.entries.Keys
    ensures forall id: Id :: id in AfterCache(c, run).entries ==> AfterCache(c, run).entries[id] == c.entries[id]
    decreases |run|
  {
    if run != [] { EvictionShrinks(EvictCache(c, run[0]), run[1..]); }
  }

  // ----- budgets counted in experts of one size -----

  /** A limit of exactly `n` experts of the given size. */
  predicate Fits(limit: nat, size: nat, n: nat) {
    size > 0 && n * size <= limit < (n + 1) * size
  }

  lemma OverBudgetIffMore(k: nat, size: nat, n: nat, max: nat)
    requires Fits(max, size, n)
    ensures k * size > max <==> k > n
  {
    if k > n { ScaleUp(size, n + 1, k); } else { ScaleUp(size, k, n); }
  }

  // ----- LRU: exactly the shortest sufficient run of evictable entries -----

  /** The evictable ids, least recently used first. */
  function EvictableFromBack(c: Cache, lru: seq<Id>): seq<Id> {
    if lru == [] then []
    else
      var id := lru[|lru| - 1];
      var rest := EvictableFromBack(c, lru[..|lru| - 1]);
      if Candidate(c, {}, id) then [id] + rest else rest
  }

  ghost predicate AllLru(run: seq<Eviction>, halt: Pass) {
    && halt.hot.Off?
    && forall k :: 0 <= k < |run| ==> run[k].pass.policy.LRU? && run[k].pass.hot.Off?
  }

  function Victims(run: seq<Eviction>): seq<Id> {
    seq(|run|, i requires 0 <= i < |run| => run[i].victim)
  }

  lemma {:induction false} LeastRecentIsFirst(c: Cache, lru: seq<Id>, k: nat)
    requires k < |lru| && Candidate(c, {}, lru[k])
    requires forall j :: k < j < |lru| ==> !Candidate(c, {}, lru[j])
    ensures EvictableFromBack(c, lru) == [lru[k]] + EvictableFromBack(c, lru[..k])
  {
    if k < |lru| - 1 {
      LeastRecentIsFirst(c, lru[..|lru| - 1], k);
      assert lru[..|lru| - 1][..k] == lru[..k];
    }
  }

  lemma {:induction false} NoneEvictable(c: Cache, lru: seq<Id>)
    requires forall j :: 0 <= j < |lru| ==> !Candidate(c, {}, lru[j])
    ensures EvictableFromBack(c, lru) == []
  {
    if lru != [] { NoneEvictable(c, lru[..|lru| - 1]); }
  }

  /** Discarding an id not on this stretch of the list leaves the stretch's candidates alone. */
  lemma {:induction false} DiscardElsewhere(c: Cache, lru: seq<Id>, id: Id)
    requires id !in lru
    ensures EvictableFromBack(Discard(c, id), lru) == EvictableFromBack(c, lru)
  {
    if lru != [] {
      assert lru[|lru| - 1] in lru;
      DiscardElsewhere(c, lru[..|lru| - 1], id);
    }
  }

  /** Scanning candidates passes over a stretch without any. */
  lemma {:induction false} SkipTail(c: Cache, front: seq<Id>, tail: seq<Id>)
    requires forall j :: 0 <= j < |tail| ==> !Candidate(c, {}, tail[j])
    ensures EvictableFromBack(c, front + tail) == EvictableFromBack(c, front)
    decreases |tail|
  {
    if tail == [] {
      assert front + tail == front;
    } else {
      assert (front + tail)[..|front + tail| - 1] == front + tail[..|tail| - 1];
      SkipTail(c, front, tail[..|tail| - 1]);
    }
  }

  lemma PositionOfLeastRecent(c: Cache, hotset: set<Id>, id: Id) returns (k: nat)
    requires LeastRecent(c, hotset, Anything(), id)
    ensures k < |c.lru| && c.lru[k] == id
    ensures forall j :: k < j < |c.lru| ==> !Candidate(c, hotset, c.lru[j])
  {
    k :| 0 <= k < |c.lru| && c.lru[k] == id
         && forall j :: k < j < |c.lru| ==> !(Candidate(c, hotset, c.lru[j]) && Anything()(c.lru[j]));
  }

  lemma LruVictimSplits(c: Cache, id: Id)
    requires NoDup(c.lru) && LeastRecent(c, {}, Anything(), id)
    ensures EvictableFromBack(c, c.lru) == [id] + EvictableFromBack(Discard(c, id), Discard(c, id).lru)
  {
    var k := PositionOfLeastRecent(c, {}, id);
    LeastRecentIsFirst(c, c.lru, k);
    RemoveAt(c.lru, k);
    var c' := Discard(c, id);
    var front, tail := c.lru[..k], c.lru[k + 1..];
    assert id !in front;
    DiscardElsewhere(c, front, id);
    assert forall j :: 0 <= j < |tail| ==> tail[j] == c.lru[k + 1 + j];
    SkipTail(c', front, tail);
  }

  /** Every policy evicts only while over budget: each proper prefix of a run leaves too much. */
  lemma {:induction false} OverBudgetUntilTheEnd(c: Cache, m: Mem, run: seq<Eviction>, halt: Pass, k: nat)
    requires EvictionRun(c, m, run, halt) && k < |run|
    ensures AfterMem(c, m, run[..k]).occupancy > c.max
    decreases |run|
  {
    if k > 0 {
      var c', m' := EvictCache(c, run[0]), EvictMem(c, m, run[0]);
      OverBudgetUntilTheEnd(c', m', run[1..], halt, k - 1);
      assert run[..k][0] == run[0] && run[..k][1..] == run[1..][..k - 1];
    }
  }

  /** With the hotset off, repeating the LRU scan evicts exactly the shortest sufficient prefix of the
      evictable entries in least-recently-used order: every shorter prefix leaves the cache over
      budget, and the whole one brings it within budget or exhausts the list. */
  lemma LruEvictsShortestRun(c: Cache, m: Mem, run: seq<Eviction>, halt: Pass)
    requires NoDup(c.lru) && (forall id: Id :: id in c.lru <==> id in c.entries)
    requires EvictionRun(c, m, run, halt) && AllLru(run, halt)
    ensures Victims(run) <= EvictableFromBack(c, c.lru)
    ensures forall k :: 0 <= k < |run| ==> AfterMem(c, m, run[..k]).occupancy > c.max
    ensures AfterMem(c, m, run).occupancy <= c.max || Victims(run) == EvictableFromBack(c, c.lru)
  {
    LruRunIsPrefix(c, m, run, halt);
    forall k | 0 <= k < |run|
      ensures AfterMem(c, m, run[..k]).occupancy > c.max
    {
      OverBudgetUntilTheEnd(c, m, run, halt, k);
    }
  }

  ghost predicate LruRun(c: Cache, m: Mem, run: seq<Eviction>, halt: Pass) {
    && NoDup(c.lru) && (forall id: Id :: id in c.lru <==> id in c.entries)
    && EvictionRun(c, m, run, halt) && AllLru(run, halt)
  }

  lemma LruRunStep(c: Cache, m: Mem, run: seq<Eviction>, halt: Pass)
    requires LruRun(c, m, run, halt) && run != []
    ensures var c', m' := EvictCache(c, run[0]), EvictMem(c, m, run[0]);
            && EvictableFromBack(c, c.lru) == [run[0].victim] + EvictableFromBack(c', c'.lru)
            && c'.max == c.max && LruRun(c', m', run[1..], halt)
  {
    assert Hotset(c, run[0].pass) == {};
    LruVictimSplits(c, run[0].victim);
    RemoveNoDup(c.lru, run[0].victim);
  }

  lemma LruRunStops(c: Cache, m: Mem, halt: Pass)
    requires LruRun(c, m, [], halt) && m.occupancy > c.max
    ensures EvictableFromBack(c, c.lru) == []
  {
    assert Hotset(c, halt) == {};
    NoneEvictable(c, c.lru);
  }

  lemma {:induction false} LruRunIsPrefix(c: Cache, m: Mem, run: seq<Eviction>, halt: Pass)
    requires LruRun(c, m, run, halt)
    ensures Victims(run) <= EvictableFromBack(c, c.lru)
    ensures AfterMem(c, m, run).occupancy <= c.max || Victims(run) == EvictableFromBack(c, c.lru)
    decreases |run|
  {
    hide LruRun, EvictableFromBack;
    if run == [] {
      if m.occupancy > c.max { LruRunStops(c, m, halt); }
    } else {
      LruRunStep(c, m, run, halt);
      LruRunIsPrefix(EvictCache(c, run[0]), EvictMem(c, m, run[0]), run[1..], halt);
      assert Victims(run) == [run[0].victim] + Victims(run[1..]);
    }
  }

  /** The LRU victim is the candidate whose latest touch is oldest. */
  lemma LruVictimLeastRecentlyTouched(c: Cache, p: Pass, id: Id, x: Id)
    requires Listed(c.lru, c.touches, c.entries.Keys) && p.policy.LRU? && IsVictim(c, p, id)
    requires Candidate(c, Hotset(c, p), x) && x != id
    ensures LastTouch(c.touches, id) < LastTouch(c.touches, x)
  {
    var k := PositionOfLeastRecent(c, Hotset(c, p), id);
    assert x in c.lru;
    var j :| 0 <= j < |c.lru| && c.lru[j] == x;
    assert j < k;
  }
}
