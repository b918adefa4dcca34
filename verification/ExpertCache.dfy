/** The expert cache as the program has it: a map of heap entries, a recency list and statistics,
    changed in place. Each method is one critical section, proved equal to the section's function on
    values; the eviction loop with its four policy scans is proved against the eviction relation. */
module ExpertCaching {
  import opened Bits
  import opened Sums
  import opened CacheModel
  import opened Eviction
  import opened MemoryManagement
  import opened SequentialUse

  /** A clock that never runs backwards. */
  class Clock {
    var time: Time

    constructor ()
      ensures time == 0
    {
      time := 0;
    }

    method Now() returns (now: Time)
      modifies this
      ensures now == time >= old(time)
    {
      var elapsed: int := *;
      if elapsed >= 0 && time + elapsed < 0x1_0000_0000_0000_0000 {
        time := time + elapsed;
      }
      now := time;
    }
  }

  class ExpertEntry {
    const expertId: Id
    ghost const obj: nat
    var mappedPtr: Ptr
    var mappedSize: nat
    var pinCount: int
    var waitCount: int
    var isLoaded: bool

    constructor (id: Id, ghost obj: nat)
      ensures expertId == id && Value() == Entry(obj, Null, 0, 0, 0, false)
    {
      expertId := id;
      this.obj := obj;
      mappedPtr, mappedSize, pinCount, waitCount, isLoaded := Null, 0, 0, 0, false;
    }

    ghost function Value(): Entry
      reads this
    {
      Entry(obj, mappedPtr, mappedSize, pinCount, waitCount, isLoaded)
    }

    predicate CanGo()
      reads this
    {
      isLoaded && pinCount == 0 && waitCount == 0
    }
  }

  ghost function Values(m: map<Id, ExpertEntry>): (r: map<Id, Entry>)
    reads m.Values
    ensures r.Keys == m.Keys
  {
    map id | id in m :: m[id].Value()
  }

  class ExpertCache {
    const maxBytes: nat
    const memory: MemoryManager
    const clock: Clock
    var cacheMap: map<Id, ExpertEntry>
    var lruList: seq<Id>
    var statsMap: map<Id, Stats>
    var hitCount: nat
    var missCount: nat
    var evictionCount: nat
    ghost var created: nat
    ghost var touches: seq<Id>
    ghost var log: seq<Access>

    ghost function View(): Cache
      reads this, cacheMap.Values
    {
      Cache(maxBytes, Values(cacheMap), lruList, statsMap, hitCount, missCount, evictionCount, created, touches, log)
    }

    /** Every entry is filed under its own id. */
    ghost predicate Filed()
      reads this, cacheMap.Values
    {
      forall id: Id :: id in cacheMap ==> cacheMap[id].expertId == id
    }

    ghost predicate Valid()
      reads this, cacheMap.Values, clock
    {
      Filed() && WellFormed(View()) && NotBefore(log, clock.time)
    }

    constructor (maxBytes: nat, memory: MemoryManager, clock: Clock)
      ensures Valid() && View() == EmptyCache(maxBytes) && NoneLoading()
      ensures cacheMap == map[] && hitCount == missCount == evictionCount == 0
      ensures this.memory == memory && this.clock == clock
    {
      this.maxBytes, this.memory, this.clock := maxBytes, memory, clock;
      cacheMap, lruList, statsMap := map[], [], map[];
      hitCount, missCount, evictionCount := 0, 0, 0;
      created, touches, log := 0, [], [];
      new;
      assert Values(cacheMap) == map[];
      assert Stamps([], 0) == [];
    }

    method TouchLru(id: Id)
      modifies this`lruList, this`touches
      ensures lruList == [id] + Remove(old(lruList), id) && touches == old(touches) + [id]
    {
      lruList := Remove(lruList, id);
      lruList := [id] + lruList;
      touches := touches + [id];
    }

    /** Counts an access now. */
    method RecordAccessStats(id: Id)
      requires NotBefore(log, clock.time)
      modifies this`statsMap, this`log, clock
      ensures clock.time >= old(clock.time)
      ensures NotBefore(old(log), clock.time) && NotBefore(log, clock.time)
      ensures View() == RecordAccess(old(View()), id, clock.time)
      ensures OneMoreCall(old(statsMap), statsMap, id, clock.time)
    {
      hide Values, LastFew, Stamps;
      var stats := if id in statsMap then statsMap[id] else Stats(0, 0, []);
      var count: uint32 := (stats.count + 1) % 0x1_0000_0000;
      var now := clock.Now();
      var history := stats.window + [now];
      if |history| > WINDOW {
        history := history[1..];
      }
      statsMap := statsMap[id := Stats(count, now, history)];
      log := log + [Access(id, now)];
    }

    // ----- get_and_pin -----

    /** Changing the fields of one filed entry changes exactly its value in the map. */
    twostate lemma OneEntryChanged(id: Id)
      requires cacheMap == old(cacheMap) && id in cacheMap && old(Filed())
      requires forall x: Id :: x in cacheMap && x != id ==> unchanged(cacheMap[x])
      ensures Filed()
      ensures old(Values(cacheMap))[id] == old(cacheMap[id].Value())
      ensures Values(cacheMap) == old(Values(cacheMap))[id := cacheMap[id].Value()]
    {
    }

    /** A hit: pin, move to the front, count. */
    method Hit(id: Id)
      requires Filed() && id in cacheMap
      modifies this`lruList, this`touches, this`hitCount, cacheMap[id]
      ensures Filed() && View() == CountHit(old(View()), id)
    {
      hide Values, Remove;
      cacheMap[id].pinCount := cacheMap[id].pinCount + 1;
      OneEntryChanged(id);
      TouchLru(id);
      hitCount := hitCount + 1;
    }

    /** A miss on an entry some other thread is loading. */
    method AwaitLoad(id: Id)
      requires Filed() && id in cacheMap
      modifies this`missCount, cacheMap[id]
      ensures Filed() && View() == StartWait(old(View()), id)
    {
      missCount := missCount + 1;
      cacheMap[id].waitCount := cacheMap[id].waitCount + 1;
      OneEntryChanged(id);
    }

    /** A miss on an absent expert: this caller will load it. */
    method BeginLoad(id: Id) returns (entry: ExpertEntry)
      requires id !in cacheMap && Filed()
      modifies this`cacheMap, this`lruList, this`created, this`touches, this`missCount
      ensures Filed() && fresh(entry) && cacheMap == old(cacheMap)[id := entry]
      ensures View() == StartLoad(old(View()), id)
    {
      missCount := missCount + 1;
      entry := InsertPending(id);
    }

    /** From the entry of `get_and_pin` to the point where it returns, sleeps or drops the mutex. */
    method EnterGetAndPin(id: Id) returns (entry: ExpertEntry, presence: Presence)
      requires Valid()
      modifies this, cacheMap.Values, clock
      ensures Valid() && id in cacheMap && cacheMap[id] == entry
      ensures presence == Lookup(old(View()), id) && (presence.Absent? <==> id !in old(cacheMap))
      ensures View() == EnterGet(old(View()), id, clock.time) && NotBefore(old(View()).log, clock.time)
      ensures OneMoreCall(old(statsMap), statsMap, id, clock.time)
      ensures cacheMap == if presence.Absent? then old(cacheMap)[id := entry] else old(cacheMap)
      ensures presence.Absent? ==> fresh(entry)
    {
      hide WellFormed, CountHit, StartWait, StartLoad, NotBefore, OneMoreCall;
      RecordAccessStats(id);
      EnterGetKeeps(old(View()), id, clock.time);
      if id in cacheMap {
        entry := cacheMap[id];
        if entry.isLoaded {
          presence := Loaded;
          Hit(id);
        } else {
          presence := Pending;
          AwaitLoad(id);
        }
      } else {
        presence := Absent;
        entry := BeginLoad(id);
      }
    }

    /** Files a fresh pending entry at the most recent end. */
    method InsertPending(id: Id) returns (entry: ExpertEntry)
      requires id !in cacheMap && Filed()
      modifies this`cacheMap, this`lruList, this`created, this`touches
      ensures Filed() && fresh(entry) && cacheMap == old(cacheMap)[id := entry]
      ensures View() == CacheModel.InsertPending(old(View()), id)
    {
      entry := new ExpertEntry(id, created);
      cacheMap := cacheMap[id := entry];
      lruList := [id] + lruList;
      touches := touches + [id];
      created := created + 1;
      assert View().entries == CacheModel.InsertPending(old(View()), id).entries;
    }

    /** A woken waiter that finds its entry loaded. */
    method FinishWaiting(id: Id)
      requires Valid() && id in cacheMap
      modifies this`lruList, this`touches, cacheMap[id]
      ensures Valid() && View() == FinishWait(old(View()), id)
    {
      hide WellFormed, NotBefore, Values, Remove;
      FinishWaitKeeps(View(), id);
      cacheMap[id].waitCount := cacheMap[id].waitCount - 1;
      cacheMap[id].pinCount := cacheMap[id].pinCount + 1;
      OneEntryChanged(id);
      TouchLru(id);
    }

    /** Finalises a load under the retaken mutex, up to the notification. */
    method FinalizeLoad(id: Id, ptr: Ptr, size: nat, pin: bool)
      requires Valid() && id in cacheMap
      modifies cacheMap[id], memory`cacheOccupancy
      ensures Valid() && View() == Publish(old(View()), id, ptr, size, pin)
      ensures memory.View() == AddOccupancy(old(memory.View()), ptr, size)
    {
      hide WellFormed, NotBefore, Values;
      var entry := cacheMap[id];
      UpdateKeeps(View(), id, Publish(View(), id, ptr, size, pin).entries[id]);
      entry.mappedPtr := ptr;
      entry.mappedSize := size;
      entry.isLoaded := true;
      if pin {
        entry.pinCount := entry.pinCount + 1;
      }
      OneEntryChanged(id);
      if ptr.At? {
        memory.AddCacheOccupancy(size);
      }
    }

    /** Gives one pin back; unknown ids are ignored. */
    method UnpinExpert(id: Id)
      requires Valid()
      modifies cacheMap.Values
      ensures Valid() && View() == Unpin(old(View()), id)
    {
      hide WellFormed, NotBefore;
      if id in cacheMap {
        UpdateKeeps(View(), id, Unpin(View(), id).entries[id]);
        cacheMap[id].pinCount := cacheMap[id].pinCount - 1;
        OneEntryChanged(id);
      }
    }

    // ----- prefetch_expert -----

    /** From the entry of `prefetch_expert` to the point where it returns or drops the mutex. */
    method EnterPrefetchExpert(id: Id) returns (present: bool)
      requires Valid()
      modifies this, clock
      ensures Valid() && id in cacheMap
      ensures present <==> id in old(cacheMap)
      ensures View() == EnterPrefetch(old(View()), id, clock.time) && NotBefore(old(View()).log, clock.time)
      ensures OneMoreCall(old(statsMap), statsMap, id, clock.time)
      ensures present ==> cacheMap == old(cacheMap)
      ensures !present ==> fresh(cacheMap[id]) && cacheMap == old(cacheMap)[id := cacheMap[id]]
    {
      hide WellFormed, NotBefore, CacheModel.InsertPending, OneMoreCall;
      RecordAccessStats(id);
      EnterPrefetchKeeps(old(View()), id, clock.time);
      if id in cacheMap {
        present := true;
        TouchLru(id);
      } else {
        present := false;
        var entry := InsertPending(id);
      }
    }

    // ----- eviction -----

    /** The test every policy makes before it considers an entry. */
    predicate Eligible(hotset: set<Id>, id: Id)
      reads this, cacheMap.Values
      ensures Eligible(hotset, id) <==> Candidate(View(), hotset, id)
    {
      id in cacheMap && cacheMap[id].CanGo() && id !in hotset
    }

    /** The list names only resident ids, so the scans never look up a missing entry. */
    lemma ListedAreResident()
      requires Valid()
      ensures forall k :: 0 <= k < |lruList| ==> lruList[k] in cacheMap
    {
      hide Accounted, OrderedByTouch, ObjectsCreated;
      forall k | 0 <= k < |lruList|
        ensures lruList[k] in cacheMap
      {
        assert lruList[k] in lruList;
      }
    }

    /** Scans the list from the least recently used end. */
    method LruScan(hotset: set<Id>) returns (found: bool, id: Id)
      requires Valid()
      ensures found ==> LeastRecent(View(), hotset, Anything(), id)
      ensures !found ==> forall x: Id :: !Candidate(View(), hotset, x)
    {
      hide WellFormed, NotBefore;
      ListedAreResident();
      var k := |lruList|;
      found, id := false, 0;
      while k > 0
        invariant 0 <= k <= |lruList|
        invariant forall j :: k <= j < |lruList| ==> !Candidate(View(), hotset, lruList[j])
      {
        k := k - 1;
        var entry := cacheMap[lruList[k]];
        if entry.CanGo() && lruList[k] !in hotset {
          assert Eligible(hotset, lruList[k]);
          return true, lruList[k];
        }
        assert !Eligible(hotset, lruList[k]);
      }
      NoneListed(View(), hotset);
    }

    function CountOf(id: Id): (n: nat)
      reads this, cacheMap.Values
      ensures n == Frequency(View(), id)
    {
      if id in statsMap then statsMap[id].count else 0
    }

    /** ARC's first pass: only candidates of the wanted segment. */
    method SegmentScan(hotset: set<Id>, once: bool) returns (found: bool, id: Id)
      requires Valid()
      ensures found ==> LeastRecent(View(), hotset, Segment(View(), once), id)
      ensures !found ==> NonePreferred(View(), hotset, once)
    {
      hide WellFormed, NotBefore;
      ListedAreResident();
      var k := |lruList|;
      found, id := false, 0;
      while k > 0
        invariant 0 <= k <= |lruList|
        invariant forall j :: k <= j < |lruList| && Candidate(View(), hotset, lruList[j]) ==> Once(View(), lruList[j]) != once
      {
        k := k - 1;
        var entry := cacheMap[lruList[k]];
        var isOnce := CountOf(lruList[k]) < 2;
        assert Eligible(hotset, lruList[k]) == (entry.CanGo() && lruList[k] !in hotset);
        if entry.CanGo() && lruList[k] !in hotset && isOnce == once {
          return true, lruList[k];
        }
      }
      NonePreferredListed(View(), hotset, once);
    }

    /** Bytes held by experts accessed less than twice. */
    method OnceBytes() returns (size: int)
      ensures size == Sum(View().entries, OnceWeight(View()))
    {
      ghost var c := View();
      var seen: set<Id> := {};
      var rest := cacheMap.Keys;
      size := 0;
      assert c.entries - rest == map[];
      while rest != {}
        invariant rest <= cacheMap.Keys
        invariant size == Sum(c.entries - rest, OnceWeight(c))
        decreases rest
      {
        var id :| id in rest;
        var smaller := rest - {id};
        SumTake(c.entries - smaller, OnceWeight(c), id);
        assert c.entries - smaller - {id} == c.entries - rest;
        assert id in cacheMap && c.entries[id] == cacheMap[id].Value();
        assert OnceWeight(c)(id, c.entries[id]) == if CountOf(id) < 2 then cacheMap[id].mappedSize else 0;
        if CountOf(id) < 2 {
          size := size + cacheMap[id].mappedSize;
        }
        rest := smaller;
      }
      assert c.entries - rest == c.entries;
    }

    method ArcScan(hotset: set<Id>, arcTarget: real) returns (found: bool, id: Id)
      requires Valid()
      ensures found ==> ArcChoice(View(), hotset, arcTarget, id)
      ensures !found ==> forall x: Id :: !Candidate(View(), hotset, x)
    {
      hide LeastRecent, WellFormed;
      var onceBytes := OnceBytes();
      var evictFromOnce := onceBytes as real > arcTarget;
      found, id := SegmentScan(hotset, evictFromOnce);
      if !found {
        found, id := LruScan(hotset);
      }
    }

    /** LRU-K: the candidate whose window reaches furthest back, in any map order. */
    method LrukScan(hotset: set<Id>, now: Time) returns (found: bool, id: Id)
      requires Valid() && NotBefore(log, now)
      ensures found ==> MaximalDistance(View(), hotset, now, id)
      ensures !found ==> forall x: Id :: !Candidate(View(), hotset, x)
    {
      hide WellFormed, NotBefore, BackDistance;
      var maxBackDist: nat := 0;
      var rest := cacheMap.Keys;
      found, id := false, 0;
      ghost var c := View();
      while rest != {}
        invariant rest <= cacheMap.Keys
        invariant !found ==> forall x: Id :: x in cacheMap.Keys - rest ==> !Candidate(c, hotset, x)
        invariant found ==> Candidate(c, hotset, id) && BackDistance(c, now, id) == maxBackDist
        invariant found ==> forall x: Id :: x in cacheMap.Keys - rest && Candidate(c, hotset, x) ==>
                              BackDistance(c, now, x) <= maxBackDist
        decreases rest
      {
        var next: Id :| next in rest;
        rest := rest - {next};
        if Eligible(hotset, next) {
          var backDist := BackDistanceOf(next, now);
          if !found || backDist > maxBackDist {
            maxBackDist := backDist;
            id := next;
            found := true;
          }
        }
      }
    }

    /** The backward distance, in unsigned arithmetic that never wraps. */
    function BackDistanceOf(id: Id, now: Time): (d: nat)
      requires Valid() && NotBefore(log, now) && id in cacheMap
      reads this, cacheMap.Values, clock
      ensures d == BackDistance(View(), now, id)
    {
      StatsNotAfter(View(), id, now);
      var history := statsMap[id].window;
      if |history| < 2 then INFINITE_DISTANCE else now - history[0]
    }

    /** HYBRID: the candidate with the lowest decayed frequency, in any map order. */
    method HybridScan(hotset: set<Id>, now: Time) returns (found: bool, id: Id)
      requires Valid() && NotBefore(log, now)
      ensures found ==> MinimalScore(View(), hotset, now, id)
      ensures !found ==> forall x: Id :: !Candidate(View(), hotset, x)
    {
      hide WellFormed, NotBefore, Score;
      var lowestScore := 100000000000000000000.0;
      var rest := cacheMap.Keys;
      found, id := false, 0;
      ghost var c := View();
      while rest != {}
        invariant rest <= cacheMap.Keys
        invariant !found ==> forall x: Id :: x in cacheMap.Keys - rest ==> !Candidate(c, hotset, x)
        invariant found ==> Candidate(c, hotset, id) && now >= StatsFor(c, id).last && Score(c, now, id) == lowestScore
        invariant found ==> forall x: Id :: x in cacheMap.Keys - rest && Candidate(c, hotset, x) ==>
                              now >= StatsFor(c, x).last && lowestScore <= Score(c, now, x)
        decreases rest
      {
        var next: Id :| next in rest;
        rest := rest - {next};
        if Eligible(hotset, next) {
          StatsNotAfter(c, next, now);
          var score := ScoreOf(next, now);
          if !found || score < lowestScore {
            lowestScore := score;
            id := next;
            found := true;
          }
        }
      }
    }

    function ScoreOf(id: Id, now: Time): (r: real)
      requires id in statsMap && statsMap[id].last <= now
      reads this, cacheMap.Values
      ensures r == Score(View(), now, id)
    {
      var timeDiff := (now - statsMap[id].last) as real / 1000000000.0;
      statsMap[id].count as real / (1.0 + 0.1 * timeDiff)
    }

    // ----- the hotset -----

    /** All resident ids, in whatever order the map yields them. */
    method ListResident() returns (ids: seq<Id>)
      ensures NoDup(ids) && forall id: Id :: id in ids <==> id in cacheMap
    {
      ids := [];
      var rest := cacheMap.Keys;
      while rest != {}
        invariant rest <= cacheMap.Keys && NoDup(ids)
        invariant forall id: Id :: id in ids <==> id in cacheMap.Keys - rest
        decreases rest
      {
        var id: Id :| id in rest;
        assert id !in ids;
        ids := ids + [id];
        rest := rest - {id};
      }
    }

    /** Sorts by descending access count; callers may not rely on how ties fall. */
    method SortByFrequency() returns (order: seq<Id>)
      ensures SortedByFrequency(View(), order)
    {
      var ids := ListResident();
      order := [];
      for k := 0 to |ids|
        invariant SortedIds(View(), order)
        invariant forall id: Id :: id in order <==> id in ids[..k]
      {
        var p := 0;
        while p < |order| && CountOf(order[p]) >= CountOf(ids[k])
          invariant 0 <= p <= |order|
          invariant forall j :: 0 <= j < p ==> Frequency(View(), order[j]) >= Frequency(View(), ids[k])
        {
          p := p + 1;
        }
        assert ids[k] !in ids[..k];
        InsertSorted(View(), order, p, ids[k]);
        order := order[..p] + [ids[k]] + order[p..];
        assert ids[..k + 1] == ids[..k] + [ids[k]];
      }
      assert ids[..|ids|] == ids;
    }

    /** Protects experts in that order while their sizes fit the limit. */
    method ChooseHotset(limit: nat) returns (hotset: set<Id>, order: seq<Id>)
      ensures SortedByFrequency(View(), order)
      ensures hotset == Greedy(View().entries, order, limit)
    {
      ghost var entries: map<Id, Entry> := View().entries;
      order := SortByFrequency();
      hotset := {};
      var accumulated: nat := 0;
      for k := 0 to |order|
        invariant accumulated <= limit
        invariant Greedy(entries, order, limit) == hotset + Greedy(entries, order[k..], limit - accumulated)
      {
        assert order[k] in order;
        var entry := cacheMap[order[k]];
        assert entries[order[k]] == entry.Value() && order[k..][1..] == order[k + 1..];
        if accumulated + entry.mappedSize <= limit {
          hotset := hotset + {order[k]};
          accumulated := accumulated + entry.mappedSize;
        } else {
          return;
        }
      }
    }

    // ----- the loop -----

    /** One pass: the hotset, then the policy's scan. */
    method OnePass(policy: Policy, hot: Hot, arcTarget: real) returns (found: bool, id: Id, ghost pass: Pass)
      requires Valid()
      modifies clock
      ensures Valid() && View() == old(View())
      ensures pass.policy == policy && pass.hot == hot && pass.arcTarget == arcTarget && pass.now == clock.time
      ensures ProperPass(View(), pass)
      ensures found ==> IsVictim(View(), pass, id)
      ensures !found ==> forall x: Id :: !Candidate(View(), Hotset(View(), pass), x)
    {
      hide WellFormed, LeastRecent, ArcChoice, MaximalDistance, MinimalScore, SortedByFrequency;
      var hotset: set<Id> := {};
      var order: seq<Id> := [];
      if hot.On? {
        hotset, order := ChooseHotset(hot.limit);
      }
      var now := clock.Now();
      pass := Pass(policy, hot, order, arcTarget, now);
      assert hotset == Hotset(View(), pass);
      match policy
      case LRU => found, id := LruScan(hotset);
      case LRUK => found, id := LrukScan(hotset, now);
      case ARC => found, id := ArcScan(hotset, arcTarget);
      case HYBRID => found, id := HybridScan(hotset, now);
    }

    lemma UnlinkedValues(id: Id)
      ensures Values(cacheMap - {id}) == Values(cacheMap) - {id}
    {
    }

    /** Takes an entry out of the list and the map. */
    method Unlink(id: Id)
      requires Filed()
      modifies this`lruList, this`cacheMap, this`evictionCount
      ensures Filed() && cacheMap == old(cacheMap) - {id}
      ensures View() == Discard(old(View()), id)
    {
      UnlinkedValues(id);
      lruList := Remove(lruList, id);
      cacheMap := cacheMap - {id};
      evictionCount := evictionCount + 1;
    }

    /** Unlinks one entry and releases its mapping. */
    method EvictEntryInternal(id: Id)
      requires Valid() && id in cacheMap
      modifies this, memory`currentRamUsage, memory`cacheOccupancy, memory`mappings
      ensures Valid() && View() == Discard(old(View()), id)
      ensures cacheMap == old(cacheMap) - {id}
      ensures memory.View() == Release(old(memory.View()), old(cacheMap[id].Value()))
    {
      hide WellFormed, NotBefore, Discard, Filed;
      DiscardKeeps(View(), id);
      var entry := cacheMap[id];
      Unlink(id);
      if entry.mappedPtr.At? {
        memory.UnmapExpert(entry.mappedPtr, entry.mappedSize);
        memory.SubCacheOccupancy(entry.mappedSize);
      }
    }

    /** Evicts the victim a pass has chosen. */
    method EvictVictim(id: Id, ghost pass: Pass)
      requires Valid() && MayEvict(View(), memory.View(), Eviction(pass, id))
      modifies this, memory`currentRamUsage, memory`cacheOccupancy, memory`mappings
      ensures Valid() && cacheMap == old(cacheMap) - {id} && id in old(cacheMap)
      ensures cacheMap.Values <= old(cacheMap.Values) && cacheMap.Keys < old(cacheMap.Keys)
      ensures View() == EvictCache(old(View()), Eviction(pass, id))
      ensures memory.View() == EvictMem(old(View()), old(memory.View()), Eviction(pass, id))
    {
      hide WellFormed, NotBefore, IsVictim, Hotset, Discard, Release;
      VictimIsCandidate(View(), pass, id);
      EvictEntryInternal(id);
      assert id in old(cacheMap.Keys);
    }

    /** The body of the loop: choose, and evict if there is a choice. */
    method EvictSomething(policy: Policy, hot: Hot, arcTarget: real) returns (found: bool, ghost e: Eviction)
      requires Valid() && memory.cacheOccupancy > maxBytes
      modifies this, clock, memory`currentRamUsage, memory`cacheOccupancy, memory`mappings
      ensures Valid() && cacheMap.Values <= old(cacheMap.Values)
      ensures forall x: Id :: x in cacheMap ==> x in old(cacheMap) && cacheMap[x] == old(cacheMap)[x]
      ensures e.pass.policy == policy && e.pass.hot == hot && e.pass.arcTarget == arcTarget
      ensures found ==> MayEvict(old(View()), old(memory.View()), e) && cacheMap.Keys < old(cacheMap.Keys)
      ensures found ==> View() == EvictCache(old(View()), e)
      ensures found ==> memory.View() == EvictMem(old(View()), old(memory.View()), e)
      ensures !found ==> View() == old(View()) && memory.View() == old(memory.View())
      ensures !found ==> MayStop(View(), memory.View(), e.pass)
    {
      hide WellFormed, NotBefore, IsVictim, ProperPass, Hotset, Candidate, EvictCache, EvictMem;
      var id: Id;
      ghost var pass: Pass;
      found, id, pass := OnePass(policy, hot, arcTarget);
      e := Eviction(pass, id);
      if found {
        EvictVictim(id, pass);
      }
    }

    lemma WithinBudgetStops(halt: Pass)
      requires memory.cacheOccupancy <= maxBytes
      ensures MayStop(View(), memory.View(), halt)
    {
    }

    /** The loop: passes until the occupancy is within the budget or nothing can go. It is a run of the
        eviction relation, so every policy's choices, completeness and the budget bound follow. */
    method EvictIfOverBudget(at: nat -> Switches, arcTarget: real) returns (ghost run: seq<Eviction>, ghost halt: Pass)
      requires Valid()
      modifies this, clock, memory`currentRamUsage, memory`cacheOccupancy, memory`mappings
      ensures Valid() && cacheMap.Values <= old(cacheMap.Values)
      ensures forall x: Id :: x in cacheMap ==> x in old(cacheMap) && cacheMap[x] == old(cacheMap)[x]
      ensures EvictionRun(old(View()), old(memory.View()), run, halt)
      ensures Follows(run, halt, at, arcTarget)
      ensures View() == AfterCache(old(View()), run)
      ensures memory.View() == AfterMem(old(View()), old(memory.View()), run)
    {
      hide *;
      ghost var c0, m0 := View(), memory.View();
      var passes: nat := 0;
      run := [];
      PrefixStarts(c0, m0, at, arcTarget);
      while memory.cacheOccupancy > maxBytes
        invariant Valid() && cacheMap.Values <= old(cacheMap.Values)
        invariant forall x: Id :: x in cacheMap ==> x in old(cacheMap) && cacheMap[x] == old(cacheMap)[x]
        invariant EvictionPrefix(c0, m0, run)
        invariant View() == AfterCache(c0, run)
        invariant memory.View() == AfterMem(c0, m0, run)
        invariant passes == |run| && Followed(run, at, arcTarget)
        decreases cacheMap.Keys
      {
        var switches := at(passes);
        var found, e := EvictSomething(switches.policy, switches.hot, arcTarget);
        if !found {
          halt := e.pass;
          PrefixStops(c0, m0, run, halt);
          FollowedStops(run, halt, at, arcTarget);
          return;
        }
        PrefixExtends(c0, m0, run, e);
        FollowedExtends(run, e, at, arcTarget);
        run := run + [e];
        passes := passes + 1;
      }
      halt := Pass(at(passes).policy, at(passes).hot, [], arcTarget, 0);
      WithinBudgetStops(halt);
      PrefixStops(c0, m0, run, halt);
      FollowedStops(run, halt, at, arcTarget);
    }

    // ----- whole calls -----

    ghost predicate NoneLoading()
      reads this, cacheMap.Values
    {
      AllLoaded(View())
    }

    /** The part of a load outside the first section: map, publish, notify, evict. */
    method CompleteLoad(id: Id, pin: bool, at: nat -> Switches, arcTarget: real, ghost now: Time) returns (ok: bool, ghost l: Load)
      requires Valid() && id in cacheMap
      modifies this, cacheMap[id], clock
      modifies memory`currentRamUsage, memory`peakRamUsage, memory`cacheOccupancy, memory`mappings
      ensures Valid() && cacheMap.Values <= old(cacheMap.Values)
      ensures forall x: Id :: x in cacheMap ==> x in old(cacheMap) && cacheMap[x] == old(cacheMap)[x]
      ensures l.now == now && l.size == old(memory.expertSize) && Follows(l.run, l.halt, at, arcTarget)
      ensures ok <==> l.ptr.At?
      ensures EvictionRun(LoadedCache(old(View()), id, l, pin), LoadedMem(old(memory.View()), id, l), l.run, l.halt)
      ensures View() == AfterCache(LoadedCache(old(View()), id, l, pin), l.run)
      ensures memory.View() == AfterMem(LoadedCache(old(View()), id, l, pin), LoadedMem(old(memory.View()), id, l), l.run)
    {
      hide View, Valid, Publish, EvictionRun, Follows, AfterCache, AfterMem;
      var ptr, size := memory.MapExpert(id);
      FinalizeLoad(id, ptr, size, pin);
      ghost var run, halt := EvictIfOverBudget(at, arcTarget);
      l := Load(now, ptr, size, run, halt);
      ok := ptr.At?;
    }

    lemma CountersInView()
      ensures View().stats == statsMap && View().hits == hitCount && View().misses == missCount
      ensures View().evictions == evictionCount && View().max == maxBytes
    {
    }

    lemma EntryInView(id: Id)
      ensures id in View().entries <==> id in cacheMap
      ensures id in cacheMap ==> View().entries[id] == cacheMap[id].Value()
    {
    }

    /** `get_and_pin`: the caller gets the resident entry of its expert, loaded and with one more pin. If
        another thread is loading that very expert, the call sleeps first: AwaitLoad and FinishWaiting. */
    method GetAndPin(id: Id, at: nat -> Switches, arcTarget: real) returns (entry: ExpertEntry, ghost l: Load)
      requires Valid() && (id in cacheMap ==> cacheMap[id].isLoaded)
      modifies this, cacheMap.Values, clock
      modifies memory`currentRamUsage, memory`peakRamUsage, memory`cacheOccupancy, memory`mappings
      ensures Valid() && (old(NoneLoading()) ==> NoneLoading())
      ensures id in cacheMap && cacheMap[id] == entry && entry.isLoaded
      ensures entry.pinCount == (if id in old(cacheMap) then old(cacheMap[id].pinCount) else 0) + 1
      ensures forall e :: e in cacheMap.Values ==> e in old(cacheMap.Values) || fresh(e)
      ensures OneMoreCall(old(statsMap), statsMap, id, l.now)
      ensures hitCount == old(hitCount) + (if id in old(cacheMap) then 1 else 0)
      ensures missCount == old(missCount) + (if id in old(cacheMap) then 0 else 1)
      ensures GetLegal(old(View()), old(memory.View()), id, l)
      ensures View() == GetCache(old(View()), id, l)
      ensures memory.View() == GetMem(old(View()), old(memory.View()), id, l)
      ensures l.size == memory.expertSize && Follows(l.run, l.halt, at, arcTarget)
      ensures entry.mappedPtr == (if id in old(cacheMap) then old(cacheMap[id].mappedPtr) else l.ptr)
      ensures entry.mappedSize == (if id in old(cacheMap) then old(cacheMap[id].mappedSize) else l.size)
    {
      hide View, Valid, NotBefore, EnterGet, EvictionRun, AfterCache, AfterMem, LoadedCache, LoadedMem;
      ghost var m0 := memory.View();
      EntryInView(id);
      CountersInView();
      var presence;
      entry, presence := EnterGetAndPin(id);
      ghost var now := clock.time;
      if presence.Absent? {
        var ok;
        ok, l := CompleteLoad(id, true, at, arcTarget, now);
      } else {
        l := Load(now, At(0), memory.expertSize, [], Pass(at(0).policy, at(0).hot, [], arcTarget, 0));
      }
      EnterGetResident(old(View()), id, now);
      GetLeavesEntry(old(View()), m0, id, l);
      GetIsOneCall(old(View()), id, l);
      CountersInView();
      if AllLoaded(old(View())) { GetLeavesLoaded(old(View()), m0, id, l); }
      EntryInView(id);
    }

    /** `prefetch_expert`: true unless the mapping failed. */
    method PrefetchExpert(id: Id, at: nat -> Switches, arcTarget: real) returns (ok: bool, ghost l: Load)
      requires Valid()
      modifies this, clock
      modifies memory`currentRamUsage, memory`peakRamUsage, memory`cacheOccupancy, memory`mappings
      ensures Valid() && (old(NoneLoading()) ==> NoneLoading())
      ensures forall e :: e in cacheMap.Values ==> e in old(cacheMap.Values) || fresh(e)
      ensures OneMoreCall(old(statsMap), statsMap, id, l.now)
      ensures hitCount == old(hitCount) && missCount == old(missCount)
      ensures PrefetchLegal(old(View()), old(memory.View()), id, l)
      ensures View() == PrefetchCache(old(View()), id, l)
      ensures memory.View() == PrefetchMem(old(View()), old(memory.View()), id, l)
      ensures ok <==> id in old(cacheMap) || l.ptr.At?
      ensures Follows(l.run, l.halt, at, arcTarget) && (id !in old(cacheMap) ==> l.size == memory.expertSize)
    {
      hide WellFormed, NotBefore, EnterPrefetch, EvictionRun, AfterCache, AfterMem, LoadedCache, LoadedMem, OneMoreCall, AllLoaded, Values;
      ghost var m0 := memory.View();
      var present := EnterPrefetchExpert(id);
      ghost var now := clock.time;
      if present {
        ok := true;
        l := Load(now, Null, 0, [], Pass(at(0).policy, at(0).hot, [], arcTarget, 0));
      } else {
        ok, l := CompleteLoad(id, false, at, arcTarget, now);
      }
      PrefetchIsOneCall(old(View()), id, l);
      CountersInView();
      if AllLoaded(old(View())) { PrefetchLeavesLoaded(old(View()), m0, id, l); }
    }

    /** Unmaps one entry, if it is mapped. */
    method ReleaseEntry(entry: ExpertEntry)
      requires entry.isLoaded
      modifies memory`currentRamUsage, memory`cacheOccupancy, memory`mappings
      ensures memory.cacheOccupancy == old(memory.cacheOccupancy) - Bytes(entry.Value())
      ensures memory.currentRamUsage == old(memory.currentRamUsage) - Bytes(entry.Value())
      ensures memory.mappings == if entry.mappedPtr.At? then old(memory.mappings) - {entry.mappedPtr.addr} else old(memory.mappings)
    {
      if entry.mappedPtr.At? {
        memory.UnmapExpert(entry.mappedPtr, entry.mappedSize);
        memory.SubCacheOccupancy(entry.mappedSize);
      }
    }

    /** The destructor: unmaps whatever is mapped and empties the cache. Both counters give back exactly
        the bytes that were resident; entries whose mapping failed give back nothing. */
    method Destroy()
      requires Valid() && NoneLoading()
      modifies this, memory`currentRamUsage, memory`cacheOccupancy, memory`mappings
      ensures cacheMap == map[] && lruList == []
      ensures memory.cacheOccupancy == old(memory.cacheOccupancy) - ResidentBytes(old(View()))
      ensures memory.currentRamUsage == old(memory.currentRamUsage) - ResidentBytes(old(View()))
      ensures memory.mappings == old(memory.mappings) - Addresses(old(View()).entries)
    {
      hide WellFormed, NotBefore, Sum, Addresses, Bytes;
      ghost var entries: map<Id, Entry> := View().entries;
      var rest := cacheMap.Keys;
      NothingReleased(entries);
      while rest != {}
        invariant rest <= cacheMap.Keys && cacheMap == old(cacheMap)
        invariant memory.cacheOccupancy == old(memory.cacheOccupancy) - Sum(entries - rest, BytesWeight())
        invariant memory.currentRamUsage == old(memory.currentRamUsage) - Sum(entries - rest, BytesWeight())
        invariant memory.mappings == old(memory.mappings) - Addresses(entries - rest)
        decreases rest
      {
        var id: Id :| id in rest;
        var smaller := rest - {id};
        var entry := cacheMap[id];
        assert entries[id] == entry.Value() && entry.isLoaded;
        OneMoreReleased(entries, rest, id);
        ReleaseEntry(entry);
        rest := smaller;
      }
      assert entries - rest == entries;
      cacheMap, lruList := map[], [];
    }
  }

  lemma MoreAddresses(a: map<Id, Entry>, b: map<Id, Entry>, id: Id)
    requires id in b && b - {id} == a
    ensures Addresses(b) == Addresses(a) + (if b[id].ptr.At? then {b[id].ptr.addr} else {})
  {
    forall x: Id | x in b && x != id
      ensures x in a && a[x] == b[x]
    {
      assert x in b - {id};
    }
  }

  lemma NothingReleased(entries: map<Id, Entry>)
    ensures Sum(entries - entries.Keys, BytesWeight()) == 0 && Addresses(entries - entries.Keys) == {}
  {
    assert (entries - entries.Keys).Keys == {};
  }

  lemma OneMoreReleased(entries: map<Id, Entry>, rest: set<Id>, id: Id)
    requires id in rest && rest <= entries.Keys
    ensures Sum(entries - (rest - {id}), BytesWeight()) == Sum(entries - rest, BytesWeight()) + Bytes(entries[id])
    ensures Addresses(entries - (rest - {id}))
         == Addresses(entries - rest) + (if entries[id].ptr.At? then {entries[id].ptr.addr} else {})
  {
    var more := entries - (rest - {id});
    assert more - {id} == entries - rest;
    SumTake(more, BytesWeight(), id);
    MoreAddresses(entries - rest, more, id);
  }

  ghost predicate Followed(run: seq<Eviction>, at: nat -> Switches, arcTarget: real) {
    forall k :: 0 <= k < |run| ==>
      Switches(run[k].pass.policy, run[k].pass.hot) == at(k) && run[k].pass.arcTarget == arcTarget
  }

  lemma FollowedStops(run: seq<Eviction>, halt: Pass, at: nat -> Switches, arcTarget: real)
    requires Followed(run, at, arcTarget) && Switches(halt.policy, halt.hot) == at(|run|) && halt.arcTarget == arcTarget
    ensures Follows(run, halt, at, arcTarget)
  {
  }

  lemma FollowedExtends(run: seq<Eviction>, e: Eviction, at: nat -> Switches, arcTarget: real)
    requires Followed(run, at, arcTarget) && Switches(e.pass.policy, e.pass.hot) == at(|run|) && e.pass.arcTarget == arcTarget
    ensures Followed(run + [e], at, arcTarget)
  {
  }

  lemma InsertSorted(c: Cache, order: seq<Id>, p: nat, id: Id)
    requires SortedIds(c, order) && p <= |order| && id !in order
    requires forall j :: 0 <= j < p ==> Frequency(c, order[j]) >= Frequency(c, id)
    requires p < |order| ==> Frequency(c, order[p]) < Frequency(c, id)
    ensures SortedIds(c, order[..p] + [id] + order[p..])
    ensures forall x: Id :: x in order[..p] + [id] + order[p..] <==> x in order || x == id
  {
  }

  ghost predicate SortedIds(c: Cache, order: seq<Id>) {
    && NoDup(order)
    && forall i, j :: 0 <= i < j < |order| ==> Frequency(c, order[i]) >= Frequency(c, order[j])
  }

  // ----- a run of the loop, built from the front -----

  ghost predicate EvictionPrefix(c: Cache, m: Mem, run: seq<Eviction>)
    decreases |run|
  {
    run != [] ==>
      MayEvict(c, m, run[0]) && EvictionPrefix(EvictCache(c, run[0]), EvictMem(c, m, run[0]), run[1..])
  }

  lemma PrefixStarts(c: Cache, m: Mem, at: nat -> Switches, arcTarget: real)
    ensures EvictionPrefix(c, m, []) && AfterCache(c, []) == c && AfterMem(c, m, []) == m && Followed([], at, arcTarget)
  {
  }

  lemma {:induction false} PrefixStops(c: Cache, m: Mem, run: seq<Eviction>, halt: Pass)
    requires EvictionPrefix(c, m, run) && MayStop(AfterCache(c, run), AfterMem(c, m, run), halt)
    ensures EvictionRun(c, m, run, halt)
    decreases |run|
  {
    if run != [] { PrefixStops(EvictCache(c, run[0]), EvictMem(c, m, run[0]), run[1..], halt); }
  }

  lemma {:induction false} PrefixExtends(c: Cache, m: Mem, run: seq<Eviction>, e: Eviction)
    requires EvictionPrefix(c, m, run) && MayEvict(AfterCache(c, run), AfterMem(c, m, run), e)
    ensures EvictionPrefix(c, m, run + [e])
    ensures AfterCache(c, run + [e]) == EvictCache(AfterCache(c, run), e)
    ensures AfterMem(c, m, run + [e]) == EvictMem(AfterCache(c, run), AfterMem(c, m, run), e)
    decreases |run|
  {
    if run == [] {
      assert [e][1..] == [];
    } else {
      PrefixExtends(EvictCache(c, run[0]), EvictMem(c, m, run[0]), run[1..], e);
      assert (run + [e])[1..] == run[1..] + [e];
    }
  }

  /** If no listed id is a candidate, none is. */
  lemma NoneListed(c: Cache, hotset: set<Id>)
    requires WellFormed(c)
    requires forall j :: 0 <= j < |c.lru| ==> !Candidate(c, hotset, c.lru[j])
    ensures forall id: Id :: !Candidate(c, hotset, id)
  {
    forall id: Id
      ensures !Candidate(c, hotset, id)
    {
      if id in c.entries {
        assert id in c.lru;
        var j :| 0 <= j < |c.lru| && c.lru[j] == id;
      }
    }
  }

  lemma NonePreferredListed(c: Cache, hotset: set<Id>, once: bool)
    requires WellFormed(c)
    requires forall j :: 0 <= j < |c.lru| && Candidate(c, hotset, c.lru[j]) ==> Once(c, c.lru[j]) != once
    ensures NonePreferred(c, hotset, once)
  {
    forall id: Id | Candidate(c, hotset, id)
      ensures Once(c, id) != once
    {
      assert id in c.lru;
      var j :| 0 <= j < |c.lru| && c.lru[j] == id;
    }
  }
}
