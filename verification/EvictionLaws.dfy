/** What the policies' choices mean in terms of the recorded accesses and the entries' own fields. */
module EvictionLaws {
  import opened Bits
  import opened Sums
  import opened CacheModel
  import opened Eviction
  import opened TieOrders = Hotset
  import opened HotsetTies

  // ----- who may go, and when the loop stops -----

  /** A victim is loaded, unpinned, unwaited and not in the hotset. */
  lemma VictimMayGo(c: Cache, p: Pass, v: Id)
    requires IsVictim(c, p, v)
    ensures v in c.entries && c.entries[v].loaded && c.entries[v].pins == 0 && c.entries[v].waits == 0
    ensures v !in Hotset(c, p)
  {
    VictimIsCandidate(c, p, v);
  }

  /** A run that ends over budget leaves no loaded, unpinned, unwaited entry outside the last pass's hotset,
      whether its mapping succeeded or not. */
  lemma {:induction false} StopsOnlyWhenNothingCanGo(c: Cache, m: Mem, run: seq<Eviction>, halt: Pass, x: Id)
    requires EvictionRun(c, m, run, halt)
    ensures var c', m' := AfterCache(c, run), AfterMem(c, m, run);
            m'.occupancy > c'.max && x in c'.entries
            && c'.entries[x].loaded && c'.entries[x].pins == 0 && c'.entries[x].waits == 0 ==>
              x in Hotset(c', halt)
    decreases |run|
  {
    if run != [] {
      StopsOnlyWhenNothingCanGo(EvictCache(c, run[0]), EvictMem(c, m, run[0]), run[1..], halt, x);
    } else if m.occupancy > c.max {
      assert !Candidate(c, Hotset(c, halt), x);
    }
  }

  /** The hotset stops only at an expert that does not fit: the first unprotected one in the order would exceed
      the limit. */
  lemma {:induction false} HotsetStopsAtLimit(entries: map<Id, Entry>, order: seq<Id>, room: int, k: nat)
    requires NoDup(order) && room >= 0 && k < |order| && order[k] in entries
    requires forall j :: 0 <= j < k ==> order[j] in entries && order[j] in Greedy(entries, order, room)
    requires order[k] !in Greedy(entries, order, room)
    ensures Sum(entries, HotWeight(Elements(order[..k]))) + entries[order[k]].size > room
    decreases k
  {
    if k == 0 {
      assert order[..0] == [];
      SumOfZero(entries, HotWeight(Elements(order[..0])));
    } else {
      var id, rest := order[0], order[1..];
      forall j | 0 <= j < k - 1
        ensures rest[j] in entries && rest[j] in Greedy(entries, rest, room - entries[id].size)
      {
        assert rest[j] == order[j + 1];
      }
      HotsetStopsAtLimit(entries, rest, room - entries[id].size, k - 1);
      assert order[..k] == [id] + rest[..k - 1];
      OneMoreHot(entries, rest[..k - 1], id);
    }
  }

  lemma OneMoreHot(entries: map<Id, Entry>, ids: seq<Id>, id: Id)
    requires id in entries && id !in ids
    ensures Sum(entries, HotWeight(Elements([id] + ids))) == entries[id].size + Sum(entries, HotWeight(Elements(ids)))
  {
    var a, b := HotWeight(Elements([id] + ids)), HotWeight(Elements(ids));
    assert Elements([id] + ids) == {id} + Elements(ids);
    SumTake(entries, a, id);
    SumTake(entries, b, id);
    SumAgree(entries - {id}, a, b);
  }

  // ----- the recorded accesses -----

  /** The oldest of the last five accesses, or of all if there are fewer. */
  function OldestOfFive(s: seq<Time>): Time
    requires s != []
  {
    s[if |s| > 5 then |s| - 5 else 0]
  }

  lemma RecordOf(c: Cache, x: Id)
    requires WellFormed(c) && x in c.entries
    ensures var s, r := Stamps(c.log, x), StatsFor(c, x);
            && s != [] && r.window != [] && r.window[0] == OldestOfFive(s) && (|r.window| < 2 <==> |s| == 1)
            && r.last == s[|s| - 1] && r.count == |s| % 0x1_0000_0000
  {
    hide Stamps, Listed, ObjectsCreated;
  }

  lemma StampsBefore(c: Cache, x: Id, now: Time)
    requires NotBefore(c.log, now)
    ensures forall i :: 0 <= i < |Stamps(c.log, x)| ==> Stamps(c.log, x)[i] <= now
  {
    StampsNotAfter(c.log, x, now);
  }

  // ----- LRU-K -----

  /** An expert accessed once goes before any accessed more often; among those, the one whose fifth-last access (or
      first, if there are fewer) is the oldest. The one exception is a stamp 2^64 - 1 ns back. */
  lemma LrukLaw(c: Cache, p: Pass, v: Id, x: Id)
    requires WellFormed(c) && NotBefore(c.log, p.now) && p.policy.LRUK? && IsVictim(c, p, v)
    requires x in c.entries && c.entries[x].loaded && c.entries[x].pins == 0 && c.entries[x].waits == 0 && x !in Hotset(c, p)
    ensures var sv, sx := Stamps(c.log, v), Stamps(c.log, x);
            && sv != [] && sx != []
            && (|sx| == 1 && p.now - OldestOfFive(sv) < 0xFFFF_FFFF_FFFF_FFFF ==> |sv| == 1)
            && (|sx| > 1 && |sv| > 1 ==> OldestOfFive(sv) <= OldestOfFive(sx))
  {
    hide WellFormed, Stamps, Hotset, OldestOfFive, NotBefore;
    RecordOf(c, v);
    RecordOf(c, x);
    assert Candidate(c, Hotset(c, p), x);
  }

  // ----- HYBRID -----

  /** Age in seconds. */
  function Age(now: Time, at: Time): real
    requires at <= now
  {
    (now - at) as real / 1000000000.0
  }

  lemma CrossMultiply(a: real, b: real, c: real, d: real)
    requires b > 0.0 && d > 0.0 && a / b <= c / d
    ensures a * d <= c * b
  {
    var x, y := a / b, c / d;
    assert a == x * b && c == y * d;
    assert a * d == x * (b * d) && c * b == y * (b * d);
    assert (y - x) * (b * d) >= 0.0;
  }

  function DecayFactor(now: Time, at: Time): (f: real)
    requires at <= now
    ensures f > 0.0
  {
    1.0 + 0.1 * Age(now, at)
  }

  lemma ScoreOfAccesses(c: Cache, x: Id, now: Time)
    requires WellFormed(c) && NotBefore(c.log, now) && x in c.entries
    ensures var s := Stamps(c.log, x);
            && s != [] && s[|s| - 1] <= now && StatsFor(c, x).last <= now
            && Score(c, now, x) == (|s| % 0x1_0000_0000) as real / DecayFactor(now, s[|s| - 1])
  {
    hide WellFormed, Stamps, OldestOfFive, NotBefore;
    RecordOf(c, x);
    StampsBefore(c, x, now);
  }

  /** Accesses divided by one plus a tenth of the age: the victim's is the least of all, written without division. */
  lemma HybridLaw(c: Cache, p: Pass, v: Id, x: Id)
    requires WellFormed(c) && NotBefore(c.log, p.now) && p.policy.HYBRID? && IsVictim(c, p, v)
    requires x in c.entries && c.entries[x].loaded && c.entries[x].pins == 0 && c.entries[x].waits == 0 && x !in Hotset(c, p)
    ensures var sv, sx := Stamps(c.log, v), Stamps(c.log, x);
            && sv != [] && sx != [] && sv[|sv| - 1] <= p.now && sx[|sx| - 1] <= p.now
            && (|sv| % 0x1_0000_0000) as real * (1.0 + 0.1 * Age(p.now, sx[|sx| - 1]))
               <= (|sx| % 0x1_0000_0000) as real * (1.0 + 0.1 * Age(p.now, sv[|sv| - 1]))
  {
    hide WellFormed, Stamps, Hotset, NotBefore, Score, Age;
    assert Candidate(c, Hotset(c, p), x);
    ScoreOfAccesses(c, v, p.now);
    ScoreOfAccesses(c, x, p.now);
    var sv, sx := Stamps(c.log, v), Stamps(c.log, x);
    CrossMultiply((|sv| % 0x1_0000_0000) as real, DecayFactor(p.now, sv[|sv| - 1]),
                  (|sx| % 0x1_0000_0000) as real, DecayFactor(p.now, sx[|sx| - 1]));
  }

  // ----- ARC -----

  /** Accessed less than twice, as far as a 32-bit count can tell: for a resident expert with fewer than 2^32
      accesses, exactly once. */
  predicate SeenOnce(c: Cache, x: Id) {
    |Stamps(c.log, x)| % 0x1_0000_0000 < 2
  }

  ghost function BytesSeenOnce(c: Cache): int {
    Sum(c.entries, (id: Id, e: Entry) => if SeenOnce(c, id) then e.size else 0)
  }

  lemma OnceIsSeenOnce(c: Cache, x: Id)
    requires WellFormed(c) && x in c.entries
    ensures Once(c, x) <==> SeenOnce(c, x)
    ensures |Stamps(c.log, x)| < 0x1_0000_0000 ==> (SeenOnce(c, x) <==> |Stamps(c.log, x)| == 1)
  {
    hide WellFormed, Stamps, OldestOfFive;
    RecordOf(c, x);
  }

  lemma OnceBytesAreBytesSeenOnce(c: Cache)
    requires WellFormed(c)
    ensures Sum(c.entries, OnceWeight(c)) == BytesSeenOnce(c)
  {
    hide WellFormed, SeenOnce, Once;
    forall id | id in c.entries
      ensures OnceWeight(c)(id, c.entries[id]) == if SeenOnce(c, id) then c.entries[id].size else 0
    {
      OnceIsSeenOnce(c, id);
    }
    SumAgree(c.entries, OnceWeight(c), (id: Id, e: Entry) => if SeenOnce(c, id) then e.size else 0);
  }

  /** If the experts seen once hold more bytes than the target, one of them goes if any can, otherwise one seen
      more often if any can; and of the experts on that side the one touched longest ago. */
  lemma ArcLaw(c: Cache, p: Pass, v: Id, x: Id)
    requires WellFormed(c) && p.policy.ARC? && IsVictim(c, p, v)
    requires x in c.entries && c.entries[x].loaded && c.entries[x].pins == 0 && c.entries[x].waits == 0 && x !in Hotset(c, p)
    ensures var preferOnce := BytesSeenOnce(c) as real > p.arcTarget;
            && (SeenOnce(c, x) == preferOnce ==> SeenOnce(c, v) == preferOnce)
            && (SeenOnce(c, x) == SeenOnce(c, v) && x != v ==> LastTouch(c.touches, v) < LastTouch(c.touches, x))
  {
    hide SeenOnce, Accounted, ObjectsCreated, Once, LastTouch, Hotset, BytesSeenOnce, StatsFor;
    OnceBytesAreBytesSeenOnce(c);
    VictimMayGo(c, p, v);
    OnceIsSeenOnce(c, v);
    OnceIsSeenOnce(c, x);
    assert Candidate(c, Hotset(c, p), x);
    var once := EvictFromOnce(c, p.arcTarget);
    if LeastRecent(c, Hotset(c, p), Segment(c, once), v) {
      if Once(c, x) == once && x != v { LeastRecentTouchedFirst(c, Hotset(c, p), Segment(c, once), v, x); }
    } else {
      if x != v { LeastRecentTouchedFirst(c, Hotset(c, p), Anything(), v, x); }
    }
  }

  lemma LeastRecentTouchedFirst(c: Cache, hotset: set<Id>, wanted: Id -> bool, v: Id, x: Id)
    requires Listed(c.lru, c.touches, c.entries.Keys) && LeastRecent(c, hotset, wanted, v)
    requires Candidate(c, hotset, x) && wanted(x) && x != v
    ensures LastTouch(c.touches, v) < LastTouch(c.touches, x)
  {
    var k :| 0 <= k < |c.lru| && c.lru[k] == v
             && forall j :: k < j < |c.lru| ==> !(Candidate(c, hotset, c.lru[j]) && wanted(c.lru[j]));
    assert x in c.lru;
    var j :| 0 <= j < |c.lru| && c.lru[j] == x;
    assert j < k;
  }
}
