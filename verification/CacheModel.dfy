/** The expert cache and the memory manager as values, and the critical sections of
    `get_and_pin`, `prefetch_expert` and `unpin` as functions on them. The classes run these
    sections on their fields; the protocol interleaves them. */
module CacheModel {
  import opened Bits
  import opened Sums

  type Id = uint32
  type Time = size_t   // nanoseconds

  /** A `void*`: null, or the address of a mapping. */
  datatype Ptr = Null | At(addr: nat)

  /** One `ExpertEntry`. `obj` names the heap object: the number of entries created before it. */
  datatype Entry = Entry(obj: nat, ptr: Ptr, size: nat, pins: int, waits: int, loaded: bool)

  datatype Stats = Stats(count: uint32, last: Time, window: seq<Time>)

  datatype Access = Access(id: Id, at: Time)

  /** `lru` runs from the most to the least recently used. The last three fields are history: how many
      entries were ever created, every touch of the list, and every recorded access. */
  datatype Cache = Cache(max: nat, entries: map<Id, Entry>, lru: seq<Id>, stats: map<Id, Stats>,
                         hits: nat, misses: nat, evictions: nat,
                         created: nat, touches: seq<Id>, log: seq<Access>)

  /** The part of the weights file a mapping shows, and the expert it was mapped for. */
  datatype Region = Region(expert: Id, offset: size_t, length: nat)

  /** The memory manager's counters, and the live expert mappings by address. */
  datatype Mem = Mem(ram: int, peak: int, occupancy: int, live: map<nat, Region>)

  function EmptyCache(max: nat): Cache {
    Cache(max, map[], [], map[], 0, 0, 0, 0, [], [])
  }

  // ----- access statistics -----

  const WINDOW := 5

  /** `record_access_stats` on one expert's record. */
  function CountAccess(s: Stats, now: Time): Stats {
    var pushed := s.window + [now];
    Stats((s.count + 1) % 0x1_0000_0000, now, if |pushed| > WINDOW then pushed[1..] else pushed)
  }

  function StatsFor(c: Cache, id: Id): Stats {
    if id in c.stats then c.stats[id] else Stats(0, 0, [])
  }

  function RecordAccess(c: Cache, id: Id, now: Time): Cache {
    c.(stats := c.stats[id := CountAccess(StatsFor(c, id), now)], log := c.log + [Access(id, now)])
  }

  /** All the times at which `id` was accessed. */
  function Stamps(log: seq<Access>, id: Id): seq<Time> {
    if log == [] then []
    else
      var before := Stamps(log[..|log| - 1], id);
      var a := log[|log| - 1];
      if a.id == id then before + [a.at] else before
  }

  function LastFew(s: seq<Time>): seq<Time> {
    if |s| > WINDOW then s[|s| - WINDOW..] else s
  }

  /** What an expert's record means: a 32-bit count, the latest and the last five of all its stamps. */
  function Summary(stamps: seq<Time>): Stats {
    if stamps == [] then Stats(0, 0, [])
    else Stats(|stamps| % 0x1_0000_0000, stamps[|stamps| - 1], LastFew(stamps))
  }

  ghost predicate StatsMatchLog(stats: map<Id, Stats>, log: seq<Access>) {
    && (forall id: Id :: id in stats ==> stats[id] == Summary(Stamps(log, id)))
    && (forall id: Id :: id !in stats ==> Stamps(log, id) == [])
  }

  predicate Chronological(log: seq<Access>) {
    forall i, j :: 0 <= i < j < |log| ==> log[i].at <= log[j].at
  }

  predicate NotBefore(log: seq<Access>, now: Time) {
    forall i :: 0 <= i < |log| ==> log[i].at <= now
  }

  // ----- recency -----

  /** Position of the latest touch of `id`, or -1. */
  function LastTouch(touches: seq<Id>, id: Id): int {
    if touches == [] then -1
    else if touches[|touches| - 1] == id then |touches| - 1
    else LastTouch(touches[..|touches| - 1], id)
  }

  ghost predicate OrderedByTouch(lru: seq<Id>, touches: seq<Id>) {
    && (forall k :: 0 <= k < |lru| ==> LastTouch(touches, lru[k]) >= 0)
    && (forall j, k :: 0 <= j < k < |lru| ==> LastTouch(touches, lru[j]) > LastTouch(touches, lru[k]))
  }

  // ----- the cache invariant -----

  /** The list is a duplicate-free permutation of the resident ids, latest touch first. */
  ghost predicate Listed(lru: seq<Id>, touches: seq<Id>, resident: set<Id>) {
    && NoDup(lru)
    && (forall id: Id :: id in lru <==> id in resident)
    && OrderedByTouch(lru, touches)
  }

  ghost predicate Accounted(stats: map<Id, Stats>, log: seq<Access>, resident: set<Id>) {
    && StatsMatchLog(stats, log) && Chronological(log) && resident <= stats.Keys
    && forall id: Id :: id in resident ==> Stamps(log, id) != []
  }

  ghost predicate ObjectsCreated(entries: map<Id, Entry>, created: nat) {
    forall id: Id :: id in entries ==> entries[id].obj < created
  }

  /** Holds whenever the mutex is free. */
  ghost predicate WellFormed(c: Cache) {
    && Listed(c.lru, c.touches, c.entries.Keys)
    && Accounted(c.stats, c.log, c.entries.Keys)
    && ObjectsCreated(c.entries, c.created)
    && c.created == |c.entries.Keys| + c.evictions
  }

  // ----- critical sections -----

  function Touch(c: Cache, id: Id): Cache {
    c.(lru := [id] + Remove(c.lru, id), touches := c.touches + [id])
  }

  function InsertPending(c: Cache, id: Id): Cache {
    c.(entries := c.entries[id := Entry(c.created, Null, 0, 0, 0, false)],
       lru := [id] + c.lru, touches := c.touches + [id], created := c.created + 1)
  }

  datatype Presence = Loaded | Pending | Absent

  function Lookup(c: Cache, id: Id): Presence {
    if id !in c.entries then Absent else if c.entries[id].loaded then Loaded else Pending
  }

  function CountHit(c: Cache, id: Id): Cache
    requires id in c.entries
  {
    var e := c.entries[id];
    Touch(c.(entries := c.entries[id := e.(pins := e.pins + 1)]), id).(hits := c.hits + 1)
  }

  function StartWait(c: Cache, id: Id): Cache
    requires id in c.entries
  {
    var e := c.entries[id];
    c.(entries := c.entries[id := e.(waits := e.waits + 1)], misses := c.misses + 1)
  }

  function StartLoad(c: Cache, id: Id): Cache {
    InsertPending(c.(misses := c.misses + 1), id)
  }

  /** `get_and_pin` up to the point where it returns, starts to wait or drops the mutex. */
  function EnterGet(c: Cache, id: Id, now: Time): Cache {
    var r := RecordAccess(c, id, now);
    match Lookup(c, id)
    case Loaded => CountHit(r, id)
    case Pending => StartWait(r, id)
    case Absent => StartLoad(r, id)
  }

  /** `prefetch_expert` up to the point where it returns or drops the mutex. */
  function EnterPrefetch(c: Cache, id: Id, now: Time): Cache {
    var r := RecordAccess(c, id, now);
    if id in c.entries then Touch(r, id) else InsertPending(r, id)
  }

  /** What a woken waiter does once it sees the entry loaded. */
  function FinishWait(c: Cache, id: Id): Cache
    requires id in c.entries
  {
    var e := c.entries[id];
    Touch(c.(entries := c.entries[id := e.(waits := e.waits - 1, pins := e.pins + 1)]), id)
  }

  /** Finalising a load; a getter takes its pin in the same section. */
  function Publish(c: Cache, id: Id, ptr: Ptr, size: nat, pin: bool): Cache
    requires id in c.entries
  {
    var e := c.entries[id];
    c.(entries := c.entries[id := e.(ptr := ptr, size := size, loaded := true,
                                     pins := e.pins + if pin then 1 else 0)])
  }

  function Unpin(c: Cache, id: Id): Cache {
    if id in c.entries then
      var e := c.entries[id];
      c.(entries := c.entries[id := e.(pins := e.pins - 1)])
    else c
  }

  /** `evict_entry_internal`, the cache's half. */
  function Discard(c: Cache, id: Id): Cache {
    c.(lru := Remove(c.lru, id), entries := c.entries - {id}, evictions := c.evictions + 1)
  }

  // ----- memory manager -----

  /** Byte offset of an expert in the weights file, in 64-bit arithmetic. */
  function OffsetOf(id: Id, expertSize: nat): size_t {
    (id * expertSize) % TWO_64
  }

  function RegionOf(id: Id, expertSize: nat): Region {
    Region(id, OffsetOf(id, expertSize), expertSize)
  }

  function MapExpert(m: Mem, id: Id, expertSize: nat, addr: nat): Mem {
    m.(ram := m.ram + expertSize, live := m.live[addr := RegionOf(id, expertSize)])
  }

  function MaxOf(x: int, y: int): int {
    if x > y then x else y
  }

  function TrackPeak(m: Mem, current: int): Mem {
    m.(peak := MaxOf(m.peak, current))
  }

  function AddOccupancy(m: Mem, e: Ptr, size: nat): Mem {
    if e.Null? then m else m.(occupancy := m.occupancy + size)
  }

  /** `unmap_expert` and `subCacheOccupancy` for an evicted entry. */
  function Release(m: Mem, e: Entry): Mem {
    if e.ptr.Null? then m
    else m.(ram := m.ram - e.size, occupancy := m.occupancy - e.size, live := m.live - {e.ptr.addr})
  }

  /** Bytes an entry adds to the occupancy: a failed mapping adds none. */
  function Bytes(e: Entry): nat {
    if e.loaded && e.ptr.At? then e.size else 0
  }

  function BytesWeight(): (Id, Entry) -> int {
    (id: Id, e: Entry) => Bytes(e)
  }

  ghost function ResidentBytes(c: Cache): int {
    Sum(c.entries, BytesWeight())
  }

  // ----- the sections keep the invariant -----

  lemma {:induction false} TouchPosition(touches: seq<Id>, x: Id, y: Id)
    ensures LastTouch(touches + [x], y) == if x == y then |touches| else LastTouch(touches, y)
    ensures LastTouch(touches, y) < |touches|
  {
    assert (touches + [x])[..|touches|] == touches;
    TouchBelow(touches, y);
  }

  lemma {:induction false} TouchBelow(touches: seq<Id>, y: Id)
    ensures LastTouch(touches, y) < |touches|
  {
    if touches != [] { TouchBelow(touches[..|touches| - 1], y); }
  }

  /** Moving or inserting `id` at the front and logging the touch keeps the list in touch order. */
  lemma FrontKeepsOrder(rest: seq<Id>, touches: seq<Id>, id: Id)
    requires OrderedByTouch(rest, touches) && id !in rest
    ensures OrderedByTouch([id] + rest, touches + [id])
  {
    var l, t := [id] + rest, touches + [id];
    forall k | 0 <= k < |l|
      ensures LastTouch(t, l[k]) == if k == 0 then |touches| else LastTouch(touches, rest[k - 1])
      ensures k > 0 ==> LastTouch(touches, rest[k - 1]) < |touches|
    {
      TouchPosition(touches, id, l[k]);
    }
  }

  lemma RemoveKeepsOrder(lru: seq<Id>, touches: seq<Id>, id: Id)
    requires OrderedByTouch(lru, touches) && NoDup(lru)
    ensures OrderedByTouch(Remove(lru, id), touches) && NoDup(Remove(lru, id))
  {
    if id in lru {
      var k :| 0 <= k < |lru| && lru[k] == id;
      RemoveAt(lru, k);
    } else {
      RemoveAbsent(lru, id);
    }
  }

  lemma TouchListed(lru: seq<Id>, touches: seq<Id>, resident: set<Id>, id: Id)
    requires Listed(lru, touches, resident) && id in resident
    ensures Listed([id] + Remove(lru, id), touches + [id], resident)
  {
    RemoveKeepsOrder(lru, touches, id);
    FrontKeepsOrder(Remove(lru, id), touches, id);
  }

  lemma InsertListed(lru: seq<Id>, touches: seq<Id>, resident: set<Id>, id: Id)
    requires Listed(lru, touches, resident) && id !in resident
    ensures Listed([id] + lru, touches + [id], resident + {id})
  {
    FrontKeepsOrder(lru, touches, id);
  }

  lemma RemoveListed(lru: seq<Id>, touches: seq<Id>, resident: set<Id>, id: Id)
    requires Listed(lru, touches, resident)
    ensures Listed(Remove(lru, id), touches, resident - {id})
  {
    RemoveKeepsOrder(lru, touches, id);
  }

  lemma ResidentMore(stats: map<Id, Stats>, log: seq<Access>, resident: set<Id>, id: Id)
    requires Accounted(stats, log, resident) && id in stats && Stamps(log, id) != []
    ensures Accounted(stats, log, resident + {id})
  {
  }

  lemma ObjectsMore(entries: map<Id, Entry>, created: nat, id: Id, e: Entry)
    requires ObjectsCreated(entries, created) && e.obj == created
    ensures ObjectsCreated(entries[id := e], created + 1)
    ensures entries[id := e].Keys == entries.Keys + {id}
  {
  }

  lemma InsertKeeps(c: Cache, id: Id)
    requires WellFormed(c) && id !in c.entries && id in c.stats && Stamps(c.log, id) != []
    ensures WellFormed(InsertPending(c, id))
  {
    hide Listed, Accounted, ObjectsCreated;
    InsertListed(c.lru, c.touches, c.entries.Keys, id);
    ResidentMore(c.stats, c.log, c.entries.Keys, id);
    ObjectsMore(c.entries, c.created, id, Entry(c.created, Null, 0, 0, 0, false));
  }

  lemma LogExtended(log: seq<Access>, a: Access, id: Id)
    ensures Stamps(log + [a], id) == if a.id == id then Stamps(log, id) + [a.at] else Stamps(log, id)
  {
    assert (log + [a])[..|log|] == log;
  }

  lemma CountWraps(n: nat)
    ensures (n % 0x1_0000_0000 + 1) % 0x1_0000_0000 == (n + 1) % 0x1_0000_0000
  {
  }

  lemma WindowSlides(stamps: seq<Time>, now: Time)
    ensures CountAccess(Summary(stamps), now) == Summary(stamps + [now])
  {
    CountWraps(|stamps|);
  }

  /** The five-slot window equals the last five stamps of the whole log after every access. */
  lemma StatsKeepMatching(stats: map<Id, Stats>, log: seq<Access>, id: Id, now: Time)
    requires StatsMatchLog(stats, log)
    ensures var s := if id in stats then stats[id] else Stats(0, 0, []);
            StatsMatchLog(stats[id := CountAccess(s, now)], log + [Access(id, now)])
  {
    hide Summary, CountAccess, Stamps;
    EmptySummary();
    WindowSlides(Stamps(log, id), now);
    forall x: Id
      ensures Stamps(log + [Access(id, now)], x) == if x == id then Stamps(log, id) + [now] else Stamps(log, x)
    {
      LogExtended(log, Access(id, now), x);
    }
  }

  lemma RecordKeeps(c: Cache, id: Id, now: Time)
    requires WellFormed(c) && NotBefore(c.log, now)
    ensures WellFormed(RecordAccess(c, id, now))
    ensures Stamps(RecordAccess(c, id, now).log, id) != []
  {
    hide Listed, StatsMatchLog, CountAccess;
    StatsKeepMatching(c.stats, c.log, id, now);
    forall x: Id
      ensures |Stamps(c.log + [Access(id, now)], x)| >= |Stamps(c.log, x)|
      ensures x == id ==> Stamps(c.log + [Access(id, now)], x) != []
    {
      LogExtended(c.log, Access(id, now), x);
    }
  }

  lemma EmptySummary()
    ensures Summary([]) == Stats(0, 0, [])
  {
  }

  /** Changing the counters or the payload of one entry in place. */
  lemma UpdateKeeps(c: Cache, id: Id, e: Entry)
    requires WellFormed(c) && id in c.entries && e.obj == c.entries[id].obj
    ensures WellFormed(c.(entries := c.entries[id := e]))
  {
    hide Listed, Accounted;
    assert c.entries[id := e].Keys == c.entries.Keys;
  }

  lemma TouchKeeps(c: Cache, id: Id)
    requires WellFormed(c) && id in c.entries
    ensures WellFormed(Touch(c, id))
  {
    TouchListed(c.lru, c.touches, c.entries.Keys, id);
  }

  lemma EnterGetKeeps(c: Cache, id: Id, now: Time)
    requires WellFormed(c) && NotBefore(c.log, now)
    ensures WellFormed(EnterGet(c, id, now))
  {
    hide Listed, Accounted;
    RecordKeeps(c, id, now);
    var r := RecordAccess(c, id, now);
    match Lookup(c, id)
    case Loaded =>
      var e := c.entries[id].(pins := c.entries[id].pins + 1);
      UpdateKeeps(r, id, e);
      TouchKeeps(r.(entries := r.entries[id := e]), id);
    case Pending =>
      UpdateKeeps(r, id, c.entries[id].(waits := c.entries[id].waits + 1));
    case Absent => InsertKeeps(r.(misses := c.misses + 1), id);
  }

  lemma EnterPrefetchKeeps(c: Cache, id: Id, now: Time)
    requires WellFormed(c) && NotBefore(c.log, now)
    ensures WellFormed(EnterPrefetch(c, id, now))
  {
    hide Listed, Accounted;
    RecordKeeps(c, id, now);
    var r := RecordAccess(c, id, now);
    if id in c.entries { TouchKeeps(r, id); } else { InsertKeeps(r, id); }
  }

  lemma FinishWaitKeeps(c: Cache, id: Id)
    requires WellFormed(c) && id in c.entries
    ensures WellFormed(FinishWait(c, id))
  {
    hide Listed, Accounted;
    var e := c.entries[id].(waits := c.entries[id].waits - 1, pins := c.entries[id].pins + 1);
    UpdateKeeps(c, id, e);
    TouchKeeps(c.(entries := c.entries[id := e]), id);
  }

  lemma DiscardKeeps(c: Cache, id: Id)
    requires WellFormed(c) && id in c.entries
    ensures WellFormed(Discard(c, id))
  {
    hide Listed;
    RemoveListed(c.lru, c.touches, c.entries.Keys, id);
    assert Discard(c, id).entries.Keys == c.entries.Keys - {id};
  }

  lemma {:induction false} StampsNotAfter(log: seq<Access>, id: Id, now: Time)
    requires NotBefore(log, now)
    ensures forall k :: 0 <= k < |Stamps(log, id)| ==> Stamps(log, id)[k] <= now
  {
    if log != [] { StampsNotAfter(log[..|log| - 1], id, now); }
  }

  /** Recorded times never lie in the future, so ages and backward distances do not wrap. */
  lemma StatsNotAfter(c: Cache, id: Id, now: Time)
    requires WellFormed(c) && NotBefore(c.log, now) && id in c.entries
    ensures id in c.stats && c.stats[id].window != [] && c.stats[id].window[0] <= now && c.stats[id].last <= now
  {
    StampsNotAfter(c.log, id, now);
  }

  /** Every call of `get_and_pin` is counted exactly once, as a hit or as a miss. */
  lemma GetCountsOnce(c: Cache, id: Id, now: Time)
    ensures var c' := EnterGet(c, id, now);
            && c'.hits + c'.misses == c.hits + c.misses + 1
            && (c'.hits == c.hits + 1 <==> id in c.entries && c.entries[id].loaded)
  {
  }

  /** The addresses of the mapped entries. */
  function Addresses(entries: map<Id, Entry>): set<nat> {
    set id: Id | id in entries && entries[id].ptr.At? :: entries[id].ptr.addr
  }

  function BytesAt(entries: map<Id, Entry>, id: Id): nat {
    if id in entries then Bytes(entries[id]) else 0
  }

  lemma ResidentMoves(c: Cache, c': Cache, id: Id, e: Entry)
    requires c'.entries == c.entries[id := e]
    ensures ResidentBytes(c') == ResidentBytes(c) - BytesAt(c.entries, id) + Bytes(e)
  {
    if id in c.entries {
      SumUpdate(c.entries, BytesWeight(), id, e);
    } else {
      SumInsert(c.entries, BytesWeight(), id, e);
    }
  }
}
