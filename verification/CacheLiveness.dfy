/** Every waiter is served: in any infinite fair schedule, a thread that waits for an entry gets its
    pin on that same entry. The measure is the distance of the entry's loader from publishing. */
module CacheLiveness {
  import opened CacheModel
  import opened Eviction
  import opened CacheProtocol
  import opened CacheSafety
  import opened CacheTheorems

  // ----- a loader is never stuck -----

  lemma DiscardLists(c: Cache, v: Id)
    requires Listed(c.lru, c.touches, c.entries.Keys)
    ensures var c' := Discard(c, v);
            Listed(c'.lru, c'.touches, c'.entries.Keys) && c'.entries.Keys == c.entries.Keys - {v}
  {
    RemoveListed(c.lru, c.touches, c.entries.Keys, v);
    assert Discard(c, v).entries.Keys == c.entries.Keys - {v};
  }

  lemma ListedIds(c: Cache)
    requires Listed(c.lru, c.touches, c.entries.Keys)
    ensures forall id: Id :: id in c.lru <==> id in c.entries
  {
  }

  /** The eviction loop always has a way to finish, whatever is pinned. */
  lemma {:induction false} EvictionCanFinish(c: Cache, m: Mem) returns (run: seq<Eviction>, halt: Pass)
    requires Listed(c.lru, c.touches, c.entries.Keys)
    ensures EvictionRun(c, m, run, halt) && halt.hot.Off?
    decreases |c.entries.Keys|
  {
    hide Listed, LeastRecent;
    halt := Pass(LRU, Off, [], 0.0, 0);
    run := [];
    assert Hotset(c, halt) == {};
    if m.occupancy > c.max && exists id: Id :: Candidate(c, {}, id) {
      var id: Id :| Candidate(c, {}, id);
      ListedIds(c);
      var v := LeastRecentExists(c, {}, id);
      var e := Eviction(halt, v);
      VictimIsCandidate(c, halt, v);
      DiscardLists(c, v);
      var rest, h := EvictionCanFinish(EvictCache(c, e), EvictMem(c, m, e));
      run, halt := [e] + rest, h;
      assert run[1..] == rest;
    }
  }

  lemma PublishedStaysListed(cfg: Config, s: State, i: nat)
    requires Inv(cfg, s) && i < |s.threads| && s.threads[i].pc.Mapped? && s.threads[i].pc.id in s.cache.entries
    ensures var c := PublishedCache(cfg, s, i); Listed(c.lru, c.touches, c.entries.Keys)
  {
    hide EntriesOk, ThreadsOk, MemoryOk, AsleepOk, Listed, Accounted, ObjectsCreated;
    assert PublishedCache(cfg, s, i).entries.Keys == s.cache.entries.Keys;
  }

  /** Whatever the others do, a thread that is loading always has a next step of its own. */
  lemma MappedCanFinish(cfg: Config, s: State, i: nat) returns (a: Action)
    requires Inv(cfg, s) && i < |s.threads| && s.threads[i].pc.Mapped?
    ensures Enabled(cfg, s, a) && a.i == i && !a.Spurious?
  {
    hide Inv, EvictionRun, NotBefore, PublishedCache, PublishedMem, Listed;
    var id := s.threads[i].pc.id;
    if id in s.cache.entries {
      var c := PublishedCache(cfg, s, i);
      PublishedStaysListed(cfg, s, i);
      var run, halt := EvictionCanFinish(c, PublishedMem(cfg, s, i));
      a := Finish(i, run, halt);
    } else {
      a := Finish(i, [], Pass(LRU, Off, [], 0.0, 0));
    }
  }

  lemma LoaderCanMove(cfg: Config, s: State, i: nat) returns (a: Action)
    requires Inv(cfg, s) && i < |s.threads| && IsLoader(s.threads[i].pc)
    ensures Enabled(cfg, s, a) && a.i == i && !a.Spurious?
  {
    hide Inv, EvictionRun;
    match s.threads[i].pc
    case Loading(_, _, _) => a := MapFail(i);
    case Tracking(_, _, _, _, _) => a := RecordPeak(i);
    case Mapped(id, _, _, _) =>
      a := MappedCanFinish(cfg, s, i);
  }

  // ----- one step -----

  /** Steps the loader still has to take, at most, until it publishes. */
  function LoaderStage(pc: Pc): nat {
    if pc.Loading? then 3 else if pc.Tracking? then 2 else if pc.Mapped? then 1 else 0
  }

  /** Thread `i` waits for object `obj`; the thread whose move helps it next is `j`, at distance `k`. */
  ghost predicate Awaiting(s: State, i: nat, id: Id, obj: nat, j: nat, k: nat) {
    && i < |s.threads| && j < |s.threads|
    && s.threads[i].pc == Waiting(id, obj)
    && SameObject(s.cache.entries, id, obj)
    && (if s.cache.entries[id].loaded then k == 0 && j == i
        else k > 0 && IsLoader(s.threads[j].pc) && s.threads[j].pc.id == id && LoaderStage(s.threads[j].pc) == k)
  }

  /** The waiter is served: it goes on with a pin on the very entry it waited for. */
  ghost predicate Served(s: State, a: Action, s': State, i: nat, id: Id, obj: nat) {
    && i < |s.threads| && i < |s'.threads| && a == Wake(i)
    && s.threads[i].pc == Waiting(id, obj)
    && SameObject(s.cache.entries, id, obj) && s.cache.entries[id].loaded
    && s'.threads[i] == Thread(Idle, s.threads[i].held + multiset{HandleOf(id, s.cache.entries[id])})
  }

  /** Only the loader's own `Finish` changes whether an entry is loaded. */
  lemma LoadStateStands(cfg: Config, s: State, a: Action, id: Id)
    requires Enabled(cfg, s, a) && id in s.cache.entries
    requires id in Next(cfg, s, a).cache.entries
    requires IsLoader(s.threads[a.i].pc) ==> s.threads[a.i].pc.id != id || !a.Finish?
    ensures Next(cfg, s, a).cache.entries[id].loaded == s.cache.entries[id].loaded
  {
    hide EvictionRun;
    match a
    case CallGet(_, x, now) => EnterGetFields(s.cache, x, now);
    case Finish(i, run, halt) =>
      if s.threads[i].pc.id in s.cache.entries {
        EvictionFrame(PublishedCache(cfg, s, i), PublishedMem(cfg, s, i), run, halt, id);
      }
    case _ =>
  }

  lemma FinishLoads(cfg: Config, s: State, a: Action, id: Id)
    requires Enabled(cfg, s, a) && a.Finish? && s.threads[a.i].pc.id == id
    requires id in s.cache.entries && id in Next(cfg, s, a).cache.entries
    ensures Next(cfg, s, a).cache.entries[id].loaded
  {
    hide EvictionRun;
    EvictionFrame(PublishedCache(cfg, s, a.i), PublishedMem(cfg, s, a.i), a.run, a.halt, id);
  }

  /** The step of the helping thread itself brings the waiter closer. */
  lemma HelperStep(cfg: Config, s: State, a: Action, i: nat, id: Id, obj: nat, j: nat, k: nat) returns (j': nat, k': nat)
    requires Inv(cfg, s) && Enabled(cfg, s, a) && Awaiting(s, i, id, obj, j, k) && k > 0
    requires a.i == j && !a.Spurious?
    ensures k' < k && Awaiting(Next(cfg, s, a), i, id, obj, j', k')
  {
    hide Core, AsleepOk, EvictionRun;
    var s' := Next(cfg, s, a);
    StepKeepsInv(cfg, s, a);
    OthersUntouched(cfg, s, a, i);
    WaiterCounted(cfg, s', i);
    if a.Finish? {
      FinishLoads(cfg, s, a, id);
      j', k' := i, 0;
    } else {
      LoadStateStands(cfg, s, a, id);
      j', k' := j, LoaderStage(s'.threads[j].pc);
    }
  }

  /** Any other step leaves the waiter where it is, except the wake-up that serves it. */
  lemma OtherStep(cfg: Config, s: State, a: Action, i: nat, id: Id, obj: nat, j: nat, k: nat)
    requires Inv(cfg, s) && Enabled(cfg, s, a) && Awaiting(s, i, id, obj, j, k)
    requires a.i != j || a.Spurious? || k == 0
    ensures Served(s, a, Next(cfg, s, a), i, id, obj) || Awaiting(Next(cfg, s, a), i, id, obj, j, k)
  {
    hide WellFormed, EntriesOk, ThreadsOk, MemoryOk, AsleepOk, EvictionRun;
    var s' := Next(cfg, s, a);
    StepKeepsInv(cfg, s, a);
    if a.i != i { OthersUntouched(cfg, s, a, i); }
    if a.i != j { OthersUntouched(cfg, s, a, j); }
    if k > 0 && a.Finish? && IsLoader(s.threads[a.i].pc) {
      OnlyLoader(cfg, s.cache.entries, s.mem, s.threads, a.i, j);
    }
    if k == 0 && a.Finish? { LoadedNotLoading(cfg, s, a.i, id); }
    if !Served(s, a, s', i, id, obj) {
      WaiterCounted(cfg, s', i);
      LoadStateStands(cfg, s, a, id);
    }
  }

  lemma LoadedNotLoading(cfg: Config, s: State, x: nat, id: Id)
    requires Inv(cfg, s) && x < |s.threads| && IsLoader(s.threads[x].pc)
    requires id in s.cache.entries && s.cache.entries[id].loaded
    ensures s.threads[x].pc.id != id
  {
    hide WellFormed, EntriesOk, ThreadsOk, MemoryOk, AsleepOk;
    PcIsCurrent(cfg, s.cache.entries, s.mem, s.threads, x);
  }

  // ----- infinite schedules -----

  datatype Event = Pause | Do(a: Action)

  ghost predicate Behaviour(cfg: Config, b: nat -> State, sched: nat -> Event) {
    && Inv(cfg, b(0))
    && forall n: nat :: TakesStep(cfg, b(n), sched(n), b(n + 1))
  }

  ghost predicate TakesStep(cfg: Config, s: State, e: Event, s': State) {
    match e
    case Pause => s' == s
    case Do(a) => Enabled(cfg, s, a) && s' == Next(cfg, s, a)
  }

  /** A thread inside a call that is not blocked: a loader, or a waiter that has been woken. */
  predicate CanMove(s: State, i: nat) {
    i < |s.threads| && (IsLoader(s.threads[i].pc) || (s.threads[i].pc.Waiting? && i !in s.asleep))
  }

  predicate MovesOrIdles(s: State, e: Event, i: nat) {
    (e.Do? && e.a.i == i && !e.a.Spurious?) || !CanMove(s, i)
  }

  /** Weak fairness: no thread can be able to move for ever without moving. It covers the mutex, the
      map call and the condition variable; callers that are idle owe nothing. */
  ghost predicate Fair(b: nat -> State, sched: nat -> Event) {
    forall i: nat, n: nat :: NotStalled(b, sched, i, n)
  }

  ghost predicate NotStalled(b: nat -> State, sched: nat -> Event, i: nat, n: nat) {
    exists m: nat :: m >= n && MovesOrIdles(b(m), sched(m), i)
  }

  lemma {:induction false} BehaviourInv(cfg: Config, b: nat -> State, sched: nat -> Event, n: nat)
    requires Behaviour(cfg, b, sched)
    ensures Inv(cfg, b(n))
  {
    hide Inv, Enabled, Next;
    if n > 0 {
      BehaviourInv(cfg, b, sched, n - 1);
      assert TakesStep(cfg, b(n - 1), sched(n - 1), b(n - 1 + 1));
      match sched(n - 1)
      case Pause =>
      case Do(a) => StepKeepsInv(cfg, b(n - 1), a);
    }
  }

  ghost predicate ServedAt(b: nat -> State, sched: nat -> Event, m: nat, i: nat, id: Id, obj: nat) {
    sched(m).Do? && Served(b(m), sched(m).a, b(m + 1), i, id, obj)
  }

  lemma HelperCanMove(cfg: Config, s: State, i: nat, id: Id, obj: nat, j: nat, k: nat)
    requires Inv(cfg, s) && Awaiting(s, i, id, obj, j, k)
    ensures CanMove(s, j)
  {
    hide Core;
  }

  /** One position of the schedule: served, closer, or unchanged because the helper did not move. */
  lemma ScheduleStep(cfg: Config, b: nat -> State, sched: nat -> Event, n: nat, i: nat, id: Id, obj: nat, j: nat, k: nat)
    returns (done: bool, j': nat, k': nat)
    requires Behaviour(cfg, b, sched) && Awaiting(b(n), i, id, obj, j, k)
    ensures done ==> ServedAt(b, sched, n, i, id, obj)
    ensures !done ==> Awaiting(b(n + 1), i, id, obj, j', k') && k' <= k
    ensures !done && k' == k ==> j' == j && !MovesOrIdles(b(n), sched(n), j)
  {
    hide Inv, Next, Enabled, Awaiting, Served;
    BehaviourInv(cfg, b, sched, n);
    HelperCanMove(cfg, b(n), i, id, obj, j, k);
    assert TakesStep(cfg, b(n), sched(n), b(n + 1));
    done, j', k' := false, j, k;
    match sched(n)
    case Pause =>
    case Do(a) =>
      if k > 0 && a.i == j && !a.Spurious? {
        j', k' := HelperStep(cfg, b(n), a, i, id, obj, j, k);
      } else {
        OtherStep(cfg, b(n), a, i, id, obj, j, k);
        done := Served(b(n), a, b(n + 1), i, id, obj);
        if !done && k == 0 { LoadedWaiterOnlyWakes(cfg, b(n), a, i, id, obj, j); }
      }
  }

  /** A waiter whose entry is loaded has only one kind of step left, and that step serves it. */
  lemma LoadedWaiterOnlyWakes(cfg: Config, s: State, a: Action, i: nat, id: Id, obj: nat, j: nat)
    requires Inv(cfg, s) && Enabled(cfg, s, a) && Awaiting(s, i, id, obj, j, 0)
    requires !Served(s, a, Next(cfg, s, a), i, id, obj)
    ensures j == i && (a.i != j || a.Spurious?)
  {
    hide Core;
  }

  /** Until the helper moves, nothing is lost; when it moves, the distance drops or the wait ends. */
  lemma {:induction false} WalkTo(cfg: Config, b: nat -> State, sched: nat -> Event, n: nat, m: nat, i: nat, id: Id, obj: nat, j: nat, k: nat)
    returns (done: bool, at: nat, j': nat, k': nat)
    requires Behaviour(cfg, b, sched) && Awaiting(b(n), i, id, obj, j, k)
    requires m >= n && MovesOrIdles(b(m), sched(m), j)
    ensures at >= n
    ensures done ==> ServedAt(b, sched, at, i, id, obj)
    ensures !done ==> Awaiting(b(at), i, id, obj, j', k') && k' < k
    decreases m - n
  {
    hide Behaviour, Awaiting, MovesOrIdles, ServedAt;
    done, j', k' := ScheduleStep(cfg, b, sched, n, i, id, obj, j, k);
    if done {
      at := n;
    } else if k' < k {
      at := n + 1;
    } else {
      done, at, j', k' := WalkTo(cfg, b, sched, n + 1, m, i, id, obj, j, k);
    }
  }

  lemma {:induction false} Progress(cfg: Config, b: nat -> State, sched: nat -> Event, n: nat, i: nat, id: Id, obj: nat, j: nat, k: nat)
    returns (m: nat)
    requires Behaviour(cfg, b, sched) && Fair(b, sched) && Awaiting(b(n), i, id, obj, j, k)
    ensures m >= n && ServedAt(b, sched, m, i, id, obj)
    decreases k
  {
    hide Behaviour, Awaiting, MovesOrIdles, ServedAt;
    assert NotStalled(b, sched, j, n);
    var t: nat :| t >= n && MovesOrIdles(b(t), sched(t), j);
    var done, at, j', k' := WalkTo(cfg, b, sched, n, t, i, id, obj, j, k);
    if done {
      m := at;
    } else {
      m := Progress(cfg, b, sched, at, i, id, obj, j', k');
    }
  }

  lemma WaiterAwaits(cfg: Config, s: State, i: nat) returns (j: nat, k: nat)
    requires Inv(cfg, s) && i < |s.threads| && s.threads[i].pc.Waiting?
    ensures Awaiting(s, i, s.threads[i].pc.id, s.threads[i].pc.obj, j, k)
  {
    hide Core, AsleepOk;
    WaiterCounted(cfg, s, i);
    var id := s.threads[i].pc.id;
    if s.cache.entries[id].loaded {
      j, k := i, 0;
    } else {
      j := LoaderOf(cfg, s, id);
      k := LoaderStage(s.threads[j].pc);
    }
  }

  /** No waiter waits for ever: in every fair behaviour a thread that waits at some moment later wakes
      up with its pin on the same entry object it was waiting for. */
  lemma EveryWaiterIsServed(cfg: Config, b: nat -> State, sched: nat -> Event, n: nat, i: nat)
    requires Behaviour(cfg, b, sched) && Fair(b, sched)
    requires i < |b(n).threads| && b(n).threads[i].pc.Waiting?
    ensures exists m: nat :: m >= n && ServedAt(b, sched, m, i, b(n).threads[i].pc.id, b(n).threads[i].pc.obj)
  {
    hide Inv, Behaviour, Fair, Awaiting, ServedAt;
    BehaviourInv(cfg, b, sched, n);
    var pc := b(n).threads[i].pc;
    var j, k := WaiterAwaits(cfg, b(n), i);
    var m := Progress(cfg, b, sched, n, i, pc.id, pc.obj, j, k);
  }
}
