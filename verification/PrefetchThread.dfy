/** The prefetch thread's loop: pop a message, prefetch each of its candidates, count. */
module Prefetching {
  import opened Bits
  import opened CacheModel
  import opened Eviction
  import opened SequentialUse
  import opened SequentialAccounting
  import opened Routing
  import opened SpscQueue
  import opened MemoryManagement
  import opened ExpertCaching

  datatype Settings = Settings(switches: nat -> Switches, arcTarget: real)

  /** One turn of the loop: the flag, and the messages that arrive before the pop. */
  datatype Glance = Glance(running: bool, arriving: seq<Message>)

  /** Every load read these switches. */
  ghost predicate AllFollow(settings: Settings, calls: seq<Call>) {
    forall k :: 0 <= k < |calls| ==>
      Follows(calls[k].load.run, calls[k].load.halt, settings.switches, settings.arcTarget)
  }

  class PrefetchThread {
    const queue: LockFreeSPSCQueue<Message>
    const cache: ExpertCache
    var prefetchCount: nat

    constructor (queue: LockFreeSPSCQueue<Message>, cache: ExpertCache)
      ensures this.queue == queue && this.cache == cache && prefetchCount == 0
    {
      this.queue, this.cache, prefetchCount := queue, cache, 0;
    }

    /** The cache has made `calls`, starting from (c, m). */
    ghost predicate Made(settings: Settings, c: Cache, m: Mem, calls: seq<Call>)
      reads cache, cache.cacheMap.Values, cache.clock, cache.memory
    {
      && cache.Valid()
      && CallsLegal(c, m, calls) && AllFollow(settings, calls)
      && cache.View() == CallsCache(c, calls) && cache.memory.View() == CallsMem(c, m, calls)
    }

    method PrefetchOne(id: Id, settings: Settings, ghost c: Cache, ghost m: Mem, ghost calls: seq<Call>) returns (ghost call: Call)
      requires Made(settings, c, m, calls)
      modifies cache, cache.clock
      modifies cache.memory`currentRamUsage, cache.memory`peakRamUsage, cache.memory`cacheOccupancy, cache.memory`mappings
      ensures Made(settings, c, m, calls + [call]) && call.id == id
      ensures forall e :: e in cache.cacheMap.Values ==> e in old(cache.cacheMap.Values) || fresh(e)
    {
      hide PrefetchLegal, PrefetchCache, PrefetchMem, WellFormed, NotBefore, CallsLegal, CallsCache, CallsMem, Follows;
      var ok;
      ghost var l;
      ok, l := cache.PrefetchExpert(id, settings.switches, settings.arcTarget);
      call := Call(id, l);
      CallsExtend(c, m, calls, call);
    }

    /** Prefetches every candidate of a message, in order. */
    method PrefetchAll(msg: Message, settings: Settings, ghost c: Cache, ghost m: Mem, ghost before: seq<Call>) returns (ghost calls: seq<Call>)
      requires Made(settings, c, m, before)
      modifies cache, cache.clock
      modifies cache.memory`currentRamUsage, cache.memory`peakRamUsage, cache.memory`cacheOccupancy, cache.memory`mappings
      ensures Made(settings, c, m, calls) && Ids(calls) == Ids(before) + msg.candidates
      ensures forall e :: e in cache.cacheMap.Values ==> e in old(cache.cacheMap.Values) || fresh(e)
    {
      hide Made;
      calls := before;
      for k := 0 to |msg.candidates|
        invariant Made(settings, c, m, calls) && Ids(calls) == Ids(before) + msg.candidates[..k]
        invariant forall e :: e in cache.cacheMap.Values ==> e in old(cache.cacheMap.Values) || fresh(e)
      {
        ghost var call;
        call := PrefetchOne(msg.candidates[k], settings, c, m, calls);
        IdsExtend(calls, call);
        calls := calls + [call];
        assert msg.candidates[..k + 1] == msg.candidates[..k] + [msg.candidates[k]];
      }
      assert msg.candidates[..|msg.candidates|] == msg.candidates;
    }

    /** One turn: pop, and if there was a message, work through it. */
    method Turn(last: Message, settings: Settings, ghost c: Cache, ghost m: Mem, ghost before: seq<Call>)
      returns (msg: Message, ghost calls: seq<Call>)
      requires queue.Valid() && Made(settings, c, m, before)
      modifies this`prefetchCount, queue, cache, cache.clock
      modifies cache.memory`currentRamUsage, cache.memory`peakRamUsage, cache.memory`cacheOccupancy, cache.memory`mappings
      ensures queue.Valid() && Made(settings, c, m, calls)
      ensures old(queue.popped) <= queue.popped
      ensures Ids(calls) == Ids(before) + Named(queue.popped[|old(queue.popped)|..])
      ensures prefetchCount == old(prefetchCount) + |queue.popped| - |old(queue.popped)|
      ensures |queue.popped| == |old(queue.popped)| + (if old(queue.View().Contents()) == [] then 0 else 1)
      ensures forall e :: e in cache.cacheMap.Values ==> e in old(cache.cacheMap.Values) || fresh(e)
    {
      hide Made, SpscQueue.RingInv, LockFreeSPSCQueue.View, LockFreeSPSCQueue.Valid, Named, Ids;
      ghost var popped := queue.popped;
      calls := before;
      NothingNamed();
      var popOk;
      popOk, msg := queue.Pop(last);
      if popOk {
        assert queue.popped[|popped|..] == [] + [msg];
        NamedAppend([], msg);
        calls := PrefetchAll(msg, settings, c, m, calls);
        prefetchCount := prefetchCount + 1;
      } else {
        assert queue.popped[|popped|..] == [];
      }
    }

    /** Since `popped` and (c, m), the cache has been asked, in order, for the candidates of exactly the
        messages popped, and each was counted. */
    ghost predicate Served(popped: seq<Message>, count: nat, settings: Settings, c: Cache, m: Mem, calls: seq<Call>)
      reads this, queue, queue.ringBuffer, cache, cache.cacheMap.Values, cache.clock, cache.memory
    {
      && queue.Valid() && Made(settings, c, m, calls) && popped <= queue.popped
      && Ids(calls) == Named(queue.popped[|popped|..])
      && prefetchCount == count + |queue.popped| - |popped|
    }

    /** A turn after some messages have arrived. */
    method NextTurn(arriving: seq<Message>, last: Message, settings: Settings,
                    ghost popped: seq<Message>, ghost count: nat, ghost c: Cache, ghost m: Mem, ghost before: seq<Call>)
      returns (msg: Message, ghost calls: seq<Call>)
      requires Served(popped, count, settings, c, m, before)
      modifies this`prefetchCount, queue, queue.ringBuffer, cache, cache.clock
      modifies cache.memory`currentRamUsage, cache.memory`peakRamUsage, cache.memory`cacheOccupancy, cache.memory`mappings
      ensures Served(popped, count, settings, c, m, calls)
      ensures forall e :: e in cache.cacheMap.Values ==> e in old(cache.cacheMap.Values) || fresh(e)
    {
      hide Made, LockFreeSPSCQueue.Valid, LockFreeSPSCQueue.View, Named, Ids;
      Arrive(arriving);
      ghost var earlier := queue.popped;
      msg, calls := Turn(last, settings, c, m, before);
      assert queue.popped[|popped|..] == earlier[|popped|..] + queue.popped[|earlier|..];
      NamedConcat(earlier[|popped|..], queue.popped[|earlier|..]);
    }

    lemma ServedNothing(settings: Settings)
      requires queue.Valid() && cache.Valid()
      ensures Served(queue.popped, prefetchCount, settings, cache.View(), cache.memory.View(), [])
    {
      hide ExpertCache.Valid, MemoryManager.View, ExpertCache.View, LockFreeSPSCQueue.Valid;
      assert queue.popped[|queue.popped|..] == [];
      NothingNamed();
    }

    /** The loop over any number of turns; it ends at the first that finds the flag down. */
    method Run(world: seq<Glance>, last: Message, settings: Settings) returns (turns: nat, ghost calls: seq<Call>)
      requires queue.Valid() && cache.Valid()
      modifies this`prefetchCount, queue, queue.ringBuffer, cache, cache.clock
      modifies cache.memory`currentRamUsage, cache.memory`peakRamUsage, cache.memory`cacheOccupancy, cache.memory`mappings
      ensures Served(old(queue.popped), old(prefetchCount), settings, old(cache.View()), old(cache.memory.View()), calls)
      ensures turns <= |world| && (forall k :: 0 <= k < turns ==> world[k].running)
      ensures turns < |world| ==> !world[turns].running
    {
      hide *;
      ghost var c, m, popped := cache.View(), cache.memory.View(), queue.popped;
      calls := [];
      ServedNothing(settings);
      var msg := last;
      turns := 0;
      while turns < |world| && world[turns].running
        invariant turns <= |world| && forall k :: 0 <= k < turns ==> world[k].running
        invariant Served(popped, old(prefetchCount), settings, c, m, calls)
        invariant forall e :: e in cache.cacheMap.Values ==> e in old(cache.cacheMap.Values) || fresh(e)
      {
        msg, calls := NextTurn(world[turns].arriving, msg, settings, popped, old(prefetchCount), c, m, calls);
        turns := turns + 1;
      }
    }

    /** The other side pushing some messages; those that find the ring full are lost here. */
    method Arrive(ms: seq<Message>)
      requires queue.Valid()
      modifies queue, queue.ringBuffer
      ensures queue.Valid() && queue.popped == old(queue.popped)
    {
      for k := 0 to |ms|
        invariant queue.Valid() && queue.popped == old(queue.popped)
      {
        var ok := queue.Push(ms[k]);
      }
    }
  }

  lemma NothingNamed()
    ensures Named([]) == [] && Ids([]) == []
  {
  }

  lemma {:induction false} NamedConcat(a: seq<Message>, b: seq<Message>)
    ensures Named(a + b) == Named(a) + Named(b)
    decreases |b|
  {
    if b == [] {
      assert a + b == a;
    } else {
      var front, last := b[..|b| - 1], b[|b| - 1];
      assert a + b == a + front + [last] && b == front + [last];
      NamedConcat(a, front);
      NamedAppend(a + front, last);
      NamedAppend(front, last);
    }
  }
}
