/** The lock-free single-producer single-consumer ring: free-running 64-bit counters, slots chosen by
    a mask. `Ring` is the memory of the queue, the class runs `push` and `pop` on it, and the step
    machine below splits both operations into their individual loads, checks and stores. */
module SpscQueue {
  import opened Bits

  /** The compile-time assertion on Capacity; `Capacity - 1` is a 64-bit subtraction. */
  predicate CapacityAccepted(c: size_t) {
    And(c, (c - 1) % TWO_64) == 0
  }

  function Slot(counter: size_t, capacity: size_t): nat {
    And(counter, (capacity - 1) % TWO_64)
  }

  function Advance(counter: size_t): size_t {
    (counter + 1) % TWO_64
  }

  predicate Full(head: size_t, tail: size_t, capacity: size_t) {
    (head - tail) % TWO_64 >= capacity
  }

  /** `pushed` and `popped` are history: every item whose push, or pop, has been published. */
  datatype Ring<T> = Ring(capacity: size_t, head: size_t, tail: size_t, slots: seq<T>,
                          pushed: seq<T>, popped: seq<T>)
  {
    /** What an unbounded queue would hold. */
    function Contents(): seq<T>
      requires |popped| <= |pushed|
    {
      pushed[|popped|..]
    }
  }

  ghost predicate RingInv<T(!new)>(r: Ring<T>) {
    && CapacityAccepted(r.capacity)
    && |r.slots| == r.capacity
    && |r.popped| <= |r.pushed| <= |r.popped| + r.capacity
    && r.popped == r.pushed[..|r.popped|]
    && r.head == |r.pushed| % TWO_64
    && r.tail == |r.popped| % TWO_64
    && Unread(r)
  }

  /** Every item in flight sits in the slot of its true position. */
  ghost predicate Unread<T(!new)>(r: Ring<T>)
    requires |r.slots| == r.capacity
  {
    forall i {:trigger r.pushed[i]} :: |r.popped| <= i < |r.pushed| && r.capacity > 0 ==>
      r.slots[i % r.capacity] == r.pushed[i]
  }

  lemma SlotOfPosition(n: nat, capacity: size_t)
    requires capacity > 0 && CapacityAccepted(capacity)
    ensures Slot(n % TWO_64, capacity) == n % capacity < capacity
  {
    hide And;
    assert (capacity - 1) % TWO_64 == capacity - 1;
    WrapThenMask(n, capacity);
  }

  lemma AdvanceWraps(n: nat)
    ensures Advance(n % TWO_64) == (n + 1) % TWO_64
  {
  }

  /** Two positions less than a lap apart never share a slot. */
  lemma SlotsDiffer(i: nat, j: nat, c: nat)
    requires i < j < i + c
    ensures i % c != j % c
  {
    if i % c == j % c {
      var q, r := i / c, i % c;
      var q', r' := j / c, j % c;
      assert c * (q' - q) == j - i by { assert i == c * q + r && j == c * q' + r'; assert c * (q' - q) == c * q' - c * q; }
      MultipleOutside(c, q' - q);
      assert false;
    }
  }

  /** The wrapped comparison made against a possibly old tail is exactly the comparison of true
      counters. */
  lemma FullTest(h: nat, t: nat, capacity: size_t)
    requires t <= h <= t + capacity
    ensures Full(h % TWO_64, t % TWO_64, capacity) <==> h - t == capacity
    ensures h % TWO_64 == t % TWO_64 <==> h == t
  {
    WrapSub(h, t);
  }

  // ----- the operations, run to completion -----

  class LockFreeSPSCQueue<T(0, !new)> {
    const capacity: size_t
    var head: size_t
    var tail: size_t
    const ringBuffer: array<T>
    ghost var pushed: seq<T>
    ghost var popped: seq<T>

    ghost function View(): Ring<T>
      reads this, ringBuffer
    {
      Ring(capacity, head, tail, ringBuffer[..], pushed, popped)
    }

    ghost predicate Valid()
      reads this, ringBuffer
    {
      RingInv(View())
    }

    constructor (capacity: size_t)
      requires CapacityAccepted(capacity)
      ensures Valid() && fresh(ringBuffer)
      ensures this.capacity == capacity && pushed == [] && popped == []
    {
      this.capacity := capacity;
      head, tail := 0, 0;
      ringBuffer := new T[capacity];
      pushed, popped := [], [];
    }

    /** Appends the item unless `Capacity` items are in flight. */
    method Push(item: T) returns (ok: bool)
      requires Valid()
      modifies this, ringBuffer
      ensures Valid()
      ensures ok <==> |old(View().Contents())| < capacity
      ensures View().Contents() == if ok then old(View().Contents()) + [item] else old(View().Contents())
      ensures popped == old(popped)
      ensures pushed == if ok then old(pushed) + [item] else old(pushed)
    {
      var currentHead := head;
      var currentTail := tail;
      FullTest(|pushed|, |popped|, capacity);
      if Full(currentHead, currentTail, capacity) {
        return false;
      }
      ghost var before := View();
      SlotOfPosition(|pushed|, capacity);
      ringBuffer[Slot(currentHead, capacity)] := item;
      WriteKeepsUnread(before, item);
      AdvanceWraps(|pushed|);
      head := Advance(currentHead);
      pushed := pushed + [item];
      return true;
    }

    /** Removes and returns the oldest item, unless nothing is in flight. */
    method Pop(last: T) returns (ok: bool, item: T)
      requires Valid()
      modifies this
      ensures Valid()
      ensures ok <==> old(View().Contents()) != []
      ensures ok ==> old(View().Contents()) == [item] + View().Contents()
      ensures !ok ==> item == last && View() == old(View())
      ensures pushed == old(pushed)
      ensures popped == if ok then old(popped) + [item] else old(popped)
    {
      item := last;
      var currentTail := tail;
      var currentHead := head;
      FullTest(|pushed|, |popped|, capacity);
      if currentTail == currentHead {
        return false, item;
      }
      SlotOfPosition(|popped|, capacity);
      item := ringBuffer[Slot(currentTail, capacity)];
      assert item == pushed[|popped|];
      AdvanceWraps(|popped|);
      tail := Advance(currentTail);
      popped := popped + [item];
      return true, item;
    }
  }

  /** Writing the next slot leaves every unread item alone, and puts the new one in place. */
  lemma WriteKeepsUnread<T(!new)>(r: Ring<T>, item: T)
    requires RingInv(r) && |r.pushed| < |r.popped| + r.capacity
    ensures |r.pushed| % r.capacity < |r.slots|
    ensures forall i {:trigger r.pushed[i]} :: |r.popped| <= i < |r.pushed| ==>
              r.slots[|r.pushed| % r.capacity := item][i % r.capacity] == r.pushed[i]
  {
    forall i | |r.popped| <= i < |r.pushed|
      ensures i % r.capacity != |r.pushed| % r.capacity
    {
      SlotsDiffer(i, |r.pushed|, r.capacity);
    }
  }

  // ----- the same operations, one memory access at a time -----

  /** Where the producer is inside `push`. `seenTail` is history: the true tail when it was loaded. */
  datatype Producer<T> =
    | PIdle
    | PHaveHead(item: T, h: size_t)
    | PHaveTail(item: T, h: size_t, t: size_t, seenTail: nat)
    | PWritten(item: T, h: size_t)

  datatype Consumer<T> =
    | CIdle
    | CHaveTail(t: size_t)
    | CHaveHead(t: size_t, h: size_t, seenHead: nat)
    | CRead(t: size_t, item: T)

  datatype State<T> = State(ring: Ring<T>, producer: Producer<T>, consumer: Consumer<T>)

  datatype Action<T> =
    | LoadOwnHead(item: T)
    | LoadTail
    | RejectFull
    | WriteSlot
    | PublishHead
    | LoadOwnTail
    | LoadHead
    | RejectEmpty
    | ReadSlot
    | PublishTail

  predicate Enabled<T>(s: State<T>, a: Action<T>) {
    match a
    case LoadOwnHead(_) => s.producer.PIdle?
    case LoadTail => s.producer.PHaveHead?
    case RejectFull => s.producer.PHaveTail? && Full(s.producer.h, s.producer.t, s.ring.capacity)
    case WriteSlot =>
      && s.producer.PHaveTail? && !Full(s.producer.h, s.producer.t, s.ring.capacity)
    case PublishHead => s.producer.PWritten?
    case LoadOwnTail => s.consumer.CIdle?
    case LoadHead => s.consumer.CHaveTail?
    case RejectEmpty => s.consumer.CHaveHead? && s.consumer.t == s.consumer.h
    case ReadSlot => s.consumer.CHaveHead? && s.consumer.t != s.consumer.h
    case PublishTail => s.consumer.CRead?
  }

  /** The slot index a write or read step is about to touch. */
  function ProducerSlot<T>(s: State<T>): nat
    requires s.producer.PHaveTail?
  {
    Slot(s.producer.h, s.ring.capacity)
  }

  function ConsumerSlot<T>(s: State<T>): nat
    requires s.consumer.CHaveHead?
  {
    Slot(s.consumer.t, s.ring.capacity)
  }

  /** One step. An index outside the buffer would be undefined behaviour: the step then gets stuck,
      and `Inv` shows that it never happens. */
  function Next<T>(s: State<T>, a: Action<T>): State<T>
    requires Enabled(s, a)
  {
    var r := s.ring;
    match a
    case LoadOwnHead(item) => s.(producer := PHaveHead(item, r.head))
    case LoadTail =>
      s.(producer := PHaveTail(s.producer.item, s.producer.h, r.tail, |r.popped|))
    case RejectFull => s.(producer := PIdle)
    case WriteSlot =>
      if ProducerSlot(s) < |r.slots| then
        s.(ring := r.(slots := r.slots[ProducerSlot(s) := s.producer.item]),
           producer := PWritten(s.producer.item, s.producer.h))
      else s
    case PublishHead =>
      s.(ring := r.(head := Advance(s.producer.h), pushed := r.pushed + [s.producer.item]),
         producer := PIdle)
    case LoadOwnTail => s.(consumer := CHaveTail(r.tail))
    case LoadHead => s.(consumer := CHaveHead(s.consumer.t, r.head, |r.pushed|))
    case RejectEmpty => s.(consumer := CIdle)
    case ReadSlot =>
      if ConsumerSlot(s) < |r.slots| then
        s.(consumer := CRead(s.consumer.t, r.slots[ConsumerSlot(s)]))
      else s
    case PublishTail =>
      s.(ring := r.(tail := Advance(s.consumer.t), popped := r.popped + [s.consumer.item]),
         consumer := CIdle)
  }

  ghost predicate ProducerInv<T(!new)>(r: Ring<T>, p: Producer<T>)
    requires RingInv(r)
  {
    match p
    case PIdle => true
    case PHaveHead(_, h) => h == r.head
    case PHaveTail(_, h, t, seen) =>
      h == r.head && t == seen % TWO_64 && seen <= |r.popped| && |r.pushed| <= seen + r.capacity
    case PWritten(item, h) =>
      && h == r.head && |r.pushed| < |r.popped| + r.capacity
      && r.slots[|r.pushed| % r.capacity] == item
  }

  ghost predicate ConsumerInv<T(!new)>(r: Ring<T>, c: Consumer<T>)
    requires RingInv(r)
  {
    match c
    case CIdle => true
    case CHaveTail(t) => t == r.tail
    case CHaveHead(t, h, seen) => t == r.tail && h == seen % TWO_64 && |r.popped| <= seen <= |r.pushed|
    case CRead(t, item) => t == r.tail && |r.popped| < |r.pushed| && item == r.pushed[|r.popped|]
  }

  ghost predicate Inv<T(!new)>(s: State<T>) {
    RingInv(s.ring) && ProducerInv(s.ring, s.producer) && ConsumerInv(s.ring, s.consumer)
  }

  predicate Init<T(==)>(s: State<T>) {
    && CapacityAccepted(s.ring.capacity) && |s.ring.slots| == s.ring.capacity
    && s.ring.head == s.ring.tail == 0 && s.ring.pushed == s.ring.popped == []
    && s.producer.PIdle? && s.consumer.CIdle?
  }

  lemma WriteStep<T(!new)>(s: State<T>)
    requires Inv(s) && Enabled(s, WriteSlot)
    ensures s.ring.capacity > 0 && ProducerSlot(s) == |s.ring.pushed| % s.ring.capacity < |s.ring.slots|
    ensures |s.ring.pushed| < |s.ring.popped| + s.ring.capacity
    ensures Inv(Next(s, WriteSlot))
  {
    FullTest(|s.ring.pushed|, s.producer.seenTail, s.ring.capacity);
    SlotOfPosition(|s.ring.pushed|, s.ring.capacity);
    WriteKeepsUnread(s.ring, s.producer.item);
  }

  lemma ReadStep<T(!new)>(s: State<T>)
    requires Inv(s) && Enabled(s, ReadSlot)
    ensures s.ring.capacity > 0 && ConsumerSlot(s) == |s.ring.popped| % s.ring.capacity < |s.ring.slots|
    ensures |s.ring.popped| < |s.ring.pushed|
    ensures Inv(Next(s, ReadSlot))
  {
    FullTest(s.consumer.seenHead, |s.ring.popped|, s.ring.capacity);
    SlotOfPosition(|s.ring.popped|, s.ring.capacity);
    assert s.ring.slots[|s.ring.popped| % s.ring.capacity] == s.ring.pushed[|s.ring.popped|];
  }

  lemma StepKeepsInv<T(!new)>(s: State<T>, a: Action<T>)
    requires Inv(s) && Enabled(s, a)
    ensures Inv(Next(s, a))
  {
    match a
    case WriteSlot => WriteStep(s);
    case ReadSlot => ReadStep(s);
    case PublishHead => AdvanceWraps(|s.ring.pushed|);
    case PublishTail => AdvanceWraps(|s.ring.popped|);
    case _ =>
  }

  // ----- runs -----

  predicate Legal<T>(s: State<T>, actions: seq<Action<T>>)
    decreases |actions|
  {
    actions == [] || (Enabled(s, actions[0]) && Legal(Next(s, actions[0]), actions[1..]))
  }

  function Run<T>(s: State<T>, actions: seq<Action<T>>): State<T>
    requires Legal(s, actions)
    decreases |actions|
  {
    if actions == [] then s else Run(Next(s, actions[0]), actions[1..])
  }

  lemma {:induction false} RunKeepsInv<T(!new)>(s: State<T>, actions: seq<Action<T>>)
    requires Inv(s) && Legal(s, actions)
    ensures Inv(Run(s, actions))
    decreases |actions|
  {
    if actions != [] {
      StepKeepsInv(s, actions[0]);
      RunKeepsInv(Next(s, actions[0]), actions[1..]);
    }
  }

  /** In every interleaving, however stale the loads and however often the counters have wrapped:
      what was popped is a prefix of what was pushed, at most `Capacity` items are in flight, and the
      wrapped counters and masks agree with the true ones. */
  lemma EveryRunIsFifo<T(!new)>(s: State<T>, actions: seq<Action<T>>)
    requires Init(s) && Legal(s, actions)
    ensures var r := Run(s, actions).ring;
            && |r.popped| <= |r.pushed| <= |r.popped| + r.capacity
            && r.popped == r.pushed[..|r.popped|]
            && r.head == |r.pushed| % TWO_64 && r.tail == |r.popped| % TWO_64
            && (r.head - r.tail) % TWO_64 == |r.pushed| - |r.popped|
            && (r.capacity > 0 ==> Slot(r.head, r.capacity) == |r.pushed| % r.capacity)
            && (r.capacity > 0 ==> Slot(r.tail, r.capacity) == |r.popped| % r.capacity)
  {
    RunKeepsInv(s, actions);
    var r := Run(s, actions).ring;
    WrapSub(|r.pushed|, |r.popped|);
    if r.capacity > 0 {
      SlotOfPosition(|r.pushed|, r.capacity);
      SlotOfPosition(|r.popped|, r.capacity);
    }
  }

  /** Each concrete step is one step of an unbounded FIFO: an enqueue exactly when the head is
      published, a dequeue of the oldest item exactly when the tail is, and otherwise nothing. */
  lemma StepRefinesFifo<T(!new)>(s: State<T>, a: Action<T>)
    requires Inv(s) && Enabled(s, a)
    ensures Inv(Next(s, a))
    ensures var q, q' := s.ring.Contents(), Next(s, a).ring.Contents();
            if a.PublishHead? then q' == q + [s.producer.item]
            else if a.PublishTail? then q == [s.consumer.item] + q'
            else q' == q
  {
    StepKeepsInv(s, a);
  }

  /** A push is refused only when the ring really was full at the moment the tail was loaded, and a
      pop only when it really was empty at the moment the head was loaded. */
  lemma RefusalsAreJustified<T(!new)>(s: State<T>)
    requires Inv(s)
    ensures Enabled(s, RejectFull) ==> |s.ring.pushed| - s.producer.seenTail == s.ring.capacity
    ensures Enabled(s, RejectEmpty) ==> s.consumer.seenHead == |s.ring.popped|
  {
    if Enabled(s, RejectFull) {
      FullTest(|s.ring.pushed|, s.producer.seenTail, s.ring.capacity);
    }
    if Enabled(s, RejectEmpty) {
      FullTest(s.consumer.seenHead, |s.ring.popped|, s.ring.capacity);
    }
  }

  /** The slot being written holds no unread item, so a write never races with the read of any item
      in flight, in particular not with the read the consumer is about to make. */
  lemma NoOverwriteNoRace<T(!new)>(s: State<T>)
    requires Inv(s) && Enabled(s, WriteSlot)
    ensures s.ring.capacity > 0
    ensures forall i {:trigger s.ring.pushed[i]} :: |s.ring.popped| <= i < |s.ring.pushed| ==>
              ProducerSlot(s) != i % s.ring.capacity
    ensures Enabled(s, ReadSlot) ==> ProducerSlot(s) != ConsumerSlot(s)
  {
    WriteStep(s);
    var r := s.ring;
    forall i | |r.popped| <= i < |r.pushed|
      ensures ProducerSlot(s) != i % r.capacity
    {
      SlotsDiffer(i, |r.pushed|, r.capacity);
    }
    if Enabled(s, ReadSlot) {
      ReadStep(s);
      SlotsDiffer(|r.popped|, |r.pushed|, r.capacity);
    }
  }
}
