/** The router comes to its end: in every fair schedule without a stop, if its checks use a depth of at least
    one. With depth zero it never does, because nothing lies ahead of the last position. */
module PipelineLiveness {
  import opened Bits
  import opened Prediction
  import opened Routing
  import opened Pipeline
  import opened PipelineTheorems
  import opened TornRead
  import Queue = SpscQueue

  function Positions(cfg: Config): nat {
    cfg.totalTokens * cfg.numLayers
  }

  // ----- schedules -----

  datatype Process = ComputeLoop | RouterLoop | PrefetchLoop

  predicate ConsumerStep(a: Queue.Action<Message>) {
    a.LoadOwnTail? || a.LoadHead? || a.RejectEmpty? || a.ReadSlot? || a.PublishTail?
  }

  /** Whose step it is; a stop is nobody's. */
  predicate StepOf(p: Process, a: Action) {
    match a
    case StoreToken => p.ComputeLoop?
    case StoreLayer => p.ComputeLoop?
    case FinishLayer => p.ComputeLoop?
    case StopRouter => false
    case StopPrefetch => false
    case PrefetchOne => p.PrefetchLoop?
    case Ring(step) => if ConsumerStep(step) then p.PrefetchLoop? else p.RouterLoop?
    case _ => p.RouterLoop?
  }

  predicate Done(p: Process, s: State) {
    match p
    case ComputeLoop => s.compute.phase.Over?
    case RouterLoop => s.router.pc.Stopped?
    case PrefetchLoop => false
  }

  /** No stop, and every check at a depth of at least one. */
  predicate Unstopped(a: Action) {
    !a.StopRouter? && !a.StopPrefetch? && (a.Check? ==> a.depth > 0)
  }

  ghost predicate Behaviour(cfg: Config, b: nat -> State, sched: nat -> Action)
    requires Usable(cfg)
  {
    && Init(cfg, b(0)) && b(0).ring.ring.capacity > 0
    && forall n: nat :: Enabled(cfg, b(n), sched(n)) && Unstopped(sched(n)) && b(n + 1) == Next(cfg, b(n), sched(n))
  }

  /** Every process that is not done gets its turn again and again. */
  ghost predicate Fair(b: nat -> State, sched: nat -> Action) {
    forall p: Process, n: nat :: TurnAfter(b, sched, p, n)
  }

  ghost predicate TurnAfter(b: nat -> State, sched: nat -> Action, p: Process, n: nat) {
    exists m: nat :: m >= n && (StepOf(p, sched(m)) || Done(p, b(m)))
  }

  /** What holds throughout. */
  ghost predicate Going(cfg: Config, s: State)
    requires Usable(cfg)
  {
    Inv(cfg, s) && s.router.running && s.prefetch.running && !s.router.skipped && s.ring.ring.capacity > 0
  }

  lemma StaysGoing(cfg: Config, s: State, a: Action)
    requires Usable(cfg) && Going(cfg, s) && Enabled(cfg, s, a) && Unstopped(a)
    ensures Going(cfg, Next(cfg, s, a))
  {
    hide Inv, Flat, GoodCandidates, Queue.Slot, SpeculativeOf, ComputeNext;
    StepKeepsInv(cfg, s, a);
  }

  lemma {:induction false} BehaviourGoing(cfg: Config, b: nat -> State, sched: nat -> Action, n: nat)
    requires Usable(cfg) && Behaviour(cfg, b, sched)
    ensures Going(cfg, b(n))
  {
    if n == 0 {
      InitInv(cfg, b(0));
    } else {
      hide Going, Init, Next, Enabled;
      BehaviourGoing(cfg, b, sched, n - 1);
      assert b(n - 1 + 1) == Next(cfg, b(n - 1), sched(n - 1));
      StaysGoing(cfg, b(n - 1), sched(n - 1));
    }
  }

  // ----- one measure, one process -----

  /** From `start`, steps of `mover` bring the measure down and no other step raises it, until `goal` holds. */
  datatype Goal = Goal(start: State -> bool, goal: State -> bool, measure: State -> nat, mover: Process)

  ghost predicate Descends(cfg: Config, g: Goal, s: State, a: Action)
    requires Usable(cfg) && Enabled(cfg, s, a)
  {
    var s' := Next(cfg, s, a);
    g.goal(s') || (g.start(s') && g.measure(s') <= g.measure(s) && (StepOf(g.mover, a) ==> g.measure(s') < g.measure(s)))
  }

  ghost predicate Proper(cfg: Config, g: Goal)
    requires Usable(cfg)
  {
    && (forall s: State :: g.start(s) ==> !Done(g.mover, s))
    && forall s: State, a: Action ::
         Going(cfg, s) && g.start(s) && Enabled(cfg, s, a) && Unstopped(a) ==> Descends(cfg, g, s, a)
  }

  /** As long as the process does not move, `start` and the measure stand. */
  lemma {:induction false} WaitFor(cfg: Config, b: nat -> State, sched: nat -> Action, g: Goal, n: nat, m: nat) returns (k: nat)
    requires Usable(cfg) && Behaviour(cfg, b, sched) && Proper(cfg, g) && g.start(b(n)) && m >= n
    requires StepOf(g.mover, sched(m)) || Done(g.mover, b(m))
    ensures k > n && (g.goal(b(k)) || (g.start(b(k)) && g.measure(b(k)) < g.measure(b(n))))
    decreases m - n
  {
    hide Going, Enabled, Next, Unstopped;
    BehaviourGoing(cfg, b, sched, n);
    assert b(n + 1) == Next(cfg, b(n), sched(n)) && Enabled(cfg, b(n), sched(n));
    assert Descends(cfg, g, b(n), sched(n));
    k := n + 1;
    if !g.goal(b(k)) && !StepOf(g.mover, sched(n)) {
      assert m != n;
      k := WaitFor(cfg, b, sched, g, n + 1, m);
    }
  }

  lemma {:induction false} Leads(cfg: Config, b: nat -> State, sched: nat -> Action, g: Goal, n: nat) returns (k: nat)
    requires Usable(cfg) && Behaviour(cfg, b, sched) && Fair(b, sched) && Proper(cfg, g) && g.start(b(n))
    ensures k > n && g.goal(b(k))
    decreases g.measure(b(n))
  {
    hide Behaviour, Proper, StepOf, Done;
    assert TurnAfter(b, sched, g.mover, n);
    var m: nat :| m >= n && (StepOf(g.mover, sched(m)) || Done(g.mover, b(m)));
    k := WaitFor(cfg, b, sched, g, n, m);
    if !g.goal(b(k)) { k := Leads(cfg, b, sched, g, k); }
  }

  // ----- the compute loop comes to its end -----

  lemma ComputeIsWithin(cfg: Config, s: State)
    requires Usable(cfg) && Going(cfg, s) && !s.compute.phase.Over?
    ensures Flat(s.compute.token, s.compute.layer, cfg.numLayers) < Positions(cfg)
  {
    hide Flat, CursorInv, ReadInv, CountInv, MessageInv, Stream, Queue.Inv, ProducerInv, PrefetchInv;
    EndOfRows(cfg.totalTokens, cfg.numLayers);
    FlatOrder(s.compute.token, s.compute.layer, cfg.totalTokens, 0, cfg.numLayers);
  }

  function PhaseSteps(p: Phase): nat {
    match p
    case Entering => 3
    case TokenStored => 2
    case Working => 1
    case Over => 0
  }

  /** Steps the compute loop still has to make. */
  function ComputeSteps(cfg: Config, c: Compute): nat {
    var left := cfg.totalTokens as int * cfg.numLayers - Flat(c.token, c.layer, cfg.numLayers);
    PhaseSteps(c.phase) + if left > 0 then 3 * left else 0
  }

  ghost function ComputeGoal(cfg: Config): Goal
    requires Usable(cfg)
  {
    Goal((s: State) => !s.compute.phase.Over?, (s: State) => s.compute.phase.Over?,
         (s: State) => ComputeSteps(cfg, s.compute), ComputeLoop)
  }

  lemma ComputeDescends(cfg: Config, s: State, a: Action)
    requires Usable(cfg) && Going(cfg, s) && Enabled(cfg, s, a) && Unstopped(a) && !s.compute.phase.Over?
    ensures Descends(cfg, ComputeGoal(cfg), s, a)
  {
    hide Flat, Inv, RouterNext, PrefetchNext, Queue.Next, GoodCandidates;
    ComputeIsWithin(cfg, s);
    FlatNext(s.compute.token, s.compute.layer, cfg.numLayers);
    ComputeInRange(cfg, s);
  }

  lemma ComputeInRange(cfg: Config, s: State)
    requires Usable(cfg) && Going(cfg, s)
    ensures s.compute.layer < cfg.numLayers && (!s.compute.phase.Over? ==> s.compute.token < cfg.totalTokens)
  {
    hide Flat, CursorInv, ReadInv, CountInv, MessageInv, Stream, Queue.Inv, ProducerInv, PrefetchInv;
  }

  lemma ComputeProper(cfg: Config)
    requires Usable(cfg)
    ensures Proper(cfg, ComputeGoal(cfg))
  {
    hide Going, Enabled, Unstopped, Descends;
    forall s: State, a: Action | Going(cfg, s) && !s.compute.phase.Over? && Enabled(cfg, s, a) && Unstopped(a)
      ensures Descends(cfg, ComputeGoal(cfg), s, a)
    {
      ComputeDescends(cfg, s, a);
    }
  }

  // ----- then the router gets past its check -----

  /** The compute loop is over and the router stands at position `k`. */
  predicate At(cfg: Config, s: State, k: nat) {
    s.compute.phase.Over? && Flat(s.router.token, s.router.layer, cfg.numLayers) == k
  }

  function FinalRead(cfg: Config, s: State): nat {
    Flat(s.compute.storedToken, s.compute.storedLayer, cfg.numLayers)
  }

  predicate BeforeCheck(pc: Pc) {
    pc.Top? || pc.Entered? || pc.HaveToken? || pc.HaveBoth? || pc.Admitted?
  }

  /** Words loaded before the compute loop ended may fail one more check; the next ones pass. */
  function CheckSteps(cfg: Config, s: State): nat {
    match s.router.pc
    case Top => 5
    case Entered => 4
    case HaveToken(tok) => if tok == s.compute.storedToken then 3 else 13
    case HaveBoth(tok, lay, _) => if Flat(tok, lay, cfg.numLayers) == FinalRead(cfg, s) then 2 else 12
    case _ => 1
  }

  ghost function CheckGoal(cfg: Config, k: nat): Goal
    requires Usable(cfg)
  {
    Goal((s: State) => At(cfg, s, k) && BeforeCheck(s.router.pc), (s: State) => At(cfg, s, k) && s.router.pc.Pushing?,
         (s: State) => CheckSteps(cfg, s), RouterLoop)
  }

  lemma FinalWords(cfg: Config, s: State)
    requires Usable(cfg) && Going(cfg, s) && s.compute.phase.Over? && cfg.totalTokens > 0
    ensures FinalRead(cfg, s) == Positions(cfg) - 1
  {
    hide CursorInv, ReadInv, CountInv, MessageInv, Stream, Queue.Inv, ProducerInv, PrefetchInv;
    LastPosition(cfg.totalTokens, cfg.numLayers);
  }

  lemma LastPosition(totalTokens: nat, numLayers: nat)
    requires totalTokens > 0 && numLayers > 0
    ensures Flat(totalTokens - 1, numLayers - 1, numLayers) == totalTokens * numLayers - 1
  {
    hide Flat;
    FlatNext(totalTokens - 1, numLayers - 1, numLayers);
    EndOfRows(totalTokens, numLayers);
  }

  lemma TokensLeft(cfg: Config, s: State, k: nat)
    requires Usable(cfg) && Going(cfg, s) && At(cfg, s, k) && k < Positions(cfg)
    ensures s.router.token < cfg.totalTokens && s.router.layer < cfg.numLayers
  {
    hide Flat, ComputeInv, ReadInv, CountInv, MessageInv, Stream, Queue.Inv, ProducerInv, PrefetchInv;
    EndOfRows(cfg.totalTokens, cfg.numLayers);
    FlatOrder(cfg.totalTokens, 0, s.router.token, s.router.layer, cfg.numLayers);
  }

  lemma CheckDescends(cfg: Config, s: State, a: Action, k: nat)
    requires Usable(cfg) && Going(cfg, s) && Enabled(cfg, s, a) && Unstopped(a) && At(cfg, s, k) && BeforeCheck(s.router.pc)
    requires k < Positions(cfg)
    ensures Descends(cfg, CheckGoal(cfg, k), s, a)
  {
    hide Flat, Inv, PrefetchNext, Queue.Next, Queue.Full, GoodCandidates, SpeculativeOf;
    FinalWords(cfg, s);
    TokensLeft(cfg, s, k);
    ProducerRests(cfg, s);
  }

  lemma ProducerRests(cfg: Config, s: State)
    requires Usable(cfg) && Going(cfg, s)
    ensures !s.ring.producer.PIdle? ==> s.router.pc.Pushing? || s.router.pc.Speculating?
  {
    hide Flat, ComputeInv, CursorInv, ReadInv, CountInv, MessageInv, Stream, Queue.Inv, PrefetchInv;
  }

  lemma CheckProper(cfg: Config, k: nat)
    requires Usable(cfg) && k < Positions(cfg)
    ensures Proper(cfg, CheckGoal(cfg, k))
  {
    hide Going, Enabled, Unstopped, Descends, At;
    forall s: State, a: Action | Going(cfg, s) && At(cfg, s, k) && BeforeCheck(s.router.pc) && Enabled(cfg, s, a) && Unstopped(a)
      ensures Descends(cfg, CheckGoal(cfg, k), s, a)
    {
      CheckDescends(cfg, s, a, k);
    }
  }

  // ----- a full ring gets a free slot -----

  predicate Trying(pc: Pc) {
    pc.Pushing? || pc.Rejected?
  }

  function InRing(s: State): int {
    |s.ring.ring.pushed| - |s.ring.ring.popped|
  }

  /** Steps the prefetch thread needs until its next pop, while the ring is full. */
  function PopSteps(s: State): nat {
    match s.ring.consumer
    case CRead(_, _) => 1
    case CHaveHead(_, _, seen) => if seen > |s.ring.ring.popped| then 2 else 5
    case CHaveTail(_) => 3
    case CIdle => 4 + |s.prefetch.pending|
  }

  ghost function PopGoal(cfg: Config, k: nat): Goal
    requires Usable(cfg)
  {
    Goal((s: State) => At(cfg, s, k) && Trying(s.router.pc) && InRing(s) >= s.ring.ring.capacity,
         (s: State) => At(cfg, s, k) && Trying(s.router.pc) && InRing(s) < s.ring.ring.capacity,
         (s: State) => PopSteps(s), PrefetchLoop)
  }

  lemma PopDescends(cfg: Config, s: State, a: Action, k: nat)
    requires Usable(cfg) && Going(cfg, s) && Enabled(cfg, s, a) && Unstopped(a)
    requires At(cfg, s, k) && Trying(s.router.pc) && InRing(s) >= s.ring.ring.capacity
    ensures Descends(cfg, PopGoal(cfg, k), s, a)
  {
    hide Flat, Inv, GoodCandidates, SpeculativeOf, Queue.Slot, Queue.Full;
    FullRing(cfg, s);
    ProducerRests(cfg, s);
    if a == Ring(Queue.ReadSlot) { ReadFits(cfg, s); }
  }

  lemma ReadFits(cfg: Config, s: State)
    requires Usable(cfg) && Going(cfg, s) && Enabled(cfg, s, Ring(Queue.ReadSlot))
    ensures Queue.ConsumerSlot(s.ring) < |s.ring.ring.slots|
  {
    hide Flat, ComputeInv, CursorInv, ReadInv, CountInv, MessageInv, Stream, PrefetchInv;
    Queue.ReadStep(s.ring);
  }

  /** What a full ring means for the loads made of it. */
  lemma FullRing(cfg: Config, s: State)
    requires Usable(cfg) && Going(cfg, s) && InRing(s) >= s.ring.ring.capacity
    ensures !s.ring.producer.PWritten? && !Enabled(cfg, s, Ring(Queue.WriteSlot))
    ensures s.ring.consumer.CHaveHead? ==>
              (s.ring.consumer.t == s.ring.consumer.h <==> s.ring.consumer.seenHead == |s.ring.ring.popped|)
              && s.ring.consumer.seenHead >= |s.ring.ring.popped|
    ensures !s.ring.consumer.CIdle? ==> s.prefetch.pending == []
    ensures InRing(s) == s.ring.ring.capacity > 0
  {
    hide Flat, ComputeInv, CursorInv, ReadInv, CountInv, MessageInv, Stream, Queue.Slot, Queue.Unread, Named;
    assert Queue.Inv(s.ring);
    if s.ring.producer.PHaveTail? {
      Queue.FullTest(|s.ring.ring.pushed|, s.ring.producer.seenTail, s.ring.ring.capacity);
    }
    if s.ring.consumer.CHaveHead? {
      Queue.FullTest(s.ring.consumer.seenHead, |s.ring.ring.popped|, s.ring.ring.capacity);
    }
  }

  lemma PopProper(cfg: Config, k: nat)
    requires Usable(cfg)
    ensures Proper(cfg, PopGoal(cfg, k))
  {
    hide Going, Enabled, Unstopped, Descends, At;
    forall s: State, a: Action | Going(cfg, s) && PopGoal(cfg, k).start(s) && Enabled(cfg, s, a) && Unstopped(a)
      ensures Descends(cfg, PopGoal(cfg, k), s, a)
    {
      PopDescends(cfg, s, a, k);
    }
  }

  // ----- with a free slot the message gets in -----

  function PushSteps(s: State): nat {
    match s.router.pc
    case Rejected(_) => 5
    case _ =>
      match s.ring.producer
      case PIdle => 4
      case PHaveHead(_, _) => 3
      case PHaveTail(_, _, _, seen) => if |s.ring.ring.pushed| < seen + s.ring.ring.capacity then 2 else 6
      case PWritten(_, _) => 1
  }

  ghost function PushGoal(cfg: Config, k: nat): Goal
    requires Usable(cfg)
  {
    Goal((s: State) => At(cfg, s, k) && Trying(s.router.pc) && InRing(s) < s.ring.ring.capacity,
         (s: State) => At(cfg, s, k) && s.router.pc.Sent?,
         (s: State) => PushSteps(s), RouterLoop)
  }

  lemma ProducerFacts(cfg: Config, s: State)
    requires Usable(cfg) && Going(cfg, s)
    ensures s.ring.producer.PHaveTail? ==>
              (Queue.Full(s.ring.producer.h, s.ring.producer.t, s.ring.ring.capacity)
               <==> |s.ring.ring.pushed| - s.ring.producer.seenTail == s.ring.ring.capacity)
              && |s.ring.ring.pushed| - s.ring.producer.seenTail <= s.ring.ring.capacity
  {
    hide Flat, ComputeInv, CursorInv, ReadInv, CountInv, MessageInv, Stream, Queue.Unread, PrefetchInv;
    assert Queue.Inv(s.ring);
    if s.ring.producer.PHaveTail? {
      Queue.FullTest(|s.ring.ring.pushed|, s.ring.producer.seenTail, s.ring.ring.capacity);
    }
  }

  lemma WriteFits(cfg: Config, s: State)
    requires Usable(cfg) && Going(cfg, s) && Enabled(cfg, s, Ring(Queue.WriteSlot))
    ensures Queue.ProducerSlot(s.ring) < |s.ring.ring.slots|
  {
    hide Flat, ComputeInv, CursorInv, ReadInv, CountInv, MessageInv, Stream, PrefetchInv;
    Queue.WriteStep(s.ring);
  }

  lemma PushDescends(cfg: Config, s: State, a: Action, k: nat)
    requires Usable(cfg) && Going(cfg, s) && Enabled(cfg, s, a) && Unstopped(a)
    requires At(cfg, s, k) && Trying(s.router.pc) && InRing(s) < s.ring.ring.capacity
    ensures Descends(cfg, PushGoal(cfg, k), s, a)
  {
    hide Flat, Inv, GoodCandidates, SpeculativeOf, Queue.Slot, Queue.Full, PrefetchNext;
    ProducerFacts(cfg, s);
    ProducerRests(cfg, s);
    if a == Ring(Queue.WriteSlot) { WriteFits(cfg, s); }
  }

  lemma PushProper(cfg: Config, k: nat)
    requires Usable(cfg)
    ensures Proper(cfg, PushGoal(cfg, k))
  {
    hide Going, Enabled, Unstopped, Descends, At;
    forall s: State, a: Action | Going(cfg, s) && PushGoal(cfg, k).start(s) && Enabled(cfg, s, a) && Unstopped(a)
      ensures Descends(cfg, PushGoal(cfg, k), s, a)
    {
      PushDescends(cfg, s, a, k);
    }
  }

  // ----- and the cursor moves on -----

  predicate AfterPush(pc: Pc) {
    pc.Sent? || pc.Speculating? || pc.Advancing?
  }

  function AdvanceSteps(s: State): nat {
    match s.router.pc
    case Sent(_) => 6
    case Speculating(_) => (
      match s.ring.producer
      case PIdle => 5
      case PHaveHead(_, _) => 4
      case PHaveTail(_, _, _, _) => 3
      case PWritten(_, _) => 2
    )
    case _ => 1
  }

  ghost function AdvanceGoal(cfg: Config, k: nat): Goal
    requires Usable(cfg)
  {
    Goal((s: State) => At(cfg, s, k) && AfterPush(s.router.pc), (s: State) => At(cfg, s, k + 1) && s.router.pc.Top?,
         (s: State) => AdvanceSteps(s), RouterLoop)
  }

  lemma AdvanceDescends(cfg: Config, s: State, a: Action, k: nat)
    requires Usable(cfg) && Going(cfg, s) && Enabled(cfg, s, a) && Unstopped(a) && At(cfg, s, k) && AfterPush(s.router.pc)
    requires k < Positions(cfg)
    ensures Descends(cfg, AdvanceGoal(cfg, k), s, a)
  {
    hide Flat, Inv, GoodCandidates, SpeculativeOf, Queue.Slot, Queue.Full, PrefetchNext;
    ProducerRests(cfg, s);
    TokensLeft(cfg, s, k);
    FlatNext(s.router.token, s.router.layer, cfg.numLayers);
    Wrap32Exact(s.router.token + 1);
    if a == Ring(Queue.WriteSlot) { WriteFits(cfg, s); }
  }

  lemma AdvanceProper(cfg: Config, k: nat)
    requires Usable(cfg) && k < Positions(cfg)
    ensures Proper(cfg, AdvanceGoal(cfg, k))
  {
    hide Going, Enabled, Unstopped, Descends, At;
    forall s: State, a: Action | Going(cfg, s) && AdvanceGoal(cfg, k).start(s) && Enabled(cfg, s, a) && Unstopped(a)
      ensures Descends(cfg, AdvanceGoal(cfg, k), s, a)
    {
      AdvanceDescends(cfg, s, a, k);
    }
  }

  // ----- until there is nothing left -----

  ghost function LeaveGoal(cfg: Config): Goal
    requires Usable(cfg)
  {
    Goal((s: State) => At(cfg, s, Positions(cfg)) && s.router.pc.Top?, (s: State) => s.router.pc.Stopped?,
         (s: State) => 0, RouterLoop)
  }

  lemma NothingLeft(cfg: Config, s: State)
    requires Usable(cfg) && Going(cfg, s) && At(cfg, s, Positions(cfg))
    ensures s.router.token == cfg.totalTokens
  {
    hide Flat, Going, Usable;
    CursorWithin(cfg, s);
    LastRow(s.router.token, s.router.layer, cfg.totalTokens, cfg.numLayers);
  }

  lemma LastRow(token: nat, layer: nat, totalTokens: nat, numLayers: nat)
    requires layer < numLayers && token <= totalTokens && Flat(token, layer, numLayers) == totalTokens * numLayers
    ensures token == totalTokens
  {
    hide Flat;
    EndOfRows(totalTokens, numLayers);
    FlatOrder(token, layer, totalTokens, 0, numLayers);
  }

  lemma CursorWithin(cfg: Config, s: State)
    requires Usable(cfg) && Going(cfg, s)
    ensures s.router.token <= cfg.totalTokens && s.router.layer < cfg.numLayers
  {
    hide Flat, ComputeInv, ReadInv, CountInv, MessageInv, Stream, Queue.Inv, ProducerInv, PrefetchInv;
  }

  lemma LeaveProper(cfg: Config)
    requires Usable(cfg)
    ensures Proper(cfg, LeaveGoal(cfg))
  {
    hide Flat, Going, Inv, Queue.Next, Queue.Full, GoodCandidates, SpeculativeOf, PrefetchNext;
    forall s: State, a: Action | Going(cfg, s) && LeaveGoal(cfg).start(s) && Enabled(cfg, s, a) && Unstopped(a)
      ensures Descends(cfg, LeaveGoal(cfg), s, a)
    {
      NothingLeft(cfg, s);
      ProducerRests(cfg, s);
    }
  }

  /** From any place in its loop at position `k` the router comes to the top at `k + 1`. */
  lemma NextPosition(cfg: Config, b: nat -> State, sched: nat -> Action, n: nat, k: nat) returns (m: nat)
    requires Usable(cfg) && Behaviour(cfg, b, sched) && Fair(b, sched)
    requires At(cfg, b(n), k) && k < Positions(cfg) && !b(n).router.pc.Stopped?
    ensures m > n && At(cfg, b(m), k + 1) && b(m).router.pc.Top?
  {
    hide Behaviour, Fair, At, Proper;
    m := n;
    if BeforeCheck(b(m).router.pc) {
      CheckProper(cfg, k);
      m := Leads(cfg, b, sched, CheckGoal(cfg, k), m);
    }
    if Trying(b(m).router.pc) {
      if InRing(b(m)) >= b(m).ring.ring.capacity {
        PopProper(cfg, k);
        m := Leads(cfg, b, sched, PopGoal(cfg, k), m);
      }
      PushProper(cfg, k);
      m := Leads(cfg, b, sched, PushGoal(cfg, k), m);
    }
    AdvanceProper(cfg, k);
    m := Leads(cfg, b, sched, AdvanceGoal(cfg, k), m);
  }

  lemma {:induction false} AllPositions(cfg: Config, b: nat -> State, sched: nat -> Action, n: nat, k: nat) returns (m: nat)
    requires Usable(cfg) && Behaviour(cfg, b, sched) && Fair(b, sched)
    requires At(cfg, b(n), k) && k <= Positions(cfg) && b(n).router.pc.Top?
    ensures b(m).router.pc.Stopped?
    decreases Positions(cfg) - k
  {
    hide Behaviour, Fair, At, Proper;
    if k == Positions(cfg) {
      LeaveProper(cfg);
      m := Leads(cfg, b, sched, LeaveGoal(cfg), n);
    } else {
      m := NextPosition(cfg, b, sched, n, k);
      m := AllPositions(cfg, b, sched, m, k + 1);
    }
  }

  lemma PositionWithin(cfg: Config, s: State)
    requires Usable(cfg) && Going(cfg, s)
    ensures Flat(s.router.token, s.router.layer, cfg.numLayers) <= Positions(cfg)
    ensures Flat(s.router.token, s.router.layer, cfg.numLayers) == Positions(cfg) ==> s.router.pc.Top? || s.router.pc.Stopped?
  {
    hide Flat, ComputeInv, ReadInv, CountInv, MessageInv, Stream, Queue.Inv, ProducerInv, PrefetchInv;
    EndOfRows(cfg.totalTokens, cfg.numLayers);
    FlatOrder(s.router.token, s.router.layer, cfg.totalTokens, 0, cfg.numLayers);
  }

  /** In every fair behaviour without a stop whose checks use depths of at least one, the router ends, and then it
      has published every position. */
  lemma RouterEnds(cfg: Config, b: nat -> State, sched: nat -> Action) returns (m: nat)
    requires Usable(cfg) && Behaviour(cfg, b, sched) && Fair(b, sched)
    ensures b(m).router.pc.Stopped?
    ensures |Firm(b(m).ring.ring.pushed)| == Positions(cfg)
  {
    hide Behaviour, Fair, Proper, Going;
    m := 0;
    if !b(0).compute.phase.Over? {
      ComputeProper(cfg);
      m := Leads(cfg, b, sched, ComputeGoal(cfg), 0);
    }
    BehaviourGoing(cfg, b, sched, m);
    PositionWithin(cfg, b(m));
    var k := Flat(b(m).router.token, b(m).router.layer, cfg.numLayers);
    if !b(m).router.pc.Stopped? {
      if k < Positions(cfg) {
        m := NextPosition(cfg, b, sched, m, k);
        m := AllPositions(cfg, b, sched, m, k + 1);
      } else {
        m := AllPositions(cfg, b, sched, m, k);
      }
    }
    BehaviourGoing(cfg, b, sched, m);
    EndedMeansAll(cfg, b(m));
  }

  lemma EndedMeansAll(cfg: Config, s: State)
    requires Usable(cfg) && Going(cfg, s) && s.router.pc.Stopped?
    ensures |Firm(s.ring.ring.pushed)| == Positions(cfg)
  {
    hide Flat, ComputeInv, ReadInv, MessageInv, Stream, Queue.Inv, ProducerInv, PrefetchInv;
    EndOfRows(cfg.totalTokens, cfg.numLayers);
  }

  // ----- depth zero -----

  ghost predicate WordsIn(cfg: Config, c: Compute) {
    c.storedToken < cfg.totalTokens && c.storedLayer < cfg.numLayers
  }

  /** With all checks at depth zero the last position is never admitted: no pair of words lies beyond it. */
  ghost predicate BeforeLast(cfg: Config, r: Router)
    requires Usable(cfg)
  {
    var last := cfg.totalTokens as int * cfg.numLayers - 1;
    && (r.pc.HaveToken? ==> r.pc.tok < cfg.totalTokens)
    && (r.pc.HaveBoth? ==> Flat(r.pc.tok, r.pc.lay, cfg.numLayers) <= last)
    && Flat(r.token, r.layer, cfg.numLayers) <= last
    && (Holding(r.pc) || AfterPush(r.pc) ==> Flat(r.token, r.layer, cfg.numLayers) < last)
  }

  lemma WordsWithin(cfg: Config, tok: nat, lay: nat)
    requires Usable(cfg) && tok < cfg.totalTokens && lay < cfg.numLayers
    ensures Flat(tok, lay, cfg.numLayers) <= Positions(cfg) - 1
  {
    hide Flat;
    EndOfRows(cfg.totalTokens, cfg.numLayers);
    FlatOrder(tok, lay, cfg.totalTokens, 0, cfg.numLayers);
  }

  lemma StepBeforeLast(cfg: Config, s: State, a: Action)
    requires Usable(cfg) && CursorInv(cfg, s.router) && ProducerInv(s.router.pc, s.ring.producer) && Enabled(cfg, s, a)
    requires BeforeLast(cfg, s.router) && WordsIn(cfg, s.compute) && (a.Check? ==> a.depth == 0)
    ensures BeforeLast(cfg, RouterNext(cfg, s.compute, s.router, a))
  {
    hide Flat, GoodCandidates, SpeculativeOf, Queue.Full, TornPair;
    if a.LoadLayer? { WordsWithin(cfg, s.router.pc.tok, s.compute.storedLayer); }
    FlatNext(s.router.token, s.router.layer, cfg.numLayers);
    Wrap32Exact(s.router.token + 1);
  }

  lemma StepWordsIn(cfg: Config, s: State, a: Action)
    requires Usable(cfg) && ComputeInv(cfg, s.compute) && Enabled(cfg, s, a) && WordsIn(cfg, s.compute)
    ensures WordsIn(cfg, ComputeNext(cfg, s.compute, a))
  {
    hide Flat, GoodCandidates, RingEnabled;
  }

  lemma {:induction false} RunBeforeLast(cfg: Config, s: State, actions: seq<Action>)
    requires Usable(cfg) && Inv(cfg, s) && BeforeLast(cfg, s.router) && WordsIn(cfg, s.compute) && Legal(cfg, s, actions)
    requires forall k :: 0 <= k < |actions| && actions[k].Check? ==> actions[k].depth == 0
    ensures BeforeLast(cfg, Run(cfg, s, actions).router)
    decreases |actions|
  {
    hide Enabled, BeforeLast, WordsIn, ComputeInv, CursorInv, ReadInv, CountInv, MessageInv, Stream, Queue.Inv, PrefetchInv;
    hide ProducerInv, ComputeNext, RouterNext;
    if actions != [] {
      StepKeepsInv(cfg, s, actions[0]);
      StepBeforeLast(cfg, s, actions[0]);
      StepWordsIn(cfg, s, actions[0]);
      RunBeforeLast(cfg, Next(cfg, s, actions[0]), actions[1..]);
    }
  }

  /** If there are positions at all and every check uses depth zero, no run lets an unstopped router end, and the
      last position is never published. */
  lemma DepthZeroNeverEnds(cfg: Config, s0: State, actions: seq<Action>)
    requires Usable(cfg) && Init(cfg, s0) && cfg.totalTokens > 0 && Legal(cfg, s0, actions)
    requires forall k :: 0 <= k < |actions| && actions[k].Check? ==> actions[k].depth == 0
    ensures var s := Run(cfg, s0, actions);
            && (s.router.pc.Stopped? ==> !s.router.running)
            && |Firm(s.ring.ring.pushed)| < Positions(cfg)
  {
    hide Flat, GoodCandidates, Stream, Queue.Inv, MessageInv, PrefetchInv, ComputeInv, Legal, Run;
    InitInv(cfg, s0);
    WordsWithin(cfg, 0, 0);
    assert Flat(0, 0, cfg.numLayers) == 0 by { EndOfRows(0, cfg.numLayers); }
    RunBeforeLast(cfg, s0, actions);
    RunKeepsInv(cfg, s0, actions);
    EndOfRows(cfg.totalTokens, cfg.numLayers);
  }

  // ----- after a stop -----

  /** Steps a stopped router still makes, at most: it finishes the push it is in and leaves. */
  function WindDown(s: State): nat {
    match s.router.pc
    case Stopped => 0
    case Top => 1
    case Advancing => 2
    case Speculating(_) => 3 + ProducerSteps(s.ring.producer)
    case Sent(_) => 7
    case Rejected(_) => 8
    case Pushing(_) => 8 + ProducerSteps(s.ring.producer)
    case Admitted => 12
    case HaveBoth(_, _, _) => 13
    case HaveToken(_) => 14
    case Entered => 15
  }

  function ProducerSteps(p: Queue.Producer<Message>): nat {
    match p
    case PIdle => 3
    case PHaveHead(_, _) => 2
    case PHaveTail(_, _, _, _) => 1
    case PWritten(_, _) => 0
  }

  lemma StopRests(cfg: Config, s: State)
    requires Usable(cfg) && Inv(cfg, s)
    ensures !s.ring.producer.PIdle? ==> s.router.pc.Pushing? || s.router.pc.Speculating?
    ensures Enabled(cfg, s, Ring(Queue.WriteSlot)) ==> Queue.ProducerSlot(s.ring) < |s.ring.ring.slots|
  {
    hide Flat, ComputeInv, CursorInv, ReadInv, CountInv, MessageInv, Stream, PrefetchInv;
    if Enabled(cfg, s, Ring(Queue.WriteSlot)) { Queue.WriteStep(s.ring); }
  }

  /** Once the flag is down each of the router's own steps brings it closer to its end, whatever the ring holds, and
      nobody else's delays it: the join in `stop()` waits for at most fifteen of them. */
  lemma StoppedRouterWindsDown(cfg: Config, s: State, a: Action)
    requires Usable(cfg) && Inv(cfg, s) && Enabled(cfg, s, a) && !s.router.running
    ensures var s' := Next(cfg, s, a);
            && !s'.router.running && WindDown(s') <= WindDown(s) <= 15
            && (StepOf(RouterLoop, a) ==> WindDown(s') < WindDown(s))
  {
    hide Inv, Enabled, Next, WindDown, StepOf;
    if StepOf(RouterLoop, a) { OwnStepWindsDown(cfg, s, a); } else { OtherStepWaits(cfg, s, a); }
    assert WindDown(s) <= 15 by { FifteenAtMost(s); }
  }

  lemma FifteenAtMost(s: State)
    ensures WindDown(s) <= 15
  {
  }

  lemma OwnStepWindsDown(cfg: Config, s: State, a: Action)
    requires Usable(cfg) && Inv(cfg, s) && Enabled(cfg, s, a) && !s.router.running && StepOf(RouterLoop, a)
    ensures !Next(cfg, s, a).router.running && WindDown(Next(cfg, s, a)) < WindDown(s)
  {
    hide Flat, Inv, GoodCandidates, SpeculativeOf, Queue.Slot, Queue.Full, PrefetchNext, ComputeNext, TornPair;
    StopRests(cfg, s);
  }

  lemma OtherStepWaits(cfg: Config, s: State, a: Action)
    requires Usable(cfg) && Inv(cfg, s) && Enabled(cfg, s, a) && !s.router.running && !StepOf(RouterLoop, a)
    ensures !Next(cfg, s, a).router.running && WindDown(Next(cfg, s, a)) == WindDown(s)
  {
    hide Flat, Inv, GoodCandidates, SpeculativeOf, Queue.Slot, Queue.Full, PrefetchNext, ComputeNext;
  }

  /** And until then it always has a step. */
  lemma RouterCanMove(cfg: Config, s: State) returns (a: Action)
    requires Usable(cfg) && Inv(cfg, s) && !s.router.pc.Stopped?
    ensures Enabled(cfg, s, a) && StepOf(RouterLoop, a)
  {
    hide Flat, Inv, Queue.Slot, Queue.Full, GoodCandidates;
    var r := s.router;
    match r.pc
    case Top => a := if r.running && r.token < cfg.totalTokens then EnterIteration else Leave;
    case Entered => a := LoadToken;
    case HaveToken(_) => a := LoadLayer;
    case HaveBoth(_, _, _) => a := Check(1);
    case Admitted => a := Route(SomeDraws(cfg));
    case Rejected(_) => a := Retry;
    case Sent(_) => a := Speculate(0);
    case Advancing => a := AdvanceCursor;
    case Pushing(msg) => a := ProducerCanMove(cfg, s, msg);
    case Speculating(msg) => a := ProducerCanMove(cfg, s, msg);
  }

  lemma ProducerCanMove(cfg: Config, s: State, msg: Message) returns (a: Action)
    requires Usable(cfg) && (s.router.pc == Pushing(msg) || s.router.pc == Speculating(msg))
    ensures Enabled(cfg, s, a) && StepOf(RouterLoop, a)
  {
    hide Queue.Full;
    match s.ring.producer
    case PIdle => a := Ring(Queue.LoadOwnHead(msg));
    case PHaveHead(_, _) => a := Ring(Queue.LoadTail);
    case PHaveTail(_, h, t, _) => a := Ring(if Queue.Full(h, t, s.ring.ring.capacity) then Queue.RejectFull else Queue.WriteSlot);
    case PWritten(_, _) => a := Ring(Queue.PublishHead);
  }

  lemma {:induction false} FirmHolds(ms: seq<Message>, j: nat) returns (i: nat)
    requires j < |ms| && !ms[j].speculative
    ensures i < |Firm(ms)| && Firm(ms)[i] == ms[j]
  {
    if j == |ms| - 1 { i := |Firm(ms)| - 1; } else { i := FirmHolds(ms[..|ms| - 1], j); }
  }

  /** Every message of a stream names as many experts as configured. */
  lemma StreamCandidates(cfg: Config, ms: seq<Message>, j: nat)
    requires Usable(cfg) && Stream(cfg, ms) && j < |ms|
    ensures |ms[j].candidates| == cfg.numCandidates
  {
    hide Flat;
    var k := if ms[j].speculative then j - 1 else j;
    var i := FirmHolds(ms, k);
    assert IsPrediction(cfg, Firm(ms)[i], i);
  }

  /** Prefetches and ring steps a stopped prefetch thread still makes, at most. */
  function PrefetchWindDown(cfg: Config, s: State): nat {
    match s.ring.consumer
    case CIdle => |s.prefetch.pending|
    case CRead(_, _) => 1 + cfg.numCandidates
    case CHaveHead(_, _, _) => 2 + cfg.numCandidates
    case CHaveTail(_) => 3 + cfg.numCandidates
  }

  lemma StopReads(cfg: Config, s: State)
    requires Usable(cfg) && Inv(cfg, s)
    ensures !s.ring.consumer.CIdle? ==> s.prefetch.pending == []
    ensures s.ring.consumer.CRead? ==> |s.ring.consumer.item.candidates| == cfg.numCandidates
    ensures Enabled(cfg, s, Ring(Queue.ReadSlot)) ==> Queue.ConsumerSlot(s.ring) < |s.ring.ring.slots|
  {
    hide Flat, ComputeInv, CursorInv, ReadInv, CountInv, MessageInv, Stream, Named;
    if s.ring.consumer.CRead? { StreamCandidates(cfg, s.ring.ring.pushed, |s.ring.ring.popped|); }
    if Enabled(cfg, s, Ring(Queue.ReadSlot)) { Queue.ReadStep(s.ring); }
  }

  /** Likewise the prefetch thread: it finishes the message in hand. Its end is an idle consumer with nothing
      pending and the flag down. */
  lemma StoppedPrefetcherWindsDown(cfg: Config, s: State, a: Action)
    requires Usable(cfg) && Inv(cfg, s) && Enabled(cfg, s, a) && !s.prefetch.running
    ensures var s' := Next(cfg, s, a);
            && !s'.prefetch.running && PrefetchWindDown(cfg, s') <= PrefetchWindDown(cfg, s)
            && (StepOf(PrefetchLoop, a) ==> PrefetchWindDown(cfg, s') < PrefetchWindDown(cfg, s))
  {
    hide Flat, Inv, GoodCandidates, SpeculativeOf, Queue.Slot, Queue.Full, RouterNext, ComputeNext;
    StopReads(cfg, s);
  }

  lemma PrefetcherCanMove(cfg: Config, s: State) returns (a: Action)
    requires Usable(cfg) && Inv(cfg, s) && (!s.ring.consumer.CIdle? || s.prefetch.pending != [] || s.prefetch.running)
    ensures Enabled(cfg, s, a) && StepOf(PrefetchLoop, a)
  {
    hide Flat, Inv, Queue.Slot, Queue.Full;
    match s.ring.consumer
    case CIdle => a := if s.prefetch.pending != [] then PrefetchOne else Ring(Queue.LoadOwnTail);
    case CHaveTail(_) => a := Ring(Queue.LoadHead);
    case CHaveHead(t, h, _) => a := Ring(if t == h then Queue.RejectEmpty else Queue.ReadSlot);
    case CRead(_, _) => a := Ring(Queue.PublishTail);
  }
}
