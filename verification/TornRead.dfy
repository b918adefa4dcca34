/** The lookahead bound for torn reads is attained: a compute loop paused between its two progress stores, at
    the first layer of the second token, lets the router run depth + numLayers - 2 positions ahead. */
module TornRead {
  import opened Bits
  import opened Prediction
  import opened Routing
  import opened Pipeline
  import opened PipelineTheorems
  import Queue = SpscQueue

  // ----- building runs -----

  predicate ChecksAt(a: Action, depth: nat) {
    a.Check? ==> a.depth == depth
  }

  /** All flow-control checks of the run use this depth. */
  predicate FixedDepth(actions: seq<Action>, depth: nat) {
    forall k :: 0 <= k < |actions| ==> ChecksAt(actions[k], depth)
  }

  ghost predicate Reaches(cfg: Config, s: State, t: State, depth: nat)
    requires Usable(cfg)
  {
    exists actions :: Legal(cfg, s, actions) && Run(cfg, s, actions) == t && FixedDepth(actions, depth)
  }

  lemma ReachesItself(cfg: Config, s: State, depth: nat)
    requires Usable(cfg)
    ensures Reaches(cfg, s, s, depth)
  {
    assert Legal(cfg, s, []) && Run(cfg, s, []) == s && FixedDepth([], depth);
  }

  lemma {:induction false} RunSnoc(cfg: Config, s: State, actions: seq<Action>, a: Action)
    requires Usable(cfg) && Legal(cfg, s, actions) && Enabled(cfg, Run(cfg, s, actions), a)
    ensures Legal(cfg, s, actions + [a]) && Run(cfg, s, actions + [a]) == Next(cfg, Run(cfg, s, actions), a)
    decreases |actions|
  {
    hide Enabled, Next;
    if actions == [] {
      var s' := Next(cfg, s, a);
      assert actions + [a] == [a] && [a][0] == a && [a][1..] == [];
      assert Legal(cfg, s', []) && Run(cfg, s', []) == s';
    } else {
      RunSnoc(cfg, Next(cfg, s, actions[0]), actions[1..], a);
      assert (actions + [a])[1..] == actions[1..] + [a];
    }
  }

  lemma ReachesStep(cfg: Config, s: State, t: State, depth: nat, a: Action)
    requires Usable(cfg) && Reaches(cfg, s, t, depth) && Enabled(cfg, t, a) && ChecksAt(a, depth)
    ensures Reaches(cfg, s, Next(cfg, t, a), depth)
  {
    hide Enabled, Next, ChecksAt;
    var actions :| Legal(cfg, s, actions) && Run(cfg, s, actions) == t && FixedDepth(actions, depth);
    RunSnoc(cfg, s, actions, a);
    assert FixedDepth(actions + [a], depth);
  }

  // ----- the compute loop's part -----

  /** Everything but the compute loop is as it was. */
  ghost predicate OnlyComputed(s: State, t: State) {
    t.router == s.router && t.ring == s.ring && t.prefetch == s.prefetch
  }

  /** Computing one layer. */
  lemma ComputeLayer(cfg: Config, s0: State, s: State, depth: nat) returns (t: State)
    requires Usable(cfg) && Reaches(cfg, s0, s, depth) && s.compute.phase.Entering?
    ensures Reaches(cfg, s0, t, depth) && OnlyComputed(s, t)
    ensures t.compute == ComputeNext(cfg, ComputeNext(cfg, ComputeNext(cfg, s.compute, StoreToken), StoreLayer), FinishLayer)
  {
    hide Flat, Reaches;
    t := s;
    ReachesStep(cfg, s0, t, depth, StoreToken);
    t := Next(cfg, t, StoreToken);
    ReachesStep(cfg, s0, t, depth, StoreLayer);
    t := Next(cfg, t, StoreLayer);
    ReachesStep(cfg, s0, t, depth, FinishLayer);
    t := Next(cfg, t, FinishLayer);
  }

  lemma {:induction false} ComputeTo(cfg: Config, s: State, l: nat, depth: nat) returns (t: State)
    requires Usable(cfg) && Init(cfg, s) && cfg.totalTokens > 0 && l < cfg.numLayers
    ensures Reaches(cfg, s, t, depth) && OnlyComputed(s, t)
    ensures t.compute.token == 0 && t.compute.layer == l && t.compute.phase.Entering?
  {
    hide Flat, Reaches;
    if l == 0 {
      t := s;
      ReachesItself(cfg, s, depth);
    } else {
      t := ComputeTo(cfg, s, l - 1, depth);
      t := ComputeLayer(cfg, s, t, depth);
    }
  }

  lemma SecondRow(numLayers: nat)
    ensures Flat(1, 0, numLayers) == numLayers
    ensures numLayers > 0 ==> Flat(1, numLayers - 1, numLayers) == 2 * numLayers - 1
  {
  }

  /** The whole first row, and then the first store of the second. */
  lemma ComputeToTear(cfg: Config, s: State, depth: nat) returns (t: State)
    requires Usable(cfg) && Init(cfg, s) && cfg.totalTokens > 1
    ensures Reaches(cfg, s, t, depth) && OnlyComputed(s, t)
    ensures t.compute == Compute(1, 0, TokenStored, 1, cfg.numLayers - 1, cfg.numLayers)
  {
    hide Flat, Reaches;
    t := ComputeTo(cfg, s, cfg.numLayers - 1, depth);
    t := ComputeLayer(cfg, s, t, depth);
    SecondRow(cfg.numLayers);
    ReachesStep(cfg, s, t, depth, StoreToken);
    t := Next(cfg, t, StoreToken);
  }

  // ----- the router's part -----

  /** Draws that do. */
  function SomeDraws(cfg: Config): seq<uint32> {
    seq(cfg.numCandidates, k => 0)
  }

  /** The prefetch thread waits for a message. */
  predicate Waits(s: State) {
    s.ring.consumer.CIdle? && s.prefetch.running && s.prefetch.pending == []
  }

  /** The router at the top of its loop, about to send position `k`, with everything before it popped. */
  ghost predicate ReadyFor(cfg: Config, s: State, k: nat)
    requires Usable(cfg)
  {
    && s.router.pc.Top? && s.router.running && Flat(s.router.token, s.router.layer, cfg.numLayers) == k
    && s.router.layer < cfg.numLayers
    && s.ring.producer.PIdle? && |s.ring.ring.pushed| == |s.ring.ring.popped| == k && Waits(s)
  }

  lemma TokenLeft(cfg: Config, token: nat, layer: nat)
    requires Usable(cfg) && Flat(token, layer, cfg.numLayers) < cfg.totalTokens * cfg.numLayers
    ensures token < cfg.totalTokens
  {
    hide Flat;
    EndOfRows(cfg.totalTokens, cfg.numLayers);
    FlatOrder(cfg.totalTokens, 0, token, layer, cfg.numLayers);
  }

  /** From the loop's top past the flow-control check. */
  lemma PassCheck(cfg: Config, s0: State, s: State, k: nat, depth: nat) returns (t: State)
    requires Usable(cfg) && Reaches(cfg, s0, s, depth) && ReadyFor(cfg, s, k) && k < cfg.totalTokens * cfg.numLayers
    requires k < Flat(s.compute.storedToken, s.compute.storedLayer, cfg.numLayers) + depth
    ensures Reaches(cfg, s0, t, depth) && t.compute == s.compute && t.ring == s.ring && t.prefetch == s.prefetch
    ensures t.router.pc.Admitted? && t.router.depth == depth
    ensures t.router.running && t.router.token == s.router.token && t.router.layer == s.router.layer
  {
    hide Flat, Reaches;
    TokenLeft(cfg, s.router.token, s.router.layer);
    t := s;
    ReachesStep(cfg, s0, t, depth, EnterIteration);
    t := Next(cfg, t, EnterIteration);
    ReachesStep(cfg, s0, t, depth, LoadToken);
    t := Next(cfg, t, LoadToken);
    ReachesStep(cfg, s0, t, depth, LoadLayer);
    t := Next(cfg, t, LoadLayer);
    ReachesStep(cfg, s0, t, depth, Check(depth));
    t := Next(cfg, t, Check(depth));
  }

  /** The prediction is made and written to its slot; only its publication is missing. */
  lemma WriteMessage(cfg: Config, s0: State, s: State, k: nat, depth: nat) returns (t: State)
    requires Usable(cfg) && Reaches(cfg, s0, s, depth) && Inv(cfg, s) && s.router.pc.Admitted? && s.router.running
    requires Flat(s.router.token, s.router.layer, cfg.numLayers) == k
    requires s.ring.producer.PIdle? && |s.ring.ring.pushed| == |s.ring.ring.popped| == k && s.ring.ring.capacity > 0 && Waits(s)
    ensures Reaches(cfg, s0, t, depth) && t.compute == s.compute && Publishing(t)
    ensures t.router.depth == s.router.depth && t.router.running
    ensures t.router.token == t.router.pc.msg.token == s.router.token
    ensures t.router.layer == t.router.pc.msg.layer == s.router.layer
    ensures |t.ring.ring.pushed| == |t.ring.ring.popped| == k && t.ring.ring.capacity == s.ring.ring.capacity && Waits(t)
  {
    hide Flat, Reaches, Queue.Full, Queue.Slot, Inv, CandidatesFor;
    var draws := SomeDraws(cfg);
    t := s;
    ReachesStep(cfg, s0, t, depth, Route(draws));
    StepKeepsInv(cfg, t, Route(draws));
    t := Next(cfg, t, Route(draws));
    var load := Queue.LoadOwnHead(t.router.pc.msg);
    ReachesStep(cfg, s0, t, depth, Ring(load));
    StepKeepsInv(cfg, t, Ring(load));
    t := Next(cfg, t, Ring(load));
    ReachesStep(cfg, s0, t, depth, Ring(Queue.LoadTail));
    StepKeepsInv(cfg, t, Ring(Queue.LoadTail));
    t := Next(cfg, t, Ring(Queue.LoadTail));
    NotFull(cfg, t);
    ReachesStep(cfg, s0, t, depth, Ring(Queue.WriteSlot));
    t := Next(cfg, t, Ring(Queue.WriteSlot));
  }

  lemma NotFull(cfg: Config, s: State)
    requires Usable(cfg) && Inv(cfg, s) && s.ring.producer.PHaveTail? && s.ring.ring.capacity > 0
    requires s.ring.producer.seenTail == |s.ring.ring.popped| == |s.ring.ring.pushed|
    ensures Enabled(cfg, s, Ring(Queue.WriteSlot))
    ensures Queue.ProducerSlot(s.ring) < |s.ring.ring.slots|
  {
    hide Flat, Queue.Slot, Stream, Queue.Unread, Queue.ConsumerInv;
    assert Queue.Inv(s.ring);
    Queue.FullTest(|s.ring.ring.pushed|, s.ring.producer.seenTail, s.ring.ring.capacity);
    Queue.SlotOfPosition(|s.ring.ring.pushed|, s.ring.ring.capacity);
  }

  /** Publishing it and going round the loop. */
  lemma FinishIteration(cfg: Config, s0: State, s: State, k: nat, depth: nat) returns (t: State)
    requires Usable(cfg) && Init(cfg, s0) && Reaches(cfg, s0, s, depth) && Publishing(s) && s.router.running
    requires Flat(s.router.token, s.router.layer, cfg.numLayers) == k
    requires s.router.layer < cfg.numLayers && s.router.token < cfg.totalTokens
    requires |s.ring.ring.pushed| == |s.ring.ring.popped| == k && Waits(s)
    ensures Reaches(cfg, s0, t, depth) && t.compute == s.compute && ReadyFor(cfg, t, k + 1)
    ensures t.ring.ring.capacity == s.ring.ring.capacity
  {
    hide Flat, Reaches, Queue.Slot, Init;
    t := s;
    ReachesStep(cfg, s0, t, depth, Ring(Queue.PublishHead));
    t := Next(cfg, t, Ring(Queue.PublishHead));
    ReachesStep(cfg, s0, t, depth, Speculate(0));
    t := Next(cfg, t, Speculate(0));
    FlatNext(t.router.token, t.router.layer, cfg.numLayers);
    Wrap32Exact(t.router.token + 1);
    ReachesStep(cfg, s0, t, depth, AdvanceCursor);
    t := Next(cfg, t, AdvanceCursor);
    t := PopOne(cfg, s0, t, depth);
  }

  /** The prefetch thread takes the message and works through it; nothing else moves. */
  lemma PopOne(cfg: Config, s0: State, s: State, depth: nat) returns (t: State)
    requires Usable(cfg) && Init(cfg, s0) && Reaches(cfg, s0, s, depth) && Waits(s)
    requires |s.ring.ring.pushed| == |s.ring.ring.popped| + 1
    ensures Reaches(cfg, s0, t, depth) && t.compute == s.compute && t.router == s.router && Waits(t)
    ensures t.ring.producer == s.ring.producer && |t.ring.ring.pushed| == |t.ring.ring.popped| == |s.ring.ring.pushed|
    ensures t.ring.ring.capacity == s.ring.ring.capacity
  {
    hide Flat, Reaches, Queue.Slot, Init, Inv;
    t := s;
    ReachesStep(cfg, s0, t, depth, Ring(Queue.LoadOwnTail));
    t := Next(cfg, t, Ring(Queue.LoadOwnTail));
    ReachesStep(cfg, s0, t, depth, Ring(Queue.LoadHead));
    t := Next(cfg, t, Ring(Queue.LoadHead));
    ReachableKeepsInv(cfg, s0, t, depth);
    NotEmpty(cfg, t);
    ReachesStep(cfg, s0, t, depth, Ring(Queue.ReadSlot));
    t := Next(cfg, t, Ring(Queue.ReadSlot));
    ReachesStep(cfg, s0, t, depth, Ring(Queue.PublishTail));
    t := Next(cfg, t, Ring(Queue.PublishTail));
    t := PrefetchRest(cfg, s0, t, depth);
  }

  lemma NotEmpty(cfg: Config, s: State)
    requires Usable(cfg) && Inv(cfg, s) && s.ring.consumer.CHaveHead?
    requires s.ring.consumer.seenHead > |s.ring.ring.popped|
    ensures Enabled(cfg, s, Ring(Queue.ReadSlot))
    ensures Queue.ConsumerSlot(s.ring) < |s.ring.ring.slots|
  {
    hide Flat, Queue.Slot, Stream, Queue.ProducerInv, ComputeInv, CursorInv, ReadInv, CountInv, MessageInv;
    assert Queue.Inv(s.ring);
    Queue.FullTest(s.ring.consumer.seenHead, |s.ring.ring.popped|, s.ring.ring.capacity);
    Queue.ReadStep(s.ring);
  }

  lemma {:induction false} PrefetchRest(cfg: Config, s0: State, s: State, depth: nat) returns (t: State)
    requires Usable(cfg) && Reaches(cfg, s0, s, depth)
    ensures Reaches(cfg, s0, t, depth) && t.compute == s.compute && t.router == s.router && t.ring == s.ring
    ensures t.prefetch.running == s.prefetch.running && t.prefetch.pending == []
    decreases |s.prefetch.pending|
  {
    hide Flat, Reaches;
    t := s;
    if s.prefetch.pending != [] {
      ReachesStep(cfg, s0, t, depth, PrefetchOne);
      t := PrefetchRest(cfg, s0, Next(cfg, t, PrefetchOne), depth);
    }
  }

  lemma ReachableKeepsInv(cfg: Config, s0: State, t: State, depth: nat)
    requires Usable(cfg) && Init(cfg, s0) && Reaches(cfg, s0, t, depth)
    ensures Inv(cfg, t)
  {
    hide Inv, Init;
    var actions :| Legal(cfg, s0, actions) && Run(cfg, s0, actions) == t && FixedDepth(actions, depth);
    ReachableInv(cfg, s0, actions);
  }

  /** Everything up to publishing position `k`, reading the same pair of words throughout. */
  lemma {:induction false} SendUpTo(cfg: Config, s0: State, s: State, k: nat, depth: nat) returns (t: State)
    requires Usable(cfg) && Init(cfg, s0) && Reaches(cfg, s0, s, depth) && ReadyFor(cfg, s, 0)
    requires k < cfg.totalTokens * cfg.numLayers && s.ring.ring.capacity > 0
    requires k < Flat(s.compute.storedToken, s.compute.storedLayer, cfg.numLayers) + depth
    ensures Reaches(cfg, s0, t, depth) && t.compute == s.compute && Publishing(t) && t.router.depth == depth
    ensures Flat(t.router.pc.msg.token, t.router.pc.msg.layer, cfg.numLayers) == k
    ensures t.router.running && t.router.token == t.router.pc.msg.token && t.router.layer == t.router.pc.msg.layer
    ensures t.router.layer < cfg.numLayers && t.router.token < cfg.totalTokens
    ensures |t.ring.ring.pushed| == |t.ring.ring.popped| == k && Waits(t) && t.ring.ring.capacity == s.ring.ring.capacity
    decreases k
  {
    hide Flat, Reaches, Publishing, Inv, Init;
    t := s;
    if k > 0 {
      t := SendUpTo(cfg, s0, s, k - 1, depth);
      t := FinishIteration(cfg, s0, t, k - 1, depth);
    }
    var ready := t;
    TokenLeft(cfg, ready.router.token, ready.router.layer);
    t := PassCheck(cfg, s0, t, k, depth);
    ReachableKeepsInv(cfg, s0, t, depth);
    t := WriteMessage(cfg, s0, t, k, depth);
  }

  /** A run that stops the compute loop in the tear and publishes position `k` there. */
  lemma PublishInTear(cfg: Config, s0: State, k: nat, depth: nat) returns (actions: seq<Action>)
    requires Usable(cfg) && Init(cfg, s0) && cfg.totalTokens > 1
    requires k < cfg.totalTokens * cfg.numLayers && s0.ring.ring.capacity > 0 && k < 2 * cfg.numLayers - 1 + depth
    ensures Legal(cfg, s0, actions) && FixedDepth(actions, depth)
    ensures var s := Run(cfg, s0, actions);
            && Publishing(s) && s.router.depth == depth && s.compute.progress == cfg.numLayers
            && Flat(s.router.pc.msg.token, s.router.pc.msg.layer, cfg.numLayers) == k
  {
    var torn := ComputeToTear(cfg, s0, depth);
    SecondRow(cfg.numLayers);
    assert ReadyFor(cfg, torn, 0) by { assert Flat(0, 0, cfg.numLayers) == 0; }
    hide Init, Publishing, Flat, ReadyFor, FixedDepth;
    var t := SendUpTo(cfg, s0, torn, k, depth);
    actions :| Legal(cfg, s0, actions) && Run(cfg, s0, actions) == t && FixedDepth(actions, depth);
  }

  /** For every depth, every number of layers and every ring, given enough tokens, some run publishes a prediction at
      exactly progress + depth + numLayers - 2. */
  lemma BoundIsAttained(cfg: Config, s0: State, depth: nat) returns (actions: seq<Action>)
    requires Usable(cfg) && Init(cfg, s0) && cfg.totalTokens > 1
    requires 2 * cfg.numLayers - 2 + depth < cfg.totalTokens * cfg.numLayers && s0.ring.ring.capacity > 0
    ensures Legal(cfg, s0, actions) && FixedDepth(actions, depth)
    ensures var s := Run(cfg, s0, actions);
            && Publishing(s) && s.router.depth == depth
            && Flat(s.router.pc.msg.token, s.router.pc.msg.layer, cfg.numLayers)
               == s.compute.progress + depth + (cfg.numLayers - 1) - 1
  {
    actions := PublishInTear(cfg, s0, 2 * cfg.numLayers - 2 + depth, depth);
  }

  // ----- exactly when the depth alone is not the bound -----

  /** With all checks at one depth, the router holds that depth, and a torn read needs a finished token. */
  ghost predicate DepthInv(cfg: Config, c: Compute, r: Router, depth: nat)
    requires Usable(cfg)
  {
    && (Holding(r.pc) ==> r.depth == depth && (r.torn ==> c.progress >= cfg.numLayers))
    && (r.pc.HaveBoth? && r.pc.torn ==> c.progress >= cfg.numLayers)
  }

  lemma TornIsLate(cfg: Config, c: Compute, tok: uint32)
    requires Usable(cfg) && ComputeInv(cfg, c) && TornPair(c, tok)
    ensures c.progress >= cfg.numLayers
  {
    SecondRow(cfg.numLayers);
    FlatOrder(1, 0, c.token, 0, cfg.numLayers);
  }

  lemma StepKeepsDepth(cfg: Config, s: State, a: Action, depth: nat)
    requires Usable(cfg) && Inv(cfg, s) && Enabled(cfg, s, a) && ChecksAt(a, depth)
    requires DepthInv(cfg, s.compute, s.router, depth)
    ensures DepthInv(cfg, Next(cfg, s, a).compute, Next(cfg, s, a).router, depth)
  {
    hide Flat, GoodCandidates, IsPrediction, IsCopy, Stream, Queue.Inv, Queue.Next, Queue.Enabled, CursorInv, ReadInv, CountInv;
    hide MessageInv, PrefetchInv, ComputeInv, ComputeNext, TornPair, ProducerInv, PrefetchNext, SpeculativeOf;
    ComputeStep(cfg, s.compute, a);
    if a.LoadLayer? && TornPair(s.compute, s.router.pc.tok) { TornIsLate(cfg, s.compute, s.router.pc.tok); }
  }

  lemma {:induction false} RunKeepsDepth(cfg: Config, s: State, actions: seq<Action>, depth: nat)
    requires Usable(cfg) && Inv(cfg, s) && Legal(cfg, s, actions) && FixedDepth(actions, depth)
    requires DepthInv(cfg, s.compute, s.router, depth)
    ensures var s' := Run(cfg, s, actions); DepthInv(cfg, s'.compute, s'.router, depth)
    decreases |actions|
  {
    hide Inv, Enabled, Next, DepthInv, ChecksAt;
    if actions != [] {
      StepKeepsInv(cfg, s, actions[0]);
      StepKeepsDepth(cfg, s, actions[0], depth);
      RunKeepsDepth(cfg, Next(cfg, s, actions[0]), actions[1..], depth);
    }
  }

  /** Some run with all checks at this depth publishes at or beyond progress + depth. */
  ghost predicate RunsAhead(cfg: Config, s0: State, depth: nat)
    requires Usable(cfg)
  {
    exists actions ::
      && Legal(cfg, s0, actions) && FixedDepth(actions, depth)
      && var s := Run(cfg, s0, actions);
         Publishing(s) && Flat(s.router.pc.msg.token, s.router.pc.msg.layer, cfg.numLayers) >= s.compute.progress + depth
  }

  lemma AheadNeedsTear(cfg: Config, s0: State, actions: seq<Action>, depth: nat)
    requires Usable(cfg) && Init(cfg, s0) && Legal(cfg, s0, actions) && FixedDepth(actions, depth)
    requires var s := Run(cfg, s0, actions);
             Publishing(s) && Flat(s.router.pc.msg.token, s.router.pc.msg.layer, cfg.numLayers) >= s.compute.progress + depth
    ensures cfg.numLayers >= 2 && cfg.numLayers + depth < cfg.totalTokens * cfg.numLayers
  {
    hide Flat, GoodCandidates, Queue.Inv, Stream, ComputeInv, CountInv, PrefetchInv, ProducerInv;
    ReachableInv(cfg, s0, actions);
    InitInv(cfg, s0);
    RunKeepsDepth(cfg, s0, actions, depth);
    LookaheadBound(cfg, s0, actions);
    var s := Run(cfg, s0, actions);
    EndOfRows(cfg.totalTokens, cfg.numLayers);
    FlatOrder(s.router.pc.msg.token, s.router.pc.msg.layer, cfg.totalTokens, 0, cfg.numLayers);
  }

  lemma RowsLeft(tokens: nat, numLayers: nat, depth: nat)
    ensures numLayers + depth < tokens * numLayers <==> (tokens - 1) * numLayers > depth
    ensures numLayers + depth < tokens * numLayers ==> tokens > 1
  {
    assert (tokens - 1) * numLayers == tokens * numLayers - numLayers;
  }

  /** The lookahead depth alone does not bound the router exactly if there are at least two layers and more
      than `depth` positions after the first token, for every ring that can hold a message. */
  lemma RunsAheadIff(cfg: Config, s0: State, depth: nat)
    requires Usable(cfg) && Init(cfg, s0) && s0.ring.ring.capacity > 0
    ensures RunsAhead(cfg, s0, depth) <==> cfg.numLayers >= 2 && (cfg.totalTokens - 1) * cfg.numLayers > depth
  {
    hide Flat, Init, FixedDepth, Queue.Enabled;
    RowsLeft(cfg.totalTokens, cfg.numLayers, depth);
    if RunsAhead(cfg, s0, depth) {
      var actions :|
        && Legal(cfg, s0, actions) && FixedDepth(actions, depth)
        && var s := Run(cfg, s0, actions);
           Publishing(s) && Flat(s.router.pc.msg.token, s.router.pc.msg.layer, cfg.numLayers) >= s.compute.progress + depth;
      AheadNeedsTear(cfg, s0, actions, depth);
    }
    if cfg.numLayers >= 2 && (cfg.totalTokens - 1) * cfg.numLayers > depth {
      var actions := PublishInTear(cfg, s0, cfg.numLayers + depth, depth);
    }
  }
}
