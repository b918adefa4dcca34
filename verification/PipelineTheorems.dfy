/** What every run of the pipeline guarantees, however the three threads interleave and whenever they are
    stopped: the lookahead bound under torn progress reads, gap-free delivery, and cover of demand. */
module PipelineTheorems {
  import opened Bits
  import opened Prediction
  import opened Routing
  import opened Pipeline
  import Queue = SpscQueue

  /** A prediction about to be published. */
  ghost predicate Publishing(s: State) {
    s.router.pc.Pushing? && RingEnabled(s, Queue.PublishHead)
  }

  // ----- lookahead -----

  /** A firm prediction is published less than `depth` positions ahead of the compute loop, or less than
      depth + numLayers - 1 if its check read a new token with the layer left over from the previous one. */
  lemma LookaheadBound(cfg: Config, s0: State, actions: seq<Action>)
    requires Usable(cfg) && Init(cfg, s0) && Legal(cfg, s0, actions)
    ensures var s := Run(cfg, s0, actions);
            Publishing(s) ==>
              var r := Flat(s.router.pc.msg.token, s.router.pc.msg.layer, cfg.numLayers);
              && r < s.compute.progress + s.router.depth + (cfg.numLayers - 1)
              && (!s.router.torn ==> r < s.compute.progress + s.router.depth)
  {
    hide Flat, GoodCandidates, Queue.Inv;
    ReachableInv(cfg, s0, actions);
  }

  /** At all times the number of firm messages ever published is bounded by the progress and the largest depth,
      without the extra layers as long as no check that passed had a torn pair. */
  lemma PublishedBound(cfg: Config, s0: State, actions: seq<Action>)
    requires Usable(cfg) && Init(cfg, s0) && Legal(cfg, s0, actions)
    ensures var s := Run(cfg, s0, actions);
            var firm := |Firm(s.ring.ring.pushed)|;
            && firm <= s.compute.progress + s.router.maxDepth + (cfg.numLayers - 1)
            && (!s.router.everTorn ==> firm <= s.compute.progress + s.router.maxDepth)
  {
    hide Flat, GoodCandidates, Queue.Inv;
    ReachableInv(cfg, s0, actions);
  }

  // ----- delivery -----

  /** What the prefetch thread has popped is a stream too: its firm messages are exactly the first positions in
      row-major order, each once, and each speculative message is the copy of the firm one before it. */
  lemma DeliveredInOrder(cfg: Config, s0: State, actions: seq<Action>)
    requires Usable(cfg) && Init(cfg, s0) && Legal(cfg, s0, actions)
    ensures var ring := Run(cfg, s0, actions).ring.ring;
            && Stream(cfg, ring.popped) && Stream(cfg, ring.pushed)
            && Firm(ring.popped) <= Firm(ring.pushed)
            && |Firm(ring.pushed)| <= cfg.totalTokens * cfg.numLayers
  {
    hide Flat, GoodCandidates, IsCopy, Stream, Queue.ProducerInv, Queue.ConsumerInv;
    ReachableInv(cfg, s0, actions);
    var ring := Run(cfg, s0, actions).ring.ring;
    assert Queue.RingInv(ring);
    StreamPrefix(cfg, ring.pushed, |ring.popped|);
    FirmPrefix(ring.pushed, |ring.popped|);
    StreamLength(cfg, ring.pushed);
  }

  lemma StreamLength(cfg: Config, ms: seq<Message>)
    requires Usable(cfg) && Stream(cfg, ms)
    ensures |Firm(ms)| <= cfg.totalTokens * cfg.numLayers
  {
    hide Flat, GoodCandidates, IsCopy;
    EndOfRows(cfg.totalTokens, cfg.numLayers);
    if Firm(ms) != [] {
      var last := Firm(ms)[|Firm(ms)| - 1];
      assert IsPrediction(cfg, last, |Firm(ms)| - 1);
      FlatOrder(last.token, last.layer, cfg.totalTokens, 0, cfg.numLayers);
    }
  }

  lemma EndOfRows(totalTokens: nat, numLayers: nat)
    ensures Flat(totalTokens, 0, numLayers) == totalTokens * numLayers >= 0
  {
  }

  /** A router that was never stopped ends with every position published. */
  lemma UnstoppedRouterPublishesAll(cfg: Config, s0: State, actions: seq<Action>)
    requires Usable(cfg) && Init(cfg, s0) && Legal(cfg, s0, actions)
    ensures var s := Run(cfg, s0, actions);
            s.router.pc.Stopped? && s.router.running ==>
              |Firm(s.ring.ring.pushed)| == cfg.totalTokens * cfg.numLayers
  {
    hide Flat, GoodCandidates, IsCopy, Stream, Queue.Inv;
    ReachableInv(cfg, s0, actions);
    EndOfRows(cfg.totalTokens, cfg.numLayers);
  }

  /** Once a stop made the router give up a message, it never publishes again, so the gap stays at the end. */
  lemma {:induction false} NothingAfterGivingUp(cfg: Config, s: State, actions: seq<Action>)
    requires Usable(cfg) && Inv(cfg, s) && Legal(cfg, s, actions) && s.router.skipped
    ensures Run(cfg, s, actions).ring.ring.pushed == s.ring.ring.pushed
    decreases |actions|
  {
    hide Inv, Enabled, Next;
    if actions != [] {
      GivenUpStep(cfg, s, actions[0]);
      StepKeepsInv(cfg, s, actions[0]);
      NothingAfterGivingUp(cfg, Next(cfg, s, actions[0]), actions[1..]);
    }
  }

  lemma GivenUpStep(cfg: Config, s: State, a: Action)
    requires Usable(cfg) && Inv(cfg, s) && Enabled(cfg, s, a) && s.router.skipped
    ensures Next(cfg, s, a).router.skipped && Next(cfg, s, a).ring.ring.pushed == s.ring.ring.pushed
  {
    hide Flat, GoodCandidates, IsPrediction, IsCopy, Stream, Queue.Inv, Queue.Slot, ComputeInv, ReadInv, PrefetchInv;
  }

  // ----- demand -----

  /** Where enough candidates are sent, the prefetch thread has asked the cache for both experts of every
      position whose message it has finished with. */
  lemma PrefetchCoversDemand(cfg: Config, s0: State, actions: seq<Action>, i: nat, k: uint32)
    requires Usable(cfg) && Init(cfg, s0) && Legal(cfg, s0, actions) && Covering(cfg) && k < 2
    requires var s := Run(cfg, s0, actions); s.prefetch.pending == [] && i < |Firm(s.ring.ring.popped)|
    ensures var s := Run(cfg, s0, actions);
            var m := Firm(s.ring.ring.popped)[i];
            && Flat(m.token, m.layer, cfg.numLayers) == i
            && Target(m.token, m.layer, cfg.numLayers, cfg.numExperts, cfg.scenario, k) in s.prefetch.calls
  {
    hide Flat, GoodCandidates, IsCopy, Target, Queue.Inv, Firm, Named, Init;
    var s := Run(cfg, s0, actions);
    var popped := s.ring.ring.popped;
    DeliveredInOrder(cfg, s0, actions);
    ReachableInv(cfg, s0, actions);
    var m := Firm(popped)[i];
    assert IsPrediction(cfg, m, i);
    MessageCovers(cfg, m, i, k);
    FirmAreNamed(popped, i, Target(m.token, m.layer, cfg.numLayers, cfg.numExperts, cfg.scenario, k));
  }

  /** The calls the prefetch thread has made are, in order, the candidates of the messages it popped. */
  lemma CallsFollowMessages(cfg: Config, s0: State, actions: seq<Action>)
    requires Usable(cfg) && Init(cfg, s0) && Legal(cfg, s0, actions)
    ensures var s := Run(cfg, s0, actions);
            s.prefetch.calls + s.prefetch.pending == Named(s.ring.ring.popped)
  {
    hide Flat, GoodCandidates, IsCopy, Stream, Queue.Inv, Named;
    ReachableInv(cfg, s0, actions);
  }

  // ----- what the messages are made of -----

  predicate Routed(pc: Pc) {
    pc.Pushing? || pc.Rejected? || pc.Sent? || pc.Speculating? || pc.Advancing?
  }

  /** One draw per position routed so far, and every firm message made of the draws for its position. */
  ghost predicate DrawnInv(cfg: Config, r: Router, pushed: seq<Message>)
    requires Usable(cfg)
  {
    var flat := Flat(r.token, r.layer, cfg.numLayers);
    && |r.drawn| == flat + (if Routed(r.pc) then 1 else 0) && |Firm(pushed)| <= |r.drawn|
    && (forall i :: 0 <= i < |r.drawn| ==> |r.drawn[i]| == cfg.numCandidates)
    && (forall i :: 0 <= i < |Firm(pushed)| ==> MadeFrom(cfg, Firm(pushed)[i], i, r.drawn[i]))
    && (r.pc.Pushing? || r.pc.Rejected? ==> MadeFrom(cfg, r.pc.msg, flat, r.drawn[flat]))
  }

  predicate MadeFrom(cfg: Config, m: Message, flat: nat, draws: seq<uint32>)
    requires Usable(cfg)
  {
    m.candidates == CandidatesFor(cfg, m.layer, flat, draws)
  }

  lemma RouterStepDrawn(cfg: Config, s: State, a: Action)
    requires Usable(cfg) && CursorInv(cfg, s.router) && Enabled(cfg, s, a) && !a.Ring? && !a.Leave?
    requires DrawnInv(cfg, s.router, s.ring.ring.pushed)
    requires s.router.skipped ==> !s.router.running
    ensures DrawnInv(cfg, RouterNext(cfg, s.compute, s.router, a), s.ring.ring.pushed)
  {
    hide Flat, CandidatesFor, SpeculativeOf, TornPair, Firm, StaleLayer, ComputeNext, PrefetchNext;
    FlatNext(s.router.token, s.router.layer, cfg.numLayers);
    Wrap32Exact(s.router.token + 1);
  }

  lemma RingStepDrawn(cfg: Config, s: State, step: Queue.Action<Message>)
    requires Usable(cfg) && Inv(cfg, s) && RingEnabled(s, step) && DrawnInv(cfg, s.router, s.ring.ring.pushed)
    ensures DrawnInv(cfg, RouterAfterRing(s.router, step), Queue.Next(s.ring, step).ring.pushed)
  {
    hide Flat, MadeFrom, ComputeInv, CursorInv, ReadInv, Stream, Queue.Inv, PrefetchInv, Queue.Slot, Queue.Full, Firm;
    if step.PublishHead? { FirmAppend(s.ring.ring.pushed, s.router.pc.msg); }
  }

  lemma StepKeepsDrawn(cfg: Config, s: State, a: Action)
    requires Usable(cfg) && Inv(cfg, s) && Enabled(cfg, s, a) && DrawnInv(cfg, s.router, s.ring.ring.pushed)
    ensures var s' := Next(cfg, s, a); DrawnInv(cfg, s'.router, s'.ring.ring.pushed)
  {
    hide Flat, DrawnInv, ComputeInv, CursorInv, ReadInv, MessageInv, Stream, Queue.Inv, PrefetchInv, ProducerInv, ComputeNext, PrefetchNext;
    match a
    case Ring(step) => RingStepDrawn(cfg, s, step);
    case Leave => LeaveDrawn(cfg, s);
    case _ => RouterStepDrawn(cfg, s, a);
  }

  lemma LeaveDrawn(cfg: Config, s: State)
    requires Usable(cfg) && Enabled(cfg, s, Leave) && DrawnInv(cfg, s.router, s.ring.ring.pushed)
    ensures DrawnInv(cfg, s.router.(pc := Stopped), s.ring.ring.pushed)
  {
    hide Flat, MadeFrom, Firm;
  }

  lemma {:induction false} RunKeepsDrawn(cfg: Config, s: State, actions: seq<Action>)
    requires Usable(cfg) && Inv(cfg, s) && Legal(cfg, s, actions) && DrawnInv(cfg, s.router, s.ring.ring.pushed)
    ensures var s' := Run(cfg, s, actions); DrawnInv(cfg, s'.router, s'.ring.ring.pushed)
    decreases |actions|
  {
    hide Inv, Enabled, Next, DrawnInv;
    if actions != [] {
      StepKeepsInv(cfg, s, actions[0]);
      StepKeepsDrawn(cfg, s, actions[0]);
      RunKeepsDrawn(cfg, Next(cfg, s, actions[0]), actions[1..]);
    }
  }

  /** In every run the candidates of firm message i are those of its scenario, or are made of the draws for
      position i: kept if they are distinct, repaired if two are equal, never out of range. */
  lemma MessagesFollowDraws(cfg: Config, s0: State, actions: seq<Action>, i: nat)
    requires Usable(cfg) && Init(cfg, s0) && Legal(cfg, s0, actions)
    requires i < |Firm(Run(cfg, s0, actions).ring.ring.pushed)|
    ensures var s := Run(cfg, s0, actions);
            var m := Firm(s.ring.ring.pushed)[i];
            && i < |s.router.drawn| && m.candidates == CandidatesFor(cfg, m.layer, i, s.router.drawn[i])
            && (!Deterministic(cfg.scenario) ==> FromDraws(s.router.drawn[i], m.candidates, cfg.numExperts))
  {
    hide Inv, Legal, Run, CandidatesFor, FromDraws;
    InitInv(cfg, s0);
    assert Flat(0, 0, cfg.numLayers) == 0 by { EndOfRows(0, cfg.numLayers); }
    assert Firm(s0.ring.ring.pushed) == [];
    RunKeepsDrawn(cfg, s0, actions);
    var s := Run(cfg, s0, actions);
    var m := Firm(s.ring.ring.pushed)[i];
    assert MadeFrom(cfg, m, i, s.router.drawn[i]);
    CandidatesAreGood(cfg, m.layer, i, s.router.drawn[i]);
  }
}
