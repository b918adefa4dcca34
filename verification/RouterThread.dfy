/** The router thread's loop as the program has it, pushing into the real ring. What the other threads do
    meanwhile reaches it only through what it reads: the progress words, the flag, the depth and window
    switches, and the free slots the prefetch thread makes. */
module Routers {
  import opened Bits
  import opened Prediction
  import opened Routing
  import opened SpscQueue

  /** One turn of the loop or of the retry loop in it: the values read in it, the flag again before a
      speculative push, the random draws for a prediction, and how many messages are popped before its push. */
  datatype Glance = Glance(running: bool, token: uint32, layer: uint32, depth: uint32, window: uint32,
                           stillRunning: bool, draws: seq<uint32>, drained: nat)

  predicate Drawn(cfg: Config, world: seq<Glance>) {
    forall i :: 0 <= i < |world| ==> |world[i].draws| == cfg.numCandidates
  }

  /** The flow-control check of turn `j` admits this position. */
  predicate AdmittedBy(cfg: Config, world: seq<Glance>, flat: nat, j: nat) {
    && j < |world| && world[j].running
    && flat < Flat(world[j].token, world[j].layer, cfg.numLayers) + world[j].depth
  }

  /** Turn by turn: each firm message passed the check of its own turn, was pushed then or later, and before
      the check of the next one. */
  ghost predicate Paced(cfg: Config, world: seq<Glance>, checks: seq<nat>, pushes: seq<nat>, turn: nat) {
    && |checks| == |pushes|
    && (forall i :: 0 <= i < |checks| ==> AdmittedBy(cfg, world, i, checks[i]) && checks[i] <= pushes[i] < turn)
    && (forall i :: 0 <= i < |checks| - 1 ==> pushes[i] < checks[i + 1])
  }

  /** The i-th firm message carries the candidates made for its position from the draws of the turn that
      admitted it. */
  ghost predicate FollowDraws(cfg: Config, world: seq<Glance>, checks: seq<nat>, firm: seq<Message>)
    requires Usable(cfg)
  {
    && |checks| == |firm|
    && forall i :: 0 <= i < |firm| ==>
         checks[i] < |world| && MadeFor(cfg, firm[i], i, world[checks[i]].draws)
  }

  ghost predicate MadeFor(cfg: Config, m: Message, flat: nat, draws: seq<uint32>)
    requires Usable(cfg)
  {
    && m.candidates == CandidatesFor(cfg, m.layer, flat, draws)
    && (!Deterministic(cfg.scenario) ==> FromDraws(draws, m.candidates, cfg.numExperts))
  }

  /** Every speculative message was sent in the turn that pushed the firm one before it, over that turn's window. */
  ghost predicate FollowWindows(world: seq<Glance>, pushes: seq<nat>, ms: seq<Message>) {
    forall j :: 0 <= j < |ms| && ms[j].speculative ==>
      var n := |Firm(ms[..j])|;
      && 0 < n <= |pushes| && pushes[n - 1] < |world|
      && world[pushes[n - 1]].stillRunning && ms[j].distance == world[pushes[n - 1]].window
  }

  /** How an iteration ends: it goes on, a stop made it give up its message, or the turns ran out while it was
      still retrying. */
  datatype Outcome = GoOn | GaveUp | Unfinished

  class RouterThread {
    const cfg: Config
    const queue: LockFreeSPSCQueue<Message>
    var routerToken: uint32
    var routerLayer: uint32
    var predictionCount: nat
    ghost var checks: seq<nat>
    ghost var pushes: seq<nat>

    constructor (cfg: Config, queue: LockFreeSPSCQueue<Message>)
      ensures this.cfg == cfg && this.queue == queue
    {
      this.cfg, this.queue := cfg, queue;
      routerToken, routerLayer, predictionCount := 0, 0, 0;
      checks, pushes := [], [];
    }

    predicate CursorInRange()
      reads this
    {
      && Usable(cfg) && routerLayer < cfg.numLayers && routerToken <= cfg.totalTokens
      && (routerToken == cfg.totalTokens ==> routerLayer == 0)
    }

    function Position(): nat
      reads this
    {
      Flat(routerToken, routerLayer, cfg.numLayers)
    }

    /** The prediction for the cursor's position. */
    method Predict(draws: seq<uint32>) returns (msg: Message)
      requires CursorInRange() && routerToken < cfg.totalTokens && |draws| == cfg.numCandidates
      modifies this`predictionCount
      ensures IsPrediction(cfg, msg, Position()) && msg.token == routerToken && msg.layer == routerLayer
      ensures msg.candidates == CandidatesFor(cfg, routerLayer, Position(), draws)
      ensures !Deterministic(cfg.scenario) ==> FromDraws(draws, msg.candidates, cfg.numExperts)
    {
      hide Flat, CandidateOf, Dedup, FromDraws;
      CandidatesAreGood(cfg, routerLayer, Position(), draws);
      predictionCount := predictionCount + 1;
      var topK := new uint32[8];
      GenerateCandidates(routerLayer, Position(), cfg.numCandidates, cfg.numExperts, cfg.scenario, draws, topK);
      assert forall k :: 0 <= k < cfg.numCandidates ==> topK[..cfg.numCandidates][k] == topK[k];
      msg := Message(routerToken, routerLayer, topK[..cfg.numCandidates], false, 0);
    }

    /** The other side popping up to `n` messages. */
    method Drain(n: nat, last: Message)
      requires queue.Valid()
      modifies queue
      ensures queue.Valid() && queue.pushed == old(queue.pushed)
    {
      var item := last;
      for k := 0 to n
        invariant queue.Valid() && queue.pushed == old(queue.pushed)
      {
        var ok;
        ok, item := queue.Pop(item);
      }
    }

    /** Retries until the message is in or a stop is seen; `turn` is the turn it ends in. A run of turns may
        also end in the middle. */
    method PushRetrying(msg: Message, world: seq<Glance>, start: nat) returns (sent: bool, turn: nat)
      requires queue.Valid() && start < |world| && world[start].running
      modifies queue, queue.ringBuffer
      ensures queue.Valid() && start <= turn <= |world|
      ensures queue.pushed == if sent then old(queue.pushed) + [msg] else old(queue.pushed)
      ensures sent ==> turn < |world| && world[turn].running
      ensures !sent && turn < |world| ==> !world[turn].running
      ensures !sent ==> |queue.pushed| - |queue.popped| == queue.capacity
    {
      turn := start;
      sent := false;
      while turn < |world|
        invariant queue.Valid() && start <= turn <= |world| && queue.pushed == old(queue.pushed)
        invariant turn < |world| ==> world[turn].running
        invariant turn > start ==> |queue.pushed| - |queue.popped| == queue.capacity
        decreases |world| - turn
      {
        Drain(world[turn].drained, msg);
        sent := queue.Push(msg);
        if sent {
          return;
        }
        turn := turn + 1;
        if turn < |world| && !world[turn].running {
          return;
        }
      }
    }

    /** The speculative copy: pushed once, dropped if the ring is full. */
    method PushSpeculative(msg: Message, window: uint32)
      requires Usable(cfg) && queue.Valid() && Stream(cfg, queue.pushed) && window > 0
      requires queue.pushed != [] && queue.pushed[|queue.pushed| - 1] == msg && !msg.speculative && msg.layer < cfg.numLayers
      modifies queue, queue.ringBuffer
      ensures queue.Valid() && Stream(cfg, queue.pushed) && Firm(queue.pushed) == Firm(old(queue.pushed))
      ensures queue.popped == old(queue.popped)
      ensures var room := |old(queue.View().Contents())| < queue.capacity;
              queue.pushed == old(queue.pushed) + (if room then [SpeculativeOf(msg, cfg.numLayers, window)] else [])
    {
      hide Flat, Wrap32, Rem, Quotient, Stream, SpscQueue.RingInv;
      var ahead := Wrap32(msg.layer + window);
      var specMsg := msg.(speculative := true, distance := window, layer := Rem(ahead, cfg.numLayers),
        token := Wrap32(msg.token + Quotient(ahead, cfg.numLayers)));
      StreamCopy(cfg, queue.pushed, specMsg);
      var pushed := queue.Push(specMsg);
    }

    method AdvanceCursor()
      requires CursorInRange() && routerToken < cfg.totalTokens
      modifies this`routerToken, this`routerLayer
      ensures CursorInRange() && Position() == old(Position()) + 1
    {
      hide Flat;
      FlatNext(routerToken, routerLayer, cfg.numLayers);
      routerLayer := routerLayer + 1;
      if routerLayer >= cfg.numLayers {
        routerLayer := 0;
        routerToken := routerToken + 1;
      }
    }

    /** After `turn` turns everything before the cursor has been sent, each message at its own pace. */
    ghost predicate Sent(world: seq<Glance>, firm: nat, turn: nat)
      reads this
    {
      CursorInRange() && firm == Position() == |checks| && Paced(cfg, world, checks, pushes, turn)
    }

    /** What is in the messages: candidates made from the draws, copies over the windows seen. */
    ghost predicate Content(world: seq<Glance>)
      requires Usable(cfg)
      reads this, queue
    {
      FollowDraws(cfg, world, checks, Firm(queue.pushed)) && FollowWindows(world, pushes, queue.pushed)
    }

    /** The cursor's message, pushed until it is in or a stop is seen, and its speculative copy. */
    method Send(world: seq<Glance>, start: nat) returns (sent: bool, turn: nat, ghost msg: Message)
      requires CursorInRange() && routerToken < cfg.totalTokens && Drawn(cfg, world) && start < |world| && world[start].running
      requires queue.Valid() && Stream(cfg, queue.pushed) && |Firm(queue.pushed)| == Position()
      modifies this`predictionCount, queue, queue.ringBuffer
      ensures queue.Valid() && Stream(cfg, queue.pushed) && start <= turn <= |world|
      ensures IsPrediction(cfg, msg, Position()) && MadeFor(cfg, msg, Position(), world[start].draws)
      ensures sent ==> turn < |world| && world[turn].running && Firm(queue.pushed) == Firm(old(queue.pushed)) + [msg]
      ensures sent ==>
                || queue.pushed == old(queue.pushed) + [msg]
                || (world[turn].window > 0 && world[turn].stillRunning
                    && queue.pushed == old(queue.pushed) + [msg, SpeculativeOf(msg, cfg.numLayers, world[turn].window)])
      ensures !sent ==> queue.pushed == old(queue.pushed) && |queue.pushed| - |queue.popped| == queue.capacity
      ensures !sent && turn < |world| ==> !world[turn].running
      ensures sent && world[turn].window > 0 && world[turn].stillRunning ==>
                |queue.pushed| == |old(queue.pushed)| + 2 || |queue.pushed| - |queue.popped| == queue.capacity
    {
      hide Flat, Stream, SpscQueue.RingInv, GoodCandidates, CandidatesFor, FromDraws;
      ghost var before := queue.pushed;
      var prediction := Predict(world[start].draws);
      msg := prediction;
      StreamFirm(cfg, before, msg);
      sent, turn := PushRetrying(prediction, world, start);
      if sent && world[turn].window > 0 && world[turn].stillRunning {
        InFlight(queue);
        PushSpeculative(prediction, world[turn].window);
      }
    }

    /** One iteration that passes the loop's own tests. */
    method Iterate(world: seq<Glance>, start: nat) returns (turn: nat, outcome: Outcome)
      requires Usable(cfg) && queue.Valid() && Stream(cfg, queue.pushed) && Sent(world, |Firm(queue.pushed)|, start) && Drawn(cfg, world)
      requires start < |world| && world[start].running && routerToken < cfg.totalTokens && Content(world)
      modifies this, queue, queue.ringBuffer
      ensures queue.Valid() && Stream(cfg, queue.pushed) && CursorInRange() && start <= turn <= |world| && Content(world)
      ensures outcome.GoOn? ==> start < turn && Sent(world, |Firm(queue.pushed)|, turn)
      ensures !outcome.GoOn? ==> checks == old(checks) && pushes == old(pushes)
      ensures outcome.GaveUp? ==> turn < |world| && !world[turn].running
      ensures outcome.Unfinished? ==> turn == |world| && routerToken < cfg.totalTokens
      ensures !outcome.GoOn? ==> queue.pushed == old(queue.pushed) && |queue.pushed| - |queue.popped| == queue.capacity
      ensures var admitted := old(Position()) < Flat(world[start].token, world[start].layer, cfg.numLayers) + world[start].depth;
              && (!admitted ==> outcome.GoOn? && turn == start + 1 && queue.pushed == old(queue.pushed))
              && (admitted && outcome.GoOn? ==>
                    && |Firm(queue.pushed)| == |Firm(old(queue.pushed))| + 1
                    && (world[turn - 1].window > 0 && world[turn - 1].stillRunning ==>
                          |queue.pushed| == |old(queue.pushed)| + 2 || |queue.pushed| - |queue.popped| == queue.capacity))
    {
      hide Flat, Stream, SpscQueue.RingInv, GoodCandidates, Paced, FollowDraws, FollowWindows, MadeFor;
      var now := world[start];
      var computeFlat := Flat(now.token, now.layer, cfg.numLayers);
      if Position() >= computeFlat + now.depth {
        LaterTurn(cfg, world, checks, pushes, start, start + 1);
        return start + 1, GoOn;
      }
      var sent;
      ghost var msg;
      sent, turn, msg := Send(world, start);
      if !sent && turn == |world| {
        return turn, Unfinished;
      }
      AdvanceCursor();
      if sent {
        PacedExtends(cfg, world, checks, pushes, start, turn);
        ContentExtends(cfg, world, checks, pushes, old(queue.pushed), queue.pushed, msg, start, turn);
        checks, pushes := checks + [start], pushes + [turn];
        return turn + 1, GoOn;
      }
      return turn, GaveUp;
    }

    /** The loop over any number of turns, from the start of the thread. What it pushes is a stream of firm
        messages in row-major order, each admitted by the check of its own turn before its push, with
        speculative copies between; it ends early only after a stop. */
    method Run(world: seq<Glance>)
      requires Usable(cfg) && queue.Valid() && queue.pushed == [] && Drawn(cfg, world)
      modifies this, queue, queue.ringBuffer
      ensures queue.Valid() && Stream(cfg, queue.pushed)
      ensures |checks| == |Firm(queue.pushed)| && Paced(cfg, world, checks, pushes, |world|)
      ensures FollowDraws(cfg, world, checks, Firm(queue.pushed)) && FollowWindows(world, pushes, queue.pushed)
      ensures (forall j :: 0 <= j < |world| ==> world[j].running) && routerToken == cfg.totalTokens ==>
                |Firm(queue.pushed)| == Flat(cfg.totalTokens, 0, cfg.numLayers)
    {
      hide Flat, Stream, AdmittedBy, SpscQueue.RingInv, MadeFor;
      routerToken, routerLayer := 0, 0;
      checks, pushes := [], [];
      NothingSent(cfg);
      var turn: nat := 0;
      var outcome := GoOn;
      while turn < |world| && world[turn].running && routerToken < cfg.totalTokens
        invariant queue.Valid() && Stream(cfg, queue.pushed) && CursorInRange() && turn <= |world|
        invariant outcome.GoOn? ==> Sent(world, |Firm(queue.pushed)|, turn)
        invariant |checks| == |Firm(queue.pushed)| && Paced(cfg, world, checks, pushes, turn) && Content(world)
        invariant outcome.GaveUp? ==> turn < |world| && !world[turn].running
        invariant outcome.Unfinished? ==> turn == |world| && routerToken < cfg.totalTokens
        decreases |world| - turn
      {
        ghost var before := turn;
        turn, outcome := Iterate(world, turn);
        LaterTurn(cfg, world, checks, pushes, before, turn);
      }
      LaterTurn(cfg, world, checks, pushes, turn, |world|);
    }
  }

  lemma PacedExtends(cfg: Config, world: seq<Glance>, checks: seq<nat>, pushes: seq<nat>, start: nat, turn: nat)
    requires Paced(cfg, world, checks, pushes, start) && start <= turn && AdmittedBy(cfg, world, |checks|, start)
    ensures Paced(cfg, world, checks + [start], pushes + [turn], turn + 1) && |checks| == |pushes|
  {
    hide AdmittedBy;
  }

  lemma ContentExtends(cfg: Config, world: seq<Glance>, checks: seq<nat>, pushes: seq<nat>, before: seq<Message>,
                       after: seq<Message>, m: Message, start: nat, turn: nat)
    requires Usable(cfg) && FollowDraws(cfg, world, checks, Firm(before)) && FollowWindows(world, pushes, before)
    requires |pushes| == |checks| && start < |world| && turn < |world| && !m.speculative
    requires MadeFor(cfg, m, |Firm(before)|, world[start].draws)
    requires || after == before + [m]
             || (world[turn].stillRunning && after == before + [m, SpeculativeOf(m, cfg.numLayers, world[turn].window)])
    ensures FollowDraws(cfg, world, checks + [start], Firm(after)) && FollowWindows(world, pushes + [turn], after)
  {
    hide MadeFor, FollowWindows, Firm;
    FirmAppend(before, m);
    WindowsFirm(world, pushes, before, m, turn);
    if after != before + [m] {
      var copy := SpeculativeOf(m, cfg.numLayers, world[turn].window);
      assert after == (before + [m]) + [copy];
      FirmAppend(before + [m], copy);
      WindowsCopy(world, pushes + [turn], before + [m], copy);
    }
  }

  lemma WindowsFirm(world: seq<Glance>, pushes: seq<nat>, ms: seq<Message>, m: Message, turn: nat)
    requires FollowWindows(world, pushes, ms) && |pushes| == |Firm(ms)| && !m.speculative
    ensures FollowWindows(world, pushes + [turn], ms + [m])
  {
    hide Firm;
    forall j | 0 <= j < |ms| ensures (ms + [m])[..j] == ms[..j] {
    }
  }

  lemma WindowsCopy(world: seq<Glance>, pushes: seq<nat>, ms: seq<Message>, copy: Message)
    requires FollowWindows(world, pushes, ms) && 0 < |pushes| == |Firm(ms)| && pushes[|pushes| - 1] < |world|
    requires var w := world[pushes[|pushes| - 1]]; w.stillRunning && copy.distance == w.window
    ensures FollowWindows(world, pushes, ms + [copy])
  {
    hide Firm;
    forall j | 0 <= j <= |ms| ensures (ms + [copy])[..j] == ms[..j] {
    }
  }

  lemma LaterTurn(cfg: Config, world: seq<Glance>, checks: seq<nat>, pushes: seq<nat>, turn: nat, later: nat)
    requires turn <= later
    ensures Paced(cfg, world, checks, pushes, turn) ==> Paced(cfg, world, checks, pushes, later)
  {
    hide AdmittedBy;
  }

  lemma InFlight(queue: LockFreeSPSCQueue<Message>)
    requires queue.Valid()
    ensures |queue.popped| <= |queue.pushed| <= |queue.popped| + queue.capacity
    ensures |queue.View().Contents()| == |queue.pushed| - |queue.popped|
  {
  }

  lemma NothingSent(cfg: Config)
    requires Usable(cfg)
    ensures Stream(cfg, []) && Flat(0, 0, cfg.numLayers) == 0
  {
  }
}
