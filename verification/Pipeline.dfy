/** The compute loop, the router and the prefetch thread as one step machine around the ring. Every load and
    store of the two progress words, of the running flags and of the ring is a step of its own; memory is
    sequentially consistent. The steps of the cache calls are CacheProtocol's. */
module Pipeline {
  import opened Bits
  import opened Prediction
  import opened Routing
  import Queue = SpscQueue

  // ----- state -----

  datatype Phase = Entering | TokenStored | Working | Over

  /** The compute loop at (token, layer), and the two progress words it stores. `progress` is history: the
      position whose token was stored last. */
  datatype Compute = Compute(token: uint32, layer: uint32, phase: Phase, storedToken: uint32, storedLayer: uint32,
                             progress: nat)

  /** Where `RouterThread::run` is. */
  datatype Pc =
    | Top
    | Entered
    | HaveToken(tok: uint32)
    | HaveBoth(tok: uint32, lay: uint32, torn: bool)
    | Admitted
    | Pushing(msg: Message)
    | Rejected(msg: Message)
    | Sent(msg: Message)
    | Speculating(msg: Message)
    | Advancing
    | Stopped

  /** The router's cursor and its flag. History: the depth of the last check that let it pass and whether its pair
      of words was torn, the largest depth so far and whether any pair was torn, whether a stop made it give up
      a firm message, and the draws made for each position. */
  datatype Router = Router(running: bool, token: uint32, layer: uint32, pc: Pc,
                           depth: nat, torn: bool, maxDepth: nat, everTorn: bool, skipped: bool, drawn: seq<seq<uint32>>)

  /** The prefetch thread: its flag, the candidates still to prefetch, and (history) the calls made. */
  datatype Prefetcher = Prefetcher(running: bool, pending: seq<uint32>, calls: seq<uint32>)

  datatype State = State(compute: Compute, router: Router, ring: Queue.State<Message>, prefetch: Prefetcher)

  datatype Action =
    | StoreToken
    | StoreLayer
    | FinishLayer
    | StopRouter
    | StopPrefetch
    | EnterIteration
    | Leave
    | LoadToken
    | LoadLayer
    | Check(depth: nat)
    | Route(draws: seq<uint32>)
    | Ring(step: Queue.Action<Message>)
    | Retry
    | Speculate(window: uint32)
    | AdvanceCursor
    | PrefetchOne

  predicate Init(cfg: Config, s: State) {
    && s.compute == Compute(0, 0, if cfg.totalTokens == 0 then Over else Entering, 0, 0, 0)
    && s.router == Router(true, 0, 0, Top, 0, false, 0, false, false, [])
    && s.prefetch == Prefetcher(true, [], [])
    && Queue.Init(s.ring)
  }

  /** The layer word is left over from the last layer of the previous token while the token word is new. */
  predicate StaleLayer(c: Compute) {
    c.phase.TokenStored? && c.layer == 0 && c.token > 0
  }

  /** A pair whose layer is read now is torn if it has the new token with the left-over layer. With an older
      token the same layer makes a pair that was stored together. */
  predicate TornPair(c: Compute, tok: uint32) {
    StaleLayer(c) && tok == c.storedToken
  }

  predicate RingEnabled(s: State, a: Queue.Action<Message>) {
    && Queue.Enabled(s.ring, a)
    && (a.LoadOwnHead? ==> (s.router.pc.Pushing? || s.router.pc.Speculating?) && a.item == s.router.pc.msg)
    && (a.LoadOwnTail? ==> s.prefetch.running && s.prefetch.pending == [])
  }

  predicate Enabled(cfg: Config, s: State, a: Action)
    requires Usable(cfg)
  {
    var r := s.router;
    match a
    case StoreToken => s.compute.phase.Entering?
    case StoreLayer => s.compute.phase.TokenStored?
    case FinishLayer => s.compute.phase.Working?
    case StopRouter => true
    case StopPrefetch => true
    case EnterIteration => r.pc.Top? && r.running && r.token < cfg.totalTokens
    case Leave => r.pc.Top? && (!r.running || r.token >= cfg.totalTokens)
    case LoadToken => r.pc.Entered?
    case LoadLayer => r.pc.HaveToken?
    case Check(_) => r.pc.HaveBoth?
    case Route(draws) => r.pc.Admitted? && |draws| == cfg.numCandidates
    case Ring(step) => RingEnabled(s, step)
    case Retry => r.pc.Rejected?
    case Speculate(_) => r.pc.Sent?
    case AdvanceCursor => r.pc.Advancing?
    case PrefetchOne => s.prefetch.pending != []
  }

  function ComputeNext(cfg: Config, c: Compute, a: Action): Compute {
    match a
    case StoreToken =>
      c.(storedToken := c.token, phase := TokenStored, progress := Flat(c.token, c.layer, cfg.numLayers))
    case StoreLayer => c.(storedLayer := c.layer, phase := Working)
    case FinishLayer =>
      if c.layer as int + 1 < cfg.numLayers then c.(layer := c.layer + 1, phase := Entering)
      else if c.token as int + 1 < cfg.totalTokens then c.(token := c.token + 1, layer := 0, phase := Entering)
      else c.(token := cfg.totalTokens, layer := 0, phase := Over)
    case _ => c
  }

  /** The cursor after this position. */
  function CursorNext(cfg: Config, r: Router): Router {
    if r.layer as int + 1 >= cfg.numLayers then r.(layer := 0, token := Wrap32(r.token as int + 1), pc := Top)
    else r.(layer := r.layer + 1, pc := Top)
  }

  /** What the router does on the outcome of a push, firm or speculative. */
  function RouterAfterRing(r: Router, a: Queue.Action<Message>): Router {
    match a
    case RejectFull => if r.pc.Pushing? then r.(pc := Rejected(r.pc.msg)) else r.(pc := Advancing)
    case PublishHead => if r.pc.Pushing? then r.(pc := Sent(r.pc.msg)) else r.(pc := Advancing)
    case _ => r
  }

  function RouterNext(cfg: Config, c: Compute, r: Router, a: Action): Router
    requires Usable(cfg)
  {
    match a
    case StopRouter => r.(running := false)
    case EnterIteration => r.(pc := Entered)
    case Leave => r.(pc := Stopped)
    case LoadToken => r.(pc := HaveToken(c.storedToken))
    case LoadLayer => if r.pc.HaveToken? then r.(pc := HaveBoth(r.pc.tok, c.storedLayer, TornPair(c, r.pc.tok))) else r
    case Check(depth) => if r.pc.HaveBoth? then CheckNext(cfg, r, r.pc.tok, r.pc.lay, r.pc.torn, depth) else r
    case Route(draws) =>
      var candidates := CandidatesFor(cfg, r.layer, Flat(r.token, r.layer, cfg.numLayers), draws);
      r.(pc := Pushing(Message(r.token, r.layer, candidates, false, 0)), drawn := r.drawn + [draws])
    case Ring(step) => RouterAfterRing(r, step)
    case Retry =>
      if !r.pc.Rejected? then r
      else if r.running then r.(pc := Pushing(r.pc.msg)) else r.(pc := Sent(r.pc.msg), skipped := true)
    case Speculate(window) =>
      if r.pc.Sent? && window > 0 && r.running then
        r.(pc := Speculating(SpeculativeOf(r.pc.msg, cfg.numLayers, window)))
      else r.(pc := Advancing)
    case AdvanceCursor => CursorNext(cfg, r)
    case _ => r
  }

  /** The flow-control test. */
  function CheckNext(cfg: Config, r: Router, tok: uint32, lay: uint32, torn: bool, depth: nat): Router {
    if Flat(r.token, r.layer, cfg.numLayers) >= Flat(tok, lay, cfg.numLayers) + depth then r.(pc := Top)
    else
      r.(pc := Admitted, depth := depth, torn := torn,
         maxDepth := if depth > r.maxDepth then depth else r.maxDepth, everTorn := r.everTorn || torn)
  }

  function PrefetchNext(p: Prefetcher, ring: Queue.State<Message>, a: Action): Prefetcher {
    match a
    case StopPrefetch => p.(running := false)
    case Ring(step) =>
      if step.PublishTail? && ring.consumer.CRead? then p.(pending := ring.consumer.item.candidates) else p
    case PrefetchOne => if p.pending == [] then p else p.(calls := p.calls + [p.pending[0]], pending := p.pending[1..])
    case _ => p
  }

  function Next(cfg: Config, s: State, a: Action): State
    requires Usable(cfg) && Enabled(cfg, s, a)
  {
    State(ComputeNext(cfg, s.compute, a), RouterNext(cfg, s.compute, s.router, a),
          if a.Ring? then Queue.Next(s.ring, a.step) else s.ring, PrefetchNext(s.prefetch, s.ring, a))
  }

  predicate Legal(cfg: Config, s: State, actions: seq<Action>)
    requires Usable(cfg)
    decreases |actions|
  {
    actions == [] || (Enabled(cfg, s, actions[0]) && Legal(cfg, Next(cfg, s, actions[0]), actions[1..]))
  }

  function Run(cfg: Config, s: State, actions: seq<Action>): State
    requires Usable(cfg) && Legal(cfg, s, actions)
    decreases |actions|
  {
    if actions == [] then s else Run(cfg, Next(cfg, s, actions[0]), actions[1..])
  }

  // ----- the compute loop and its progress words -----

  /** By how much a new token with a left-over layer overstates the position. */
  function Slack(cfg: Config, torn: bool): nat
    requires Usable(cfg)
  {
    if torn then cfg.numLayers - 1 else 0
  }

  /** Where the words point, phase by phase. */
  ghost predicate ComputeInv(cfg: Config, c: Compute)
    requires Usable(cfg)
  {
    var L := cfg.numLayers;
    && c.storedLayer < L && c.layer < L && c.storedToken <= c.token
    && match c.phase
       case Entering =>
         && c.token < cfg.totalTokens && c.progress == Flat(c.storedToken, c.storedLayer, L)
         && ((c.layer > 0 && c.storedToken == c.token && c.storedLayer == c.layer - 1)
             || (c.layer == 0 && c.token > 0 && c.storedToken == c.token - 1 && c.storedLayer == L - 1)
             || (c.layer == c.token == c.storedToken == c.storedLayer == 0))
       case TokenStored =>
         && c.token < cfg.totalTokens && c.progress == Flat(c.token, c.layer, L) && c.storedToken == c.token
         && (c.layer > 0 ==> c.storedLayer == c.layer - 1)
         && (StaleLayer(c) ==> c.storedLayer == L - 1)
         && (c.layer == c.token == 0 ==> c.storedLayer == 0)
       case Working =>
         && c.token < cfg.totalTokens && c.progress == Flat(c.token, c.layer, L)
         && c.storedToken == c.token && c.storedLayer == c.layer
       case Over =>
         && c.progress == Flat(c.storedToken, c.storedLayer, L)
         && (cfg.totalTokens > 0 ==> c.storedToken == cfg.totalTokens - 1 && c.storedLayer == L - 1)
  }

  lemma ComputeStep(cfg: Config, c: Compute, a: Action)
    requires Usable(cfg) && ComputeInv(cfg, c)
    requires a.StoreToken? ==> c.phase.Entering?
    requires a.StoreLayer? ==> c.phase.TokenStored?
    requires a.FinishLayer? ==> c.phase.Working?
    ensures var c' := ComputeNext(cfg, c, a);
            ComputeInv(cfg, c') && c'.progress >= c.progress && c'.storedToken >= c.storedToken
  {
    hide Flat;
    var L := cfg.numLayers;
    FlatNext(c.storedToken, c.storedLayer, L);
    FlatOrder(c.storedToken, c.storedLayer, c.token, c.layer, L);
  }

  /** The two words, read at once, overstate the position exactly while the layer word is left over, by all but
      one of the layers; otherwise they never do. */
  lemma WordsAgainstProgress(cfg: Config, c: Compute)
    requires Usable(cfg) && ComputeInv(cfg, c)
    ensures StaleLayer(c) ==> Flat(c.storedToken, c.storedLayer, cfg.numLayers) == c.progress + cfg.numLayers - 1
    ensures !StaleLayer(c) ==> Flat(c.storedToken, c.storedLayer, cfg.numLayers) <= c.progress
  {
    FlatSameToken(c.storedToken, c.storedLayer, c.layer, cfg.numLayers);
  }

  /** A pair whose token was loaded earlier than its layer overstates the position exactly if it is the new token
      with the left-over layer. */
  lemma PairRead(cfg: Config, c: Compute, tok: uint32)
    requires Usable(cfg) && ComputeInv(cfg, c) && tok <= c.storedToken
    ensures Flat(tok, c.storedLayer, cfg.numLayers) <= c.progress + Slack(cfg, TornPair(c, tok))
    ensures cfg.numLayers >= 2 ==> (Flat(tok, c.storedLayer, cfg.numLayers) > c.progress <==> TornPair(c, tok))
  {
    hide Flat;
    WordsAgainstProgress(cfg, c);
    if tok < c.storedToken {
      FlatOrder(tok, c.storedLayer, c.storedToken, 0, cfg.numLayers);
      FlatOrder(c.storedToken, 0, c.storedToken, c.storedLayer, cfg.numLayers);
      FlatSameToken(c.storedToken, 0, c.layer, cfg.numLayers);
      assert c.progress >= Flat(c.storedToken, 0, cfg.numLayers);
    }
  }

  // ----- the router -----

  predicate Holding(pc: Pc) {
    pc.Admitted? || pc.Pushing? || pc.Rejected?
  }

  ghost predicate CursorInv(cfg: Config, r: Router)
    requires Usable(cfg)
  {
    && r.layer < cfg.numLayers && r.token <= cfg.totalTokens
    && (r.token == cfg.totalTokens ==> r.layer == 0 && (r.pc.Top? || r.pc.Stopped?))
  }

  /** What the router knows about the compute loop's progress. */
  ghost predicate ReadInv(cfg: Config, r: Router, storedToken: uint32, progress: nat)
    requires Usable(cfg)
  {
    && r.depth <= r.maxDepth && (r.torn ==> r.everTorn)
    && (r.pc.HaveToken? ==> r.pc.tok <= storedToken)
    && (r.pc.HaveBoth? ==> Flat(r.pc.tok, r.pc.lay, cfg.numLayers) <= progress + Slack(cfg, r.pc.torn))
    && (Holding(r.pc) ==>
          Flat(r.token, r.layer, cfg.numLayers) < progress + r.depth + Slack(cfg, r.torn))
  }

  /** How many firm messages there are at each point of the loop; one is given up only to stop for good. */
  ghost predicate CountInv(cfg: Config, r: Router, firm: nat, progress: nat)
    requires Usable(cfg)
  {
    var flat := Flat(r.token, r.layer, cfg.numLayers);
    && (if r.skipped then firm <= flat && !r.running && (r.pc.Sent? || r.pc.Advancing? || r.pc.Top? || r.pc.Stopped?)
        else if r.pc.Sent? || r.pc.Speculating? || r.pc.Advancing? then firm == flat + 1
        else firm == flat)
    && (r.pc.Stopped? && r.running ==> r.token == cfg.totalTokens)
    && (firm > 0 ==> firm <= progress + r.maxDepth + Slack(cfg, r.everTorn))
  }

  /** The message in hand. */
  ghost predicate MessageInv(cfg: Config, r: Router, pushed: seq<Message>)
    requires Usable(cfg)
  {
    && (r.pc.Pushing? || r.pc.Rejected? || r.pc.Sent? ==>
          IsPrediction(cfg, r.pc.msg, Flat(r.token, r.layer, cfg.numLayers)))
    && (r.pc.Sent? && !r.skipped ==> pushed != [] && pushed[|pushed| - 1] == r.pc.msg)
    && (r.pc.Speculating? ==> pushed != [] && IsCopy(cfg, r.pc.msg, pushed[|pushed| - 1]))
  }

  /** The producer side of the ring runs only inside the router's pushes, with its message. */
  ghost predicate ProducerInv(pc: Pc, p: Queue.Producer<Message>) {
    !p.PIdle? ==> (pc.Pushing? || pc.Speculating?) && p.item == pc.msg
  }

  ghost predicate PrefetchInv(p: Prefetcher, c: Queue.Consumer<Message>, popped: seq<Message>) {
    && p.calls + p.pending == Named(popped)
    && (!c.CIdle? ==> p.pending == [])
  }

  ghost predicate Inv(cfg: Config, s: State)
    requires Usable(cfg)
  {
    && ComputeInv(cfg, s.compute)
    && CursorInv(cfg, s.router)
    && ReadInv(cfg, s.router, s.compute.storedToken, s.compute.progress)
    && CountInv(cfg, s.router, |Firm(s.ring.ring.pushed)|, s.compute.progress)
    && MessageInv(cfg, s.router, s.ring.ring.pushed)
    && Stream(cfg, s.ring.ring.pushed)
    && Queue.Inv(s.ring)
    && ProducerInv(s.router.pc, s.ring.producer)
    && PrefetchInv(s.prefetch, s.ring.consumer, s.ring.ring.popped)
  }

  // ----- every step keeps the invariant -----

  /** Progress only helps: what the router knew stays true. */
  lemma MoreProgress(cfg: Config, r: Router, firm: nat, token: uint32, progress: nat, token': uint32, progress': nat)
    requires Usable(cfg) && token <= token' && progress <= progress'
    requires ReadInv(cfg, r, token, progress) && CountInv(cfg, r, firm, progress)
    ensures ReadInv(cfg, r, token', progress') && CountInv(cfg, r, firm, progress')
  {
    hide Flat, Slack;
  }

  ghost predicate IsComputeStep(a: Action) {
    a.StoreToken? || a.StoreLayer? || a.FinishLayer?
  }

  lemma ComputeStepKeeps(cfg: Config, s: State, a: Action)
    requires Usable(cfg) && Inv(cfg, s) && Enabled(cfg, s, a) && IsComputeStep(a)
    ensures Inv(cfg, Next(cfg, s, a))
  {
    hide ComputeInv, CursorInv, ReadInv, CountInv, MessageInv, Stream, Queue.Inv, ProducerInv, PrefetchInv;
    hide ComputeNext;
    ComputeStep(cfg, s.compute, a);
    var c' := ComputeNext(cfg, s.compute, a);
    MoreProgress(cfg, s.router, |Firm(s.ring.ring.pushed)|, s.compute.storedToken, s.compute.progress,
                 c'.storedToken, c'.progress);
  }

  ghost predicate IsRouterStep(a: Action) {
    || a.StopRouter? || a.EnterIteration? || a.Leave? || a.LoadToken? || a.LoadLayer? || a.Check? || a.Route?
    || a.Retry? || a.Speculate? || a.AdvanceCursor?
  }

  /** The invariants of the router's own state. */
  ghost predicate RouterInv(cfg: Config, c: Compute, r: Router, pushed: seq<Message>)
    requires Usable(cfg)
  {
    && CursorInv(cfg, r) && ReadInv(cfg, r, c.storedToken, c.progress)
    && CountInv(cfg, r, |Firm(pushed)|, c.progress) && MessageInv(cfg, r, pushed)
  }

  lemma LoadsKeep(cfg: Config, c: Compute, r: Router, a: Action, pushed: seq<Message>)
    requires Usable(cfg) && ComputeInv(cfg, c) && RouterInv(cfg, c, r, pushed)
    requires (a.LoadToken? && r.pc.Entered?) || (a.LoadLayer? && r.pc.HaveToken?)
    ensures RouterInv(cfg, c, RouterNext(cfg, c, r, a), pushed)
  {
    hide Flat, ComputeInv, TornPair, Slack;
    if a.LoadLayer? { PairRead(cfg, c, r.pc.tok); }
  }

  lemma CheckKeeps(cfg: Config, c: Compute, r: Router, a: Action, pushed: seq<Message>)
    requires Usable(cfg) && RouterInv(cfg, c, r, pushed) && a.Check? && r.pc.HaveBoth?
    ensures RouterInv(cfg, c, RouterNext(cfg, c, r, a), pushed)
  {
    hide Flat;
  }

  lemma RouteKeeps(cfg: Config, c: Compute, r: Router, a: Action, pushed: seq<Message>)
    requires Usable(cfg) && RouterInv(cfg, c, r, pushed) && a.Route? && r.pc.Admitted?
    requires |a.draws| == cfg.numCandidates
    ensures RouterInv(cfg, c, RouterNext(cfg, c, r, a), pushed)
  {
    hide Flat, Slack, GoodCandidates, IsCopy, CandidatesFor;
    CandidatesAreGood(cfg, r.layer, Flat(r.token, r.layer, cfg.numLayers), a.draws);
  }

  lemma LoopEdgesKeep(cfg: Config, c: Compute, r: Router, a: Action, pushed: seq<Message>)
    requires Usable(cfg) && RouterInv(cfg, c, r, pushed)
    requires
      || a.StopRouter?
      || (a.EnterIteration? && r.pc.Top? && r.running && r.token < cfg.totalTokens)
      || (a.Leave? && r.pc.Top? && (!r.running || r.token >= cfg.totalTokens))
      || (a.Retry? && r.pc.Rejected?)
    ensures RouterInv(cfg, c, RouterNext(cfg, c, r, a), pushed)
  {
    hide Flat, Slack, IsPrediction, IsCopy;
  }

  lemma SpeculateKeeps(cfg: Config, c: Compute, r: Router, a: Action, pushed: seq<Message>)
    requires Usable(cfg) && RouterInv(cfg, c, r, pushed) && a.Speculate? && r.pc.Sent?
    ensures RouterInv(cfg, c, RouterNext(cfg, c, r, a), pushed)
  {
    hide Flat, Slack, GoodCandidates;
    if a.window > 0 && r.running { assert SpeculativeOf(r.pc.msg, cfg.numLayers, a.window).distance == a.window; }
  }

  lemma AdvanceKeeps(cfg: Config, c: Compute, r: Router, a: Action, pushed: seq<Message>)
    requires Usable(cfg) && RouterInv(cfg, c, r, pushed) && a.AdvanceCursor? && r.pc.Advancing?
    ensures RouterInv(cfg, c, RouterNext(cfg, c, r, a), pushed)
  {
    hide Flat, Slack;
    FlatNext(r.token, r.layer, cfg.numLayers);
    Wrap32Exact(r.token + 1);
  }

  lemma RouterStepKeeps(cfg: Config, s: State, a: Action)
    requires Usable(cfg) && Inv(cfg, s) && Enabled(cfg, s, a) && IsRouterStep(a)
    ensures Inv(cfg, Next(cfg, s, a))
  {
    hide ComputeInv, CursorInv, ReadInv, CountInv, MessageInv, Stream, Queue.Inv, PrefetchInv, GoodCandidates;
    var c, r, pushed := s.compute, s.router, s.ring.ring.pushed;
    match a
    case LoadToken => LoadsKeep(cfg, c, r, a, pushed);
    case LoadLayer => LoadsKeep(cfg, c, r, a, pushed);
    case Check(_) => CheckKeeps(cfg, c, r, a, pushed);
    case Route(_) => RouteKeeps(cfg, c, r, a, pushed);
    case Speculate(_) => SpeculateKeeps(cfg, c, r, a, pushed);
    case AdvanceCursor => AdvanceKeeps(cfg, c, r, a, pushed);
    case _ => LoopEdgesKeep(cfg, c, r, a, pushed);
  }

  // ----- ring steps -----

  /** Publishing the firm message in hand. */
  lemma PublishFirm(cfg: Config, c: Compute, r: Router, pushed: seq<Message>)
    requires Usable(cfg) && RouterInv(cfg, c, r, pushed) && Stream(cfg, pushed) && r.pc.Pushing?
    ensures var pushed' := pushed + [r.pc.msg];
            Stream(cfg, pushed') && RouterInv(cfg, c, r.(pc := Sent(r.pc.msg)), pushed')
  {
    hide Flat, GoodCandidates, Stream, IsCopy;
    StreamFirm(cfg, pushed, r.pc.msg);
  }

  lemma PublishCopy(cfg: Config, c: Compute, r: Router, pushed: seq<Message>)
    requires Usable(cfg) && RouterInv(cfg, c, r, pushed) && Stream(cfg, pushed) && r.pc.Speculating?
    ensures var pushed' := pushed + [r.pc.msg];
            Stream(cfg, pushed') && RouterInv(cfg, c, r.(pc := Advancing), pushed')
  {
    hide Flat, IsPrediction, Stream, Slack;
    assert IsCopy(cfg, r.pc.msg, pushed[|pushed| - 1]);
    hide IsCopy;
    StreamCopy(cfg, pushed, r.pc.msg);
  }

  lemma RefusedPush(cfg: Config, c: Compute, r: Router, pushed: seq<Message>)
    requires Usable(cfg) && RouterInv(cfg, c, r, pushed) && (r.pc.Pushing? || r.pc.Speculating?)
    ensures RouterInv(cfg, c, RouterAfterRing(r, Queue.RejectFull), pushed)
  {
    hide Flat, IsPrediction, IsCopy, Slack;
  }

  lemma ProducerStepKeeps(cfg: Config, s: State, a: Queue.Action<Message>)
    requires Usable(cfg) && Inv(cfg, s) && RingEnabled(s, a)
    requires a.LoadOwnHead? || a.LoadTail? || a.RejectFull? || a.WriteSlot? || a.PublishHead?
    ensures Inv(cfg, Next(cfg, s, Ring(a)))
  {
    hide ComputeInv, CursorInv, ReadInv, CountInv, MessageInv, Stream, Queue.Inv, PrefetchInv, Queue.Slot;
    Queue.StepKeepsInv(s.ring, a);
    var c, r, pushed := s.compute, s.router, s.ring.ring.pushed;
    if a.PublishHead? {
      if r.pc.Pushing? { PublishFirm(cfg, c, r, pushed); } else { PublishCopy(cfg, c, r, pushed); }
    } else if a.RejectFull? {
      RefusedPush(cfg, c, r, pushed);
    }
  }

  lemma ConsumerStepKeeps(cfg: Config, s: State, a: Queue.Action<Message>)
    requires Usable(cfg) && Inv(cfg, s) && RingEnabled(s, a)
    requires a.LoadOwnTail? || a.LoadHead? || a.RejectEmpty? || a.ReadSlot? || a.PublishTail?
    ensures Inv(cfg, Next(cfg, s, Ring(a)))
  {
    hide ComputeInv, CursorInv, ReadInv, CountInv, MessageInv, Stream, Queue.Inv, Queue.Slot, ProducerInv, Named;
    Queue.StepKeepsInv(s.ring, a);
    if a.PublishTail? { NamedAppend(s.ring.ring.popped, s.ring.consumer.item); }
  }

  lemma PrefetchStepKeeps(cfg: Config, s: State, a: Action)
    requires Usable(cfg) && Inv(cfg, s) && Enabled(cfg, s, a) && (a.StopPrefetch? || a.PrefetchOne?)
    ensures Inv(cfg, Next(cfg, s, a))
  {
    hide ComputeInv, CursorInv, ReadInv, CountInv, MessageInv, Stream, Queue.Inv, ProducerInv, Named;
    var p := s.prefetch;
    if a.PrefetchOne? { assert p.calls + [p.pending[0]] + p.pending[1..] == p.calls + p.pending; }
  }

  lemma StepKeepsInv(cfg: Config, s: State, a: Action)
    requires Usable(cfg) && Inv(cfg, s) && Enabled(cfg, s, a)
    ensures Inv(cfg, Next(cfg, s, a))
  {
    hide Inv, Next;
    match a
    case StoreToken => ComputeStepKeeps(cfg, s, a);
    case StoreLayer => ComputeStepKeeps(cfg, s, a);
    case FinishLayer => ComputeStepKeeps(cfg, s, a);
    case StopPrefetch => PrefetchStepKeeps(cfg, s, a);
    case PrefetchOne => PrefetchStepKeeps(cfg, s, a);
    case Ring(step) =>
      if step.LoadOwnHead? || step.LoadTail? || step.RejectFull? || step.WriteSlot? || step.PublishHead? {
        ProducerStepKeeps(cfg, s, step);
      } else {
        ConsumerStepKeeps(cfg, s, step);
      }
    case _ => RouterStepKeeps(cfg, s, a);
  }

  lemma InitInv(cfg: Config, s: State)
    requires Usable(cfg) && Init(cfg, s)
    ensures Inv(cfg, s)
  {
    assert s.ring.ring.pushed == [];
  }

  lemma {:induction false} RunKeepsInv(cfg: Config, s: State, actions: seq<Action>)
    requires Usable(cfg) && Inv(cfg, s) && Legal(cfg, s, actions)
    ensures Inv(cfg, Run(cfg, s, actions))
    decreases |actions|
  {
    hide Inv, Enabled, Next;
    if actions != [] {
      StepKeepsInv(cfg, s, actions[0]);
      RunKeepsInv(cfg, Next(cfg, s, actions[0]), actions[1..]);
    }
  }

  lemma ReachableInv(cfg: Config, s: State, actions: seq<Action>)
    requires Usable(cfg) && Init(cfg, s) && Legal(cfg, s, actions)
    ensures Inv(cfg, Run(cfg, s, actions))
  {
    hide Inv;
    InitInv(cfg, s);
    RunKeepsInv(cfg, s, actions);
  }
}
