/** The messages between the router and the prefetch thread, and what a stream of them should be. */
module Routing {
  import opened Bits
  import opened Prediction

  datatype Config = Config(totalTokens: uint32, numLayers: uint32, numExperts: uint32, scenario: Scenario,
                           numCandidates: uint32)

  predicate Usable(cfg: Config) {
    cfg.numLayers > 0 && cfg.numExperts > 0 && cfg.numCandidates <= 8
  }

  /** A `PredictedExpertMessage`, without scores and time stamps. */
  datatype Message = Message(token: uint32, layer: uint32, candidates: seq<uint32>, speculative: bool, distance: uint32)

  /** `m` is the firm prediction for position `flat` of the row-major (token, layer) order. */
  predicate IsPrediction(cfg: Config, m: Message, flat: nat)
    requires Usable(cfg)
  {
    && m.token < cfg.totalTokens && m.layer < cfg.numLayers && Flat(m.token, m.layer, cfg.numLayers) == flat
    && !m.speculative && m.distance == 0
    && GoodCandidates(cfg, m.candidates, m.layer, flat)
  }

  predicate GoodCandidates(cfg: Config, candidates: seq<uint32>, layer: uint32, flat: nat)
    requires Usable(cfg)
  {
    && |candidates| == cfg.numCandidates
    && (Deterministic(cfg.scenario) ==>
          forall k :: 0 <= k < |candidates| ==>
            candidates[k] == CandidateOf(layer, flat, cfg.numCandidates, cfg.numExperts, cfg.scenario, k))
  }

  /** The candidates for a position, given what the random scenarios draw. */
  function CandidatesFor(cfg: Config, layer: uint32, flat: nat, draws: seq<uint32>): seq<uint32>
    requires Usable(cfg)
  {
    if Deterministic(cfg.scenario) then
      seq(cfg.numCandidates, k requires 0 <= k < cfg.numCandidates =>
        CandidateOf(layer, flat, cfg.numCandidates, cfg.numExperts, cfg.scenario, k))
    else Dedup(draws, 0, 1, cfg.numExperts)
  }

  lemma CandidatesAreGood(cfg: Config, layer: uint32, flat: nat, draws: seq<uint32>)
    requires Usable(cfg) && |draws| == cfg.numCandidates
    ensures GoodCandidates(cfg, CandidatesFor(cfg, layer, flat, draws), layer, flat)
    ensures !Deterministic(cfg.scenario) ==> FromDraws(draws, CandidatesFor(cfg, layer, flat, draws), cfg.numExperts)
  {
    hide CandidateOf, Dedup, FromDraws;
    DedupFromDraws(draws, cfg.numExperts);
  }

  /** The speculative copy of a message: the same experts, filed `window` layers on, in 32-bit arithmetic. */
  function SpeculativeOf(m: Message, numLayers: uint32, window: uint32): Message
    requires numLayers > 0
  {
    var ahead := Wrap32(m.layer + window);
    Message(Wrap32(m.token + Quotient(ahead, numLayers)), Rem(ahead, numLayers), m.candidates, true, window)
  }

  function Quotient(a: nat, e: nat): nat
    requires e > 0
  {
    a / e
  }

  /** The messages that are not speculative. */
  function Firm(ms: seq<Message>): seq<Message> {
    if ms == [] then []
    else
      var before, last := Firm(ms[..|ms| - 1]), ms[|ms| - 1];
      if last.speculative then before else before + [last]
  }

  /** The firm messages enumerate the positions from 0 on without gap or repetition, and every speculative
      message directly follows the firm one it was copied from. */
  ghost predicate Stream(cfg: Config, ms: seq<Message>)
    requires Usable(cfg)
  {
    && (forall i :: 0 <= i < |Firm(ms)| ==> IsPrediction(cfg, Firm(ms)[i], i))
    && forall j :: 0 <= j < |ms| && ms[j].speculative ==> j > 0 && IsCopy(cfg, ms[j], ms[j - 1])
  }

  predicate IsCopy(cfg: Config, copy: Message, m: Message)
    requires Usable(cfg)
  {
    && !m.speculative && m.layer < cfg.numLayers
    && copy.distance > 0 && copy == SpeculativeOf(m, cfg.numLayers, copy.distance)
  }

  lemma FirmAppend(ms: seq<Message>, m: Message)
    ensures Firm(ms + [m]) == if m.speculative then Firm(ms) else Firm(ms) + [m]
  {
    assert (ms + [m])[..|ms|] == ms;
  }

  lemma {:induction false} FirmPrefix(ms: seq<Message>, k: nat)
    requires k <= |ms|
    ensures Firm(ms[..k]) <= Firm(ms)
    decreases |ms| - k
  {
    if k == |ms| {
      assert ms[..k] == ms;
    } else {
      assert ms[..k + 1] == ms[..k] + [ms[k]];
      FirmAppend(ms[..k], ms[k]);
      FirmPrefix(ms, k + 1);
    }
  }

  lemma StreamPrefix(cfg: Config, ms: seq<Message>, k: nat)
    requires Usable(cfg) && Stream(cfg, ms) && k <= |ms|
    ensures Stream(cfg, ms[..k])
  {
    hide IsPrediction, IsCopy;
    FirmPrefix(ms, k);
  }

  lemma StreamFirm(cfg: Config, ms: seq<Message>, m: Message)
    requires Usable(cfg) && Stream(cfg, ms) && IsPrediction(cfg, m, |Firm(ms)|)
    ensures Stream(cfg, ms + [m]) && Firm(ms + [m]) == Firm(ms) + [m]
  {
    hide IsCopy, GoodCandidates, Flat;
    FirmAppend(ms, m);
  }

  lemma StreamCopy(cfg: Config, ms: seq<Message>, copy: Message)
    requires Usable(cfg) && Stream(cfg, ms) && ms != [] && IsCopy(cfg, copy, ms[|ms| - 1])
    ensures Stream(cfg, ms + [copy]) && Firm(ms + [copy]) == Firm(ms)
  {
    hide IsPrediction;
    FirmAppend(ms, copy);
  }

  // ----- positions -----

  lemma FlatDifference(t: nat, l: nat, t': nat, l': nat, numLayers: nat)
    ensures Flat(t', l', numLayers) - Flat(t, l, numLayers) == (t' - t) * numLayers + (l' - l)
  {
  }

  lemma ScaledStep(d: int, numLayers: nat)
    ensures d >= 0 ==> d * numLayers >= 0
    ensures d > 0 ==> d * numLayers >= numLayers
  {
    if d > 0 { assert d * numLayers == (d - 1) * numLayers + numLayers; }
  }

  lemma FlatOrder(t: nat, l: nat, t': nat, l': nat, numLayers: nat)
    ensures t <= t' && l <= l' ==> Flat(t, l, numLayers) <= Flat(t', l', numLayers)
    ensures t < t' && l < numLayers ==> Flat(t, l, numLayers) < Flat(t', l', numLayers)
  {
    hide Flat;
    FlatDifference(t, l, t', l', numLayers);
    ScaledStep(t' - t, numLayers);
  }

  /** Row-major positions name their token and layer uniquely. */
  lemma FlatInjective(t: nat, l: nat, t': nat, l': nat, numLayers: nat)
    requires l < numLayers && l' < numLayers && Flat(t, l, numLayers) == Flat(t', l', numLayers)
    ensures t == t' && l == l'
  {
    hide Flat;
    FlatOrder(t, l, t', l', numLayers);
    FlatOrder(t', l', t, l, numLayers);
    assert t == t';
    FlatSameToken(t, l, l', numLayers);
  }

  lemma FlatSameToken(t: nat, l: nat, l': nat, numLayers: nat)
    ensures Flat(t, l, numLayers) - Flat(t, l', numLayers) == l - l'
  {
  }

  lemma FlatNext(t: nat, l: nat, numLayers: nat)
    ensures Flat(t, l + 1, numLayers) == Flat(t, l, numLayers) + 1
    ensures l + 1 == numLayers ==> Flat(t + 1, 0, numLayers) == Flat(t, l, numLayers) + 1
  {
    assert (t + 1) * numLayers == t * numLayers + numLayers;
  }

  lemma QuotientRemainder(a: nat, e: nat)
    requires e > 0
    ensures Quotient(a, e) * e + Rem(a, e) == a
  {
  }

  lemma Wrap32Exact(x: nat)
    ensures Wrap32(x) <= x && (Wrap32(x) == x <==> x < 0x1_0000_0000)
  {
  }

  lemma FlatParts(t: nat, l: nat, q: nat, r: nat, w: nat, numLayers: nat)
    requires q * numLayers + r == w
    ensures Flat(t + q, r, numLayers) == t * numLayers + w
    ensures Flat(t, l, numLayers) == t * numLayers + l
  {
    assert (t + q) * numLayers == t * numLayers + q * numLayers;
  }

  lemma FlatLess(t: nat, t': nat, l: nat, numLayers: nat)
    requires t < t' && numLayers > 0
    ensures Flat(t, l, numLayers) < Flat(t', l, numLayers)
  {
    hide Flat;
    FlatDifference(t, l, t', l, numLayers);
    ScaledStep(t' - t, numLayers);
  }

  /** A speculative message names exactly the position `window` after its source, unless one of the two
      32-bit sums wraps; then it always names an earlier one. */
  lemma SpeculativePosition(m: Message, numLayers: uint32, window: uint32)
    requires numLayers > 0
    ensures var s := SpeculativeOf(m, numLayers, window);
            var wanted := Flat(m.token, m.layer, numLayers) + window;
            && s.layer < numLayers
            && Flat(s.token, s.layer, numLayers) <= wanted
            && (Flat(s.token, s.layer, numLayers) == wanted <==>
                m.layer + window < TWO_32 && m.token + Quotient(m.layer + window, numLayers) < TWO_32)
  {
    hide Wrap32, Flat, Rem, Quotient;
    var ahead := Wrap32(m.layer + window);
    Wrap32Exact(m.layer + window);
    RemBounds(ahead, numLayers);
    var q, r := Quotient(ahead, numLayers), Rem(ahead, numLayers);
    QuotientRemainder(ahead, numLayers);
    FlatParts(m.token, m.layer, q, r, ahead, numLayers);
    Wrap32Exact(m.token + q);
    if m.token + q >= TWO_32 { FlatLess(Wrap32(m.token + q), m.token + q, r, numLayers); }
  }

  // ----- predictions cover demand -----

  /** How many candidates suffice to cover the compute loop's two targets everywhere. */
  predicate Covering(cfg: Config) {
    && Deterministic(cfg.scenario) && cfg.numExperts >= 2
    && (cfg.numCandidates == 2 || (cfg.scenario.HIGH_REUSE? && (cfg.numCandidates == 4 || cfg.numCandidates == 8)))
  }

  /** A firm message lists both experts the compute loop will ask for at its position. */
  lemma MessageCovers(cfg: Config, m: Message, flat: nat, k: uint32)
    requires Usable(cfg) && Covering(cfg) && IsPrediction(cfg, m, flat) && k < 2
    ensures Target(m.token, m.layer, cfg.numLayers, cfg.numExperts, cfg.scenario, k) in m.candidates
  {
    hide HighReuse, Churn, Flat, Target;
    PredictionEqualsDemand(m.token, m.layer, cfg.numLayers, cfg.numExperts, cfg.scenario, k);
    if cfg.numCandidates == 2 {
      assert m.candidates[k] in m.candidates;
    } else {
      var j := HighReuseCovers(m.layer, cfg.numCandidates, k);
      assert m.candidates[j] in m.candidates;
    }
  }

  /** All experts named by a sequence of messages, in order. */
  function Named(ms: seq<Message>): seq<uint32> {
    if ms == [] then [] else Named(ms[..|ms| - 1]) + ms[|ms| - 1].candidates
  }

  lemma NamedAppend(ms: seq<Message>, m: Message)
    ensures Named(ms + [m]) == Named(ms) + m.candidates
  {
    assert (ms + [m])[..|ms|] == ms;
  }

  lemma {:induction false} FirmAreNamed(ms: seq<Message>, i: nat, e: uint32)
    requires i < |Firm(ms)| && e in Firm(ms)[i].candidates
    ensures e in Named(ms)
  {
    if i < |Firm(ms[..|ms| - 1])| { FirmAreNamed(ms[..|ms| - 1], i, e); }
  }
}
