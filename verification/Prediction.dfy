/** Which experts the router predicts and which the compute loop asks for. */
module Prediction {
  import opened Bits

  datatype Scenario = COLD_CACHE | WARM_CACHE | HIGH_REUSE | WORST_CASE_CHURN

  /** Row-major position of a layer of a token. */
  function Flat(token: nat, layer: nat, numLayers: nat): nat {
    token * numLayers + layer
  }

  function Wrap32(x: nat): uint32 {
    x % 0x1_0000_0000
  }

  /** High reuse works in 32-bit arithmetic, churn in 64-bit (positions are far below 2^63 / n). */
  function HighReuse(layer: uint32, n: uint32, k: uint32): (r: uint32)
    ensures r < 4
  {
    Wrap32(Wrap32(layer * n) + k) % 4
  }

  function Churn(flat: nat, n: nat, k: nat, numExperts: uint32): uint32
    requires numExperts > 0
  {
    Rem(flat * n + k, numExperts)
  }

  function Rem(a: int, e: nat): (r: nat)
    requires e > 0
    ensures r < e
  {
    a % e
  }

  /** The expert after this one, around the ring. */
  function Following(id: uint32, numExperts: uint32): uint32
    requires numExperts > 0
  {
    Rem(Wrap32(id as int + 1), numExperts)
  }

  // ----- the compute loop's two targets -----

  predicate Deterministic(s: Scenario) {
    s.HIGH_REUSE? || s.WORST_CASE_CHURN?
  }

  /** The compute loop's own expressions, in 32-bit arithmetic for high reuse. */
  function Target(token: uint32, layer: uint32, numLayers: uint32, numExperts: uint32, s: Scenario, k: uint32): uint32
    requires numExperts > 0 && Deterministic(s) && k < 2
  {
    var first, flat := Wrap32(layer * 2), Flat(token, layer, numLayers);
    if s.HIGH_REUSE? then (if k == 0 then first % 4 else Wrap32(first as int + 1) % 4)
    else if k == 0 then Rem(flat * 2, numExperts)
    else Rem(flat * 2 + 1, numExperts)
  }

  lemma WrapAgain(x: nat)
    ensures Wrap32(Wrap32(x) + 0) == Wrap32(x)
  {
  }

  /** `get_routed_experts`; `draw0` and `draw1` are what the random scenarios would draw. */
  method GetRoutedExperts(token: uint32, layer: uint32, numLayers: uint32, numExperts: uint32, s: Scenario,
                          draw0: uint32, draw1: uint32, out: array<uint32>)
    requires numExperts > 0 && out.Length == 2
    modifies out
    ensures Deterministic(s) ==> out[0] == Target(token, layer, numLayers, numExperts, s, 0)
    ensures Deterministic(s) ==> out[1] == Target(token, layer, numLayers, numExperts, s, 1)
    ensures !Deterministic(s) ==> out[..] == Dedup([draw0, draw1], 0, 1, numExperts)
    ensures !Deterministic(s) ==> FromDraws([draw0, draw1], out[..], numExperts)
  {
    hide Flat, Dedup;
    var routerFlat := Flat(token, layer, numLayers);
    if s.HIGH_REUSE? {
      var first := Wrap32(layer * 2);
      out[0] := first % 4;
      out[1] := Wrap32(first as int + 1) % 4;
    } else if s.WORST_CASE_CHURN? {
      out[0] := Rem(routerFlat * 2, numExperts);
      out[1] := Rem(routerFlat * 2 + 1, numExperts);
    } else {
      out[0], out[1] := draw0, draw1;
      if out[0] == out[1] {
        out[1] := Following(out[1], numExperts);
      }
      DedupOfTwo([draw0, draw1], numExperts);
      DedupFromDraws([draw0, draw1], numExperts);
    }
  }

  // ----- the router's candidates -----

  function CandidateOf(routerLayer: uint32, routerFlat: nat, n: uint32, numExperts: uint32, s: Scenario, k: uint32): uint32
    requires numExperts > 0 && Deterministic(s)
  {
    if s.HIGH_REUSE? then HighReuse(routerLayer, n, k) else Churn(routerFlat, n, k, numExperts)
  }

  /** The candidate loops of the router; `draws` feeds the random scenarios. */
  method GenerateCandidates(routerLayer: uint32, routerFlat: nat, n: uint32, numExperts: uint32, s: Scenario,
                            draws: seq<uint32>, topK: array<uint32>)
    requires numExperts > 0 && n <= 8 && topK.Length == 8 && |draws| == n
    modifies topK
    ensures Deterministic(s) ==>
              forall k :: 0 <= k < n ==> topK[k] == CandidateOf(routerLayer, routerFlat, n, numExperts, s, k)
    ensures !Deterministic(s) ==> topK[..n] == Dedup(draws, 0, 1, numExperts)
  {
    if s.HIGH_REUSE? {
      for k := 0 to n
        invariant forall j :: 0 <= j < k ==> topK[j] == HighReuse(routerLayer, n, j)
      {
        topK[k] := Wrap32(Wrap32(routerLayer * n) + k) % 4;
      }
    } else if s.WORST_CASE_CHURN? {
      for k := 0 to n
        invariant forall j :: 0 <= j < k ==> topK[j] == Churn(routerFlat, n, j, numExperts)
      {
        topK[k] := Rem(routerFlat * n + k, numExperts);
      }
    } else {
      for k := 0 to n
        invariant topK[..k] == draws[..k]
      {
        topK[k] := draws[k];
      }
      assert topK[..n] == draws;
      FixDuplicates(topK, n, numExperts);
    }
  }

  /** The pairwise repair of equal candidates, as the nested loops make it from (i, j) on. */
  function Dedup(s: seq<uint32>, i: nat, j: nat, numExperts: uint32): (r: seq<uint32>)
    requires numExperts > 0
    ensures |r| == |s|
    decreases |s| - i, |s| - j
  {
    if i >= |s| then s
    else if j >= |s| then Dedup(s, i + 1, i + 2, numExperts)
    else Dedup(if s[i] == s[j] then s[j := Following(s[j], numExperts)] else s, i, j + 1, numExperts)
  }

  method FixDuplicates(a: array<uint32>, n: uint32, numExperts: uint32)
    requires numExperts > 0 && n <= a.Length
    modifies a
    ensures a[..n] == Dedup(old(a[..n]), 0, 1, numExperts)
    ensures a[n..] == old(a[n..])
  {
    ghost var s0 := a[..n];
    var i := 0;
    while i < n
      invariant 0 <= i <= n
      invariant Dedup(a[..n], i, i + 1, numExperts) == Dedup(s0, 0, 1, numExperts)
      invariant a[n..] == old(a[n..])
    {
      var j := i + 1;
      while j < n
        invariant i < j <= n
        invariant Dedup(a[..n], i, j, numExperts) == Dedup(s0, 0, 1, numExperts)
        invariant a[n..] == old(a[n..])
      {
        ghost var s := a[..n];
        if a[i] == a[j] {
          a[j] := Following(a[j], numExperts);
          assert a[..n] == s[j := a[j]];
        }
        j := j + 1;
      }
      i := i + 1;
    }
  }

  // ----- what comes out, in plain arithmetic -----

  lemma ModFour(x: int, p: int)
    ensures (x + 4 * p) % 4 == x % 4
  {
  }

  lemma WrapQuotient(x: nat) returns (q: int)
    ensures Wrap32(x) == x - 4 * (0x4000_0000 * q) && Wrap32(x) < 0x1_0000_0000
  {
    q := x / 0x1_0000_0000;
  }

  /** Two times something never wraps to an odd number, so one more does not wrap again. */
  lemma PlainRemainder(x: nat)
    ensures Wrap32(2 * x) % 4 == (2 * x) % 4
    ensures Wrap32(Wrap32(2 * x) + 1) % 4 == (2 * x + 1) % 4
  {
    hide Wrap32;
    var q := WrapQuotient(2 * x);
    ModFour(2 * x, -0x4000_0000 * q);
    ModFour(2 * x + 1, -0x4000_0000 * q);
    assert Wrap32(2 * x) == 2 * (x - 0x8000_0000 * q);
    Wrap32Small(Wrap32(2 * x) + 1);
  }

  lemma Wrap32Small(x: nat)
    requires x < 0x1_0000_0000
    ensures Wrap32(x) == x
  {
  }

  /** The two targets without any wrap-around: it never shows. */
  lemma TargetPlain(token: uint32, layer: uint32, numLayers: uint32, numExperts: uint32, s: Scenario, k: uint32)
    requires numExperts > 0 && Deterministic(s) && k < 2
    ensures Target(token, layer, numLayers, numExperts, s, k) ==
            if s.HIGH_REUSE? then (2 * layer + k) % 4 else (2 * (token * numLayers + layer) + k) % numExperts
  {
    hide Wrap32;
    PlainRemainder(layer);
  }

  /** Nor in the router's candidates, for the candidate counts in use. */
  lemma CandidatePlain(layer: uint32, flat: nat, n: uint32, numExperts: uint32, s: Scenario, k: uint32)
    requires numExperts > 0 && Deterministic(s) && k < n && (n == 2 || n == 4 || n == 8)
    ensures CandidateOf(layer, flat, n, numExperts, s, k) ==
            if s.HIGH_REUSE? then (layer * n + k) % 4 else (flat * n + k) % numExperts
  {
    hide Wrap32;
    if s.HIGH_REUSE? {
      if n == 2 {
        PlainRemainder(layer);
        assert layer * 2 == 2 * layer;
        WrapAgain(layer * 2);
      } else {
        HighReuseCycles(layer, n, k);
        ProductOfFour(layer, n, k);
      }
    }
  }

  lemma ProductOfFour(layer: nat, n: nat, k: nat)
    requires n == 4 || n == 8
    ensures (layer * n + k) % 4 == k % 4
  {
    var y := if n == 4 then layer else 2 * layer;
    assert layer * n == 4 * y;
    ModFour(k, y);
  }

  ghost predicate Distinct(s: seq<uint32>) {
    forall i, j :: 0 <= i < j < |s| ==> s[i] != s[j]
  }

  /** Candidates made of random draws: distinct draws are kept, two equal ones become the expert and its successor,
      and nothing leaves the range of experts. */
  ghost predicate FromDraws(draws: seq<uint32>, candidates: seq<uint32>, numExperts: uint32)
    requires numExperts > 0
  {
    && |candidates| == |draws|
    && (Distinct(draws) ==> candidates == draws)
    && (|draws| == 2 && draws[0] == draws[1] < numExperts ==>
          candidates == [draws[0], (draws[0] as int + 1) % numExperts])
    && ((forall k :: 0 <= k < |draws| ==> draws[k] < numExperts) ==>
          forall k :: 0 <= k < |candidates| ==> candidates[k] < numExperts)
  }

  lemma {:induction false} DedupKeepsDistinct(s: seq<uint32>, i: nat, j: nat, numExperts: uint32)
    requires numExperts > 0 && Distinct(s) && i < j
    ensures Dedup(s, i, j, numExperts) == s
    decreases |s| - i, |s| - j
  {
    if i < |s| {
      if j >= |s| { DedupKeepsDistinct(s, i + 1, i + 2, numExperts); } else { DedupKeepsDistinct(s, i, j + 1, numExperts); }
    }
  }

  lemma DedupFromDraws(draws: seq<uint32>, numExperts: uint32)
    requires numExperts > 0
    ensures FromDraws(draws, Dedup(draws, 0, 1, numExperts), numExperts)
  {
    hide Dedup;
    if Distinct(draws) { DedupKeepsDistinct(draws, 0, 1, numExperts); }
    if |draws| == 2 { DedupOfTwo(draws, numExperts); }
    if forall k :: 0 <= k < |draws| ==> draws[k] < numExperts { DedupInRange(draws, 0, 1, numExperts); }
  }

  // ----- prediction covers demand -----

  /** With two candidates, the router predicts exactly what the compute loop will ask for. */
  lemma PredictionEqualsDemand(token: uint32, layer: uint32, numLayers: uint32, numExperts: uint32, s: Scenario, k: uint32)
    requires numExperts >= 2 && Deterministic(s) && k < 2
    ensures CandidateOf(layer, Flat(token, layer, numLayers), 2, numExperts, s, k)
         == Target(token, layer, numLayers, numExperts, s, k)
  {
    hide Wrap32, Flat, Rem;
    WrapAgain(layer * 2);
  }

  /** The layer product may wrap at 2^32: for four or eight candidates it is a multiple of four anyway. */
  lemma WrappedMultiple(layer: uint32, n: uint32)
    requires n == 4 || n == 8
    ensures Wrap32(layer * n) % 4 == 0
  {
    var y := if n == 4 then layer else 2 * layer;
    assert layer * n == 4 * y;
    MultipleStaysMultiple(4 * y, y);
  }

  lemma MultipleStaysMultiple(x: nat, y: nat)
    requires x == 4 * y
    ensures Wrap32(x) % 4 == 0
  {
    var q := x / 0x1_0000_0000;
    assert x % 0x1_0000_0000 == 4 * (y - 0x4000_0000 * q);
  }

  lemma StepOfMultiple(m: uint32, k: uint32)
    requires m % 4 == 0 && k < 8
    ensures Wrap32(m + k) % 4 == k % 4
  {
    assert m == 4 * (m / 4);
  }

  lemma HighReuseCycles(layer: uint32, n: uint32, k: uint32)
    requires (n == 4 || n == 8) && k < n
    ensures HighReuse(layer, n, k) == k % 4
  {
    hide Wrap32;
    WrappedMultiple(layer, n);
    StepOfMultiple(Wrap32(layer * n), k);
  }

  /** In the high-reuse scenario four or eight candidates cover both targets on every layer, wrapped
      product or not. */
  lemma HighReuseCovers(layer: uint32, n: uint32, k: uint32) returns (j: uint32)
    requires (n == 4 || n == 8) && k < 2
    ensures j < n && HighReuse(layer, n, j) == HighReuse(layer, 2, k)
  {
    hide HighReuse;
    j := HighReuse(layer, 2, k);
    HighReuseCycles(layer, n, j);
  }

  // ----- churn with more than two candidates -----

  lemma SameRemainder(a: int, b: int, e: nat)
    requires e > 0
    ensures Rem(a, e) == Rem(b, e) <==> Rem(a - b, e) == 0
  {
    var qa, qb := a / e, b / e;
    var ra, rb := a % e, b % e;
    DifferenceOfQuotients(a, b, e, qa, qb, ra, rb);
    if ra >= rb {
      RemainderUnique(a - b, e, qa - qb, ra - rb);
    } else {
      RemainderUnique(a - b, e, qa - qb - 1, ra - rb + e);
    }
  }

  lemma DifferenceOfQuotients(a: int, b: int, e: nat, qa: int, qb: int, ra: int, rb: int)
    requires a == e * qa + ra && b == e * qb + rb
    ensures a - b == e * (qa - qb) + (ra - rb)
    ensures a - b == e * (qa - qb - 1) + (ra - rb + e)
  {
  }

  /** How far the wanted experts lie ahead of the first candidate, around the ring of experts. */
  function Lag(flat: nat, n: nat, numExperts: uint32): nat
    requires numExperts > 0 && n >= 2
  {
    Rem(-((n - 2) * flat), numExperts)
  }

  lemma PositionsDiffer(flat: nat, n: nat, k: nat, t: nat)
    requires n >= 2
    ensures flat * n + k - (flat * 2 + t) == k - (-((n - 2) * flat) + t)
  {
    assert flat * n == flat * 2 + flat * (n - 2);
  }

  lemma RemOfRem(x: int, e: nat)
    requires e > 0
    ensures Rem(Rem(x, e), e) == Rem(x, e)
  {
  }

  lemma ShiftByRemainder(k: int, x: int, t: int, e: nat)
    requires e > 0
    ensures Rem(k - (x + t), e) == 0 <==> Rem(k, e) == Rem(Rem(x, e) + t, e)
  {
    hide Rem;
    SameRemainder(k, x + t, e);
    RemOfRem(x, e);
    SameRemainder(x, Rem(x, e), e);
    SameRemainder(x + t, Rem(x, e) + t, e);
    assert x + t - (Rem(x, e) + t) == x - Rem(x, e);
  }

  /** Candidate `k` is target `t` exactly when `k` is congruent to the lag plus `t`. */
  lemma CandidateIsTarget(flat: nat, n: nat, k: nat, t: nat, numExperts: uint32)
    requires numExperts > 0 && n >= 2
    ensures Churn(flat, n, k, numExperts) == Churn(flat, 2, t, numExperts)
       <==> Rem(k, numExperts) == Rem(Lag(flat, n, numExperts) + t, numExperts)
  {
    hide Rem;
    PositionsDiffer(flat, n, k, t);
    SameRemainder(flat * n + k, flat * 2 + t, numExperts);
    ShiftByRemainder(k, -((n - 2) * flat), t, numExperts);
  }

  lemma SuccessorRemainder(r: nat, e: nat)
    requires r < e
    ensures Rem(r, e) == r
    ensures Rem(r + 1, e) == if r + 1 < e then r + 1 else 0
  {
  }

  ghost predicate TargetCovered(flat: nat, n: nat, t: nat, numExperts: uint32)
    requires numExperts > 0
  {
    exists k: nat :: k < n && Churn(flat, n, k, numExperts) == Churn(flat, 2, t, numExperts)
  }

  lemma RemBounds(a: int, e: nat)
    requires e > 0
    ensures Rem(a, e) < e
    ensures 0 <= a ==> Rem(a, e) <= a
    ensures 0 <= a < e ==> Rem(a, e) == a
  {
    if a >= e { assert a == e * (a / e) + a % e; }
  }

  lemma TargetCoveredIff(flat: nat, n: nat, t: nat, numExperts: uint32)
    requires numExperts > 0 && n >= 2
    ensures TargetCovered(flat, n, t, numExperts) <==> Rem(Lag(flat, n, numExperts) + t, numExperts) < n
  {
    hide Rem, Churn, Lag;
    var r := Rem(Lag(flat, n, numExperts) + t, numExperts);
    RemBounds(Lag(flat, n, numExperts) + t, numExperts);
    if r < n {
      RemBounds(r, numExperts);
      CandidateIsTarget(flat, n, r, t, numExperts);
    }
    if TargetCovered(flat, n, t, numExperts) {
      var k: nat :| k < n && Churn(flat, n, k, numExperts) == Churn(flat, 2, t, numExperts);
      CandidateIsTarget(flat, n, k, t, numExperts);
      RemBounds(k, numExperts);
    }
  }

  lemma LagBelow(flat: nat, n: nat, numExperts: uint32)
    requires numExperts > 0 && n >= 2
    ensures Lag(flat, n, numExperts) < numExperts
  {
  }

  /** Under churn, more than two candidates do not cover the demand in general. They do exactly when
      there are no more experts than candidates, or the lag leaves room for both targets. */
  lemma ChurnCoverage(flat: nat, n: nat, numExperts: uint32)
    requires numExperts > 0 && n >= 2
    ensures TargetCovered(flat, n, 0, numExperts) && TargetCovered(flat, n, 1, numExperts)
       <==> numExperts <= n || Lag(flat, n, numExperts) <= n - 2
  {
    hide Rem, TargetCovered, Lag;
    TargetCoveredIff(flat, n, 0, numExperts);
    TargetCoveredIff(flat, n, 1, numExperts);
    LagBelow(flat, n, numExperts);
    SuccessorRemainder(Lag(flat, n, numExperts), numExperts);
  }

  // ----- churn over whole runs -----

  function Gcd(a: nat, b: nat): (g: nat)
    decreases b
  {
    if b == 0 then a else Gcd(b, Rem(a, b))
  }

  lemma RemQuotient(x: int, e: nat) returns (k: int)
    requires e > 0
    ensures x == e * k + Rem(x, e) && (x >= 0 ==> k >= 0)
  {
    k := x / e;
  }

  /** The greatest common divisor divides both. */
  lemma {:induction false} GcdDivides(a: nat, b: nat) returns (x: nat, y: nat)
    ensures a == Gcd(a, b) * x && b == Gcd(a, b) * y
    decreases b
  {
    if b == 0 {
      x, y := 1, 0;
    } else {
      var q := RemQuotient(a, b);
      var u, v := GcdDivides(b, Rem(a, b));
      x, y := u * q + v, u;
      Regroup(Gcd(a, b), u, q, v);
    }
  }

  lemma Regroup(g: int, u: int, q: int, v: int)
    ensures g * (u * q + v) == (g * u) * q + g * v
  {
    assert g * (u * q) == (g * u) * q;
  }

  /** And it is a combination of them. */
  lemma {:induction false} Bezout(a: nat, b: nat) returns (x: int, y: int)
    ensures a * x + b * y == Gcd(a, b)
    decreases b
  {
    if b == 0 {
      x, y := 1, 0;
    } else {
      var q := RemQuotient(a, b);
      var u, v := Bezout(b, Rem(a, b));
      x, y := v, u - q * v;
      Recombine(a, b, q, Rem(a, b), u, v);
    }
  }

  lemma Recombine(a: int, b: int, q: int, r: int, u: int, v: int)
    requires a == b * q + r
    ensures a * v + b * (u - q * v) == b * u + r * v
  {
    assert a * v == (b * q) * v + r * v;
    assert b * (u - q * v) == b * u - b * (q * v);
    assert (b * q) * v == b * (q * v);
  }

  lemma GcdPositive(a: nat, b: nat)
    requires b > 0
    ensures 0 < Gcd(a, b) <= b
  {
    var x, y := GcdDivides(a, b);
    var g := Gcd(a, b);
    if g > b { ProductExceeds(g, y, b); }
  }

  lemma ProductExceeds(g: nat, y: nat, b: nat)
    requires g * y == b && b > 0
    ensures g <= b
  {
    if y > 0 { assert g * y == g + g * (y - 1); }
  }

  /** No lag exceeds numExperts - gcd: all lags are multiples of the gcd, and below numExperts. */
  lemma LagAtMost(flat: nat, n: nat, numExperts: uint32)
    requires numExperts > 0 && n >= 2
    ensures Lag(flat, n, numExperts) <= numExperts - Gcd(n - 2, numExperts)
  {
    var g, lag := Gcd(n - 2, numExperts), Lag(flat, n, numExperts);
    var x, y := GcdDivides(n - 2, numExperts);
    var q := LagQuotient(flat, n, numExperts);
    GcdPositive(n - 2, numExperts);
    var z := -(x * flat) - y * q;
    LagMultiple(g, x, flat, y, q, lag);
    if lag > numExperts - g { BetweenMultiples(g, z, y, lag); }
  }

  lemma LagQuotient(flat: nat, n: nat, numExperts: uint32) returns (q: int)
    requires numExperts > 0 && n >= 2
    ensures -((n - 2) * flat) == numExperts * q + Lag(flat, n, numExperts) && Lag(flat, n, numExperts) < numExperts
  {
    q := (-((n - 2) * flat)) / numExperts;
  }

  lemma LagMultiple(g: int, x: int, flat: int, y: int, q: int, lag: int)
    requires -((g * x) * flat) == (g * y) * q + lag
    ensures lag == g * (-(x * flat) - y * q)
  {
    assert (g * x) * flat == g * (x * flat) && (g * y) * q == g * (y * q);
  }

  lemma BetweenMultiples(g: nat, z: int, y: int, lag: int)
    requires g > 0 && lag == g * z && lag < g * y
    ensures lag <= g * y - g
  {
    assert g * (y - z) == g * y - g * z;
    MultipleOutside(g, y - z);
  }

  /** The largest lag occurs within every stretch of numExperts positions from the start. */
  lemma LagAttained(n: nat, numExperts: uint32) returns (flat: nat)
    requires numExperts > 0 && n >= 2
    ensures flat < numExperts && Lag(flat, n, numExperts) == numExperts - Gcd(n - 2, numExperts)
  {
    var g := Gcd(n - 2, numExperts);
    GcdPositive(n - 2, numExperts);
    var x, y := Bezout(n - 2, numExperts);
    flat := Rem(x, numExperts);
    var k := RemQuotient(x, numExperts);
    LagOf(n - 2, numExperts, x, y, flat, k, g);
    RemainderUnique(-((n - 2) * flat), numExperts, y + (n - 2) * k - 1, numExperts - g);
  }

  lemma LagOf(a: int, e: int, x: int, y: int, flat: int, k: int, g: int)
    requires a * x + e * y == g && x == e * k + flat
    ensures -(a * flat) == e * (y + a * k - 1) + (e - g)
  {
    assert a * x == a * (e * k) + a * flat;
    assert a * (e * k) == e * (a * k);
    assert e * (y + a * k - 1) == e * y + e * (a * k) - e;
  }

  /** Over a whole run of at least numExperts positions, n candidates cover the demand at every position exactly
      if there are no more experts than candidates, or numExperts - gcd(n - 2, numExperts) is at most n - 2. */
  lemma ChurnCoversRunIff(positions: nat, n: nat, numExperts: uint32)
    requires numExperts > 0 && n >= 2 && positions >= numExperts
    ensures (forall flat: nat :: flat < positions ==>
               TargetCovered(flat, n, 0, numExperts) && TargetCovered(flat, n, 1, numExperts))
       <==> numExperts <= n || numExperts - Gcd(n - 2, numExperts) <= n - 2
  {
    hide TargetCovered, Lag, Gcd;
    if numExperts <= n || numExperts - Gcd(n - 2, numExperts) <= n - 2 {
      forall flat: nat | flat < positions
        ensures TargetCovered(flat, n, 0, numExperts) && TargetCovered(flat, n, 1, numExperts)
      {
        ChurnCoverage(flat, n, numExperts);
        LagAtMost(flat, n, numExperts);
      }
    } else {
      var flat := LagAttained(n, numExperts);
      ChurnCoverage(flat, n, numExperts);
    }
  }

  /** The benchmark's own numbers: with eight candidates and 256 experts, position 1 is not covered. */
  lemma EightCandidatesMiss()
    ensures !(TargetCovered(1, 8, 0, 256) && TargetCovered(1, 8, 1, 256))
  {
    ChurnCoverage(1, 8, 256);
  }

  // ----- duplicates -----

  lemma DedupOfTwo(s: seq<uint32>, numExperts: uint32)
    requires |s| == 2 && numExperts > 0
    ensures Dedup(s, 0, 1, numExperts) == if s[0] == s[1] then s[1 := Following(s[1], numExperts)] else s
  {
    var r := if s[0] == s[1] then s[1 := Following(s[1], numExperts)] else s;
    assert Dedup(s, 0, 1, numExperts) == Dedup(r, 0, 2, numExperts);
    assert Dedup(r, 0, 2, numExperts) == Dedup(r, 1, 2, numExperts);
    assert Dedup(r, 1, 2, numExperts) == Dedup(r, 2, 3, numExperts);
  }

  /** For two candidates the repair makes them distinct exactly when they were or there is a second
      expert to move to. */
  lemma TwoCandidatesDistinct(s: seq<uint32>, numExperts: uint32)
    requires |s| == 2 && numExperts > 0 && s[0] < numExperts && s[1] < numExperts
    ensures var r := Dedup(s, 0, 1, numExperts);
            r[0] != r[1] <==> s[0] != s[1] || numExperts > 1
  {
    hide Dedup;
    DedupOfTwo(s, numExperts);
    assert s[0] == s[1] ==> Rem(s[1] + 1, numExperts) == Following(s[1], numExperts);
    SuccessorRemainder(s[1], numExperts);
  }

  /** For four it does not: moving a duplicate on can create another that is not looked at again. */
  lemma FourCandidatesMayCollide()
    ensures Dedup([6, 5, 5, 9], 0, 1, 256) == [6, 5, 6, 9]
  {
    var s: seq<uint32> := [6, 5, 5, 9];
    var t: seq<uint32> := [6, 5, 6, 9];
    assert Dedup(s, 0, 1, 256) == Dedup(s, 0, 2, 256) == Dedup(s, 0, 3, 256) == Dedup(s, 0, 4, 256) == Dedup(s, 1, 2, 256);
    assert s[2 := 6] == t;
    assert Dedup(s, 1, 2, 256) == Dedup(t, 1, 3, 256) == Dedup(t, 1, 4, 256) == Dedup(t, 2, 3, 256);
    assert Dedup(t, 2, 3, 256) == Dedup(t, 2, 4, 256) == Dedup(t, 3, 4, 256) == Dedup(t, 4, 5, 256) == t;
  }

  /** Once the outer loop is at `i`, the entries up to `i` are final. */
  lemma {:induction false} DedupKeepsFront(s: seq<uint32>, i: nat, j: nat, numExperts: uint32, p: nat)
    requires numExperts > 0 && i < j && p <= i && p < |s|
    ensures Dedup(s, i, j, numExperts)[p] == s[p]
    decreases |s| - i, |s| - j
  {
    if i < |s| {
      if j >= |s| {
        DedupKeepsFront(s, i + 1, i + 2, numExperts, p);
      } else {
        DedupKeepsFront(if s[i] == s[j] then s[j := Following(s[j], numExperts)] else s, i, j + 1, numExperts, p);
      }
    }
  }

  /** The rest of an inner loop leaves what it has passed alone and hands over to the next outer iteration. */
  lemma {:induction false} InnerLoopEnds(s: seq<uint32>, i: nat, j: nat, numExperts: uint32) returns (t: seq<uint32>)
    requires numExperts > 0 && i < |s| && i < j <= |s|
    ensures |t| == |s| && t[..j] == s[..j]
    ensures Dedup(s, i, j, numExperts) == Dedup(t, i + 1, i + 2, numExperts)
    decreases |s| - j
  {
    if j == |s| {
      t := s;
    } else {
      var next := if s[i] == s[j] then s[j := Following(s[j], numExperts)] else s;
      t := InnerLoopEnds(next, i, j + 1, numExperts);
      assert t[..j] == t[..j + 1][..j] && next[..j] == next[..j + 1][..j];
    }
  }

  /** One zero more than a distinct pair: the third becomes a second one. */
  lemma OneZeroZeroCollides(s: seq<uint32>, numExperts: uint32)
    requires numExperts >= 2 && |s| >= 3 && s[0] == 1 && s[1] == 0 && s[2] == 0
    ensures Dedup(s, 0, 1, numExperts)[0] == Dedup(s, 0, 1, numExperts)[2]
  {
    hide Dedup;
    var t := InnerLoopStarts(s, numExperts);
    SuccessorRemainder(0, numExperts);
    var u := t[2 := Following(t[2], numExperts)];
    assert u[0] == u[2] == 1;
    SecondLoopStarts(t, numExperts);
    var w := InnerLoopEnds(u, 1, 3, numExperts);
    assert w[0] == w[..3][0] == u[0] && w[2] == w[..3][2] == u[2];
    DedupKeepsFront(w, 2, 3, numExperts, 0);
    DedupKeepsFront(w, 2, 3, numExperts, 2);
  }

  lemma InnerLoopStarts(s: seq<uint32>, numExperts: uint32) returns (t: seq<uint32>)
    requires numExperts >= 2 && |s| >= 3 && s[0] == 1 && s[1] == 0 && s[2] == 0
    ensures |t| == |s| && t[0] == 1 && t[1] == 0 && t[2] == 0
    ensures Dedup(s, 0, 1, numExperts) == Dedup(t, 1, 2, numExperts)
  {
    assert Dedup(s, 0, 1, numExperts) == Dedup(s, 0, 2, numExperts) == Dedup(s, 0, 3, numExperts);
    t := InnerLoopEnds(s, 0, 3, numExperts);
    assert t[0] == t[..3][0] && t[1] == t[..3][1] && t[2] == t[..3][2];
  }

  lemma SecondLoopStarts(t: seq<uint32>, numExperts: uint32)
    requires numExperts > 0 && |t| >= 3 && t[1] == t[2]
    ensures Dedup(t, 1, 2, numExperts) == Dedup(t[2 := Following(t[2], numExperts)], 1, 3, numExperts)
  {
  }

  /** The repair makes every draw of `n` candidates pairwise distinct. */
  ghost predicate RepairWorks(n: nat, numExperts: uint32)
    requires numExperts > 0
  {
    forall s: seq<uint32> :: |s| == n && (forall k :: 0 <= k < n ==> s[k] < numExperts) ==>
      Distinct(Dedup(s, 0, 1, numExperts))
  }

  /** With at least two experts to choose from it does so exactly for up to two candidates. */
  lemma RepairWorksIff(n: nat, numExperts: uint32)
    requires numExperts >= 2
    ensures RepairWorks(n, numExperts) <==> n <= 2
  {
    hide Dedup;
    if n <= 2 {
      forall s: seq<uint32> | |s| == n && forall k :: 0 <= k < n ==> s[k] < numExperts
        ensures Distinct(Dedup(s, 0, 1, numExperts))
      {
        if n == 2 { TwoCandidatesDistinct(s, numExperts); }
      }
    } else {
      var s: seq<uint32> := [1, 0, 0] + seq(n - 3, k => 0);
      OneZeroZeroCollides(s, numExperts);
      assert !Distinct(Dedup(s, 0, 1, numExperts));
    }
  }

  /** With a single expert nothing can be distinct, so it does so only for at most one candidate. */
  lemma RepairOfOneExpert(n: nat)
    ensures RepairWorks(n, 1) <==> n <= 1
  {
    hide Dedup;
    if n >= 2 {
      var s: seq<uint32> := seq(n, k => 0);
      DedupInRange(s, 0, 1, 1);
      assert Dedup(s, 0, 1, 1)[0] == Dedup(s, 0, 1, 1)[1] == 0;
    }
  }

  lemma {:induction false} DedupInRange(s: seq<uint32>, i: nat, j: nat, numExperts: uint32)
    requires numExperts > 0 && forall k :: 0 <= k < |s| ==> s[k] < numExperts
    ensures forall k :: 0 <= k < |s| ==> Dedup(s, i, j, numExperts)[k] < numExperts
    decreases |s| - i, |s| - j
  {
    if i < |s| {
      if j >= |s| {
        DedupInRange(s, i + 1, i + 2, numExperts);
      } else {
        DedupInRange(if s[i] == s[j] then s[j := Following(s[j], numExperts)] else s, i, j + 1, numExperts);
      }
    }
  }
}
