/** The controller that turns the miss rate into a lookahead depth. */
module AdaptiveLookahead {
  import opened Bits

  function DepthFor(missRate: real): uint32 {
    if missRate < 0.05 then 4 else if missRate < 0.20 then 8 else if missRate < 0.40 then 16 else 32
  }

  /** Depths after each update, from the initial depth of 4 on. */
  function Depths(rates: seq<real>): seq<uint32> {
    if rates == [] then [4] else Depths(rates[..|rates| - 1]) + [DepthFor(rates[|rates| - 1])]
  }

  function Changes(ds: seq<uint32>): nat {
    if |ds| < 2 then 0
    else Changes(ds[..|ds| - 1]) + if ds[|ds| - 1] != ds[|ds| - 2] then 1 else 0
  }

  function Sum(ds: seq<uint32>): nat {
    if ds == [] then 0 else Sum(ds[..|ds| - 1]) + ds[|ds| - 1]
  }

  ghost predicate IsMaximum(m: uint32, ds: seq<uint32>) {
    m in ds && forall d :: d in ds ==> d <= m
  }

  class AdaptiveLookaheadController {
    var currentDepth: uint32
    var transitions: nat
    var avgDepthSum: nat
    var count: nat
    var maxDepth: uint32
    ghost var rates: seq<real>

    /** The fields summarise the whole history of updates. */
    ghost predicate Valid()
      reads this
    {
      var ds := Depths(rates);
      && ds != [] && currentDepth == ds[|ds| - 1]
      && transitions == Changes(ds)
      && count == |rates| == |ds| - 1
      && avgDepthSum == Sum(ds) - 4
      && IsMaximum(maxDepth, ds)
      && forall d :: d in ds ==> d in {4, 8, 16, 32}
    }

    constructor ()
      ensures Valid() && rates == []
    {
      currentDepth, transitions, avgDepthSum, count, maxDepth := 4, 0, 0, 0, 4;
      rates := [];
    }

    method UpdateMetrics(missRate: real)
      requires Valid()
      modifies this
      ensures Valid() && rates == old(rates) + [missRate]
      ensures currentDepth in {4, 8, 16, 32}
      ensures currentDepth > 4 <==> missRate >= 0.05
      ensures currentDepth > 8 <==> missRate >= 0.20
      ensures currentDepth > 16 <==> missRate >= 0.40
      ensures transitions == old(transitions) + (if currentDepth != old(currentDepth) then 1 else 0)
      ensures maxDepth == if currentDepth > old(maxDepth) then currentDepth else old(maxDepth)
      ensures avgDepthSum == old(avgDepthSum) + currentDepth && count == old(count) + 1
    {
      hide Depths, Changes, Sum;
      ghost var ds := Depths(rates);
      assert currentDepth in ds;
      HistoryExtends(rates, missRate);
      var nextDepth: uint32 := 4;
      if missRate < 0.05 {
        nextDepth := 4;
      } else if missRate < 0.20 {
        nextDepth := 8;
      } else if missRate < 0.40 {
        nextDepth := 16;
      } else {
        nextDepth := 32;
      }
      if nextDepth != currentDepth {
        transitions := transitions + 1;
        currentDepth := nextDepth;
        if currentDepth > maxDepth {
          maxDepth := currentDepth;
        }
      }
      avgDepthSum := avgDepthSum + currentDepth;
      count := count + 1;
      rates := rates + [missRate];
      assert nextDepth == DepthFor(missRate) && nextDepth in {4, 8, 16, 32};
      ghost var ds' := Depths(rates);
      assert ds' == ds + [nextDepth];
      assert nextDepth in ds';
      assert maxDepth in ds';
      assert forall d :: d in ds' ==> d in ds || d == nextDepth;
    }

    /** The reported average: 4 before the first update, and always between 4 and the maximum. */
    method GetAvgDepth() returns (avg: real)
      requires Valid()
      ensures 4.0 <= avg <= maxDepth as real
      ensures count > 0 ==> avg * (count as real) == avgDepthSum as real
    {
      hide Depths, Changes, Sum;
      if count > 0 {
        assert forall d :: d in Depths(rates) ==> 4 <= d <= maxDepth;
        AverageBounds(rates, maxDepth);
        QuotientBounds(avgDepthSum, count, maxDepth);
        avg := avgDepthSum as real / count as real;
      } else {
        avg := 4.0;
      }
    }

    method Reset()
      modifies this
      ensures Valid() && rates == []
    {
      currentDepth, transitions, avgDepthSum, count, maxDepth := 4, 0, 0, 0, 4;
      rates := [];
    }
  }

  /** One more update appends one depth, and counts one change exactly if that differs from the last. */
  lemma HistoryExtends(rates: seq<real>, missRate: real)
    requires Depths(rates) != []
    ensures var ds, d := Depths(rates), DepthFor(missRate);
            && Depths(rates + [missRate]) == ds + [d]
            && Changes(ds + [d]) == Changes(ds) + (if d != ds[|ds| - 1] then 1 else 0)
            && Sum(ds + [d]) == Sum(ds) + d
  {
    hide DepthFor;
    var ds, d := Depths(rates), DepthFor(missRate);
    assert (rates + [missRate])[..|rates|] == rates;
    assert (ds + [d])[..|ds|] == ds;
  }

  /** Higher miss rates never give smaller depths, at any update, nor a smaller sum. */
  lemma {:induction false} HigherRatesDeeper(rates: seq<real>, rates': seq<real>)
    requires |rates| == |rates'| && forall k :: 0 <= k < |rates| ==> rates[k] <= rates'[k]
    ensures |Depths(rates)| == |Depths(rates')| == |rates| + 1
    ensures forall k :: 0 <= k <= |rates| ==> Depths(rates)[k] <= Depths(rates')[k]
    ensures Sum(Depths(rates)) <= Sum(Depths(rates'))
  {
    hide Sum;
    if rates != [] {
      var n := |rates| - 1;
      HigherRatesDeeper(rates[..n], rates'[..n]);
      SumAppend(Depths(rates[..n]), DepthFor(rates[n]));
      SumAppend(Depths(rates'[..n]), DepthFor(rates'[n]));
    }
  }

  lemma SumAppend(ds: seq<uint32>, d: uint32)
    ensures Sum(ds + [d]) == Sum(ds) + d
  {
    assert (ds + [d])[..|ds|] == ds;
  }

  lemma EmptySum()
    ensures Sum([]) == 0
  {
  }

  /** The initial depth apart, every update adds at least 4 and at most the maximum. */
  lemma {:induction false} AverageBounds(rates: seq<real>, m: uint32)
    requires forall d :: d in Depths(rates) ==> 4 <= d <= m
    ensures 4 * |rates| <= Sum(Depths(rates)) - 4 <= m * |rates|
  {
    hide DepthFor, Sum;
    if rates != [] {
      var front, last := rates[..|rates| - 1], DepthFor(rates[|rates| - 1]);
      assert Depths(rates) == Depths(front) + [last];
      assert last in Depths(rates);
      forall d | d in Depths(front) ensures d in Depths(rates) {
      }
      AverageBounds(front, m);
      SumAppend(Depths(front), last);
      assert m * |rates| == m * |front| + m;
    } else {
      SumAppend([], 4);
      assert Depths(rates) == [] + [4];
      EmptySum();
    }
  }

  lemma ScaledOrder(a: real, b: real, n: real)
    requires n > 0.0 && a > b
    ensures a * n > b * n
  {
    assert (a - b) * n > 0.0;
  }

  lemma Monotone(a: real, b: real, n: real)
    requires n > 0.0 && a * n <= b * n
    ensures a <= b
  {
    if a > b { ScaledOrder(a, b, n); }
  }

  lemma QuotientBounds(sum: nat, n: nat, m: nat)
    requires n > 0 && 4 * n <= sum <= m * n
    ensures 4.0 <= sum as real / n as real <= m as real
  {
    var q := sum as real / n as real;
    assert q * n as real == sum as real;
    assert (m * n) as real == m as real * n as real;
    Monotone(4.0, q, n as real);
    Monotone(q, m as real, n as real);
  }
}
