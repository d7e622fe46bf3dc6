/**
 * Portfolio metric aggregation: a portfolio's total value, value-weighted volatility and
 * worst drawdown, from the metrics of its own positions and the aggregates already
 * computed for its sub-portfolios.
 */
module MetricsAggregation {
  import opened Wrappers
  import opened Series

  /** `PositionMetrics`: what is known about one position. */
  datatype PositionMetrics = PositionMetrics(symbol: string, quantity: int, latestPrice: real,
                                             value: real, volatility: real, drawdown: real)

  /** The aggregate dict `{"total_value", "aggregate_volatility", "max_drawdown"}`. */
  datatype Summary = Summary(totalValue: real, volatility: real, maxDrawdown: real)

  function PositionsValue(pos: seq<PositionMetrics>): real {
    if |pos| == 0 then 0.0 else PositionsValue(pos[..|pos| - 1]) + pos[|pos| - 1].value
  }

  function PositionsWeighted(pos: seq<PositionMetrics>): real {
    if |pos| == 0 then 0.0 else PositionsWeighted(pos[..|pos| - 1]) + pos[|pos| - 1].value * pos[|pos| - 1].volatility
  }

  function SubsValue(subs: seq<Summary>): real {
    if |subs| == 0 then 0.0 else SubsValue(subs[..|subs| - 1]) + subs[|subs| - 1].totalValue
  }

  function SubsWeighted(subs: seq<Summary>): real {
    if |subs| == 0 then 0.0 else SubsWeighted(subs[..|subs| - 1]) + subs[|subs| - 1].totalValue * subs[|subs| - 1].volatility
  }

  /** Every drawdown that takes part: the positions' first, then the sub-portfolios'. */
  function AllDrawdowns(pos: seq<PositionMetrics>, subs: seq<Summary>): (dd: seq<real>)
    ensures |dd| == |pos| + |subs|
    ensures forall i :: 0 <= i < |pos| ==> dd[i] == pos[i].drawdown
    ensures forall i :: 0 <= i < |subs| ==> dd[|pos| + i] == subs[i].maxDrawdown
  {
    seq(|pos|, i requires 0 <= i < |pos| => pos[i].drawdown) + seq(|subs|, i requires 0 <= i < |subs| => subs[i].maxDrawdown)
  }

  /** `weighted / total_value if total_value else 0.0`. */
  function WeightedMean(weighted: real, total: real): (v: real)
    ensures total != 0.0 ==> v == weighted / total
    ensures total == 0.0 ==> v == 0.0
  {
    if total != 0.0 then weighted / total else 0.0
  }

  /** `min(all_dd) if all_dd else 0.0`. */
  function Worst(dd: seq<real>): (m: real)
    ensures |dd| == 0 ==> m == 0.0
    ensures |dd| > 0 ==> m in dd && forall i :: 0 <= i < |dd| ==> m <= dd[i]
  {
    if |dd| > 0 then Min(dd) else 0.0
  }

  /**
   * `aggregate_metrics`: an omitted sub-aggregate list is an empty one; the volatility is
   * the value-weighted mean (0 when the total is 0) and the drawdown the worst one (0 when
   * there is none).
   */
  function Aggregate(pos: seq<PositionMetrics>, subAggregates: Option<seq<Summary>>): (r: Summary)
    ensures r.totalValue == PositionsValue(pos) + SubsValue(subAggregates.GetOr([]))
    ensures r.totalValue != 0.0 ==>
      r.volatility == (PositionsWeighted(pos) + SubsWeighted(subAggregates.GetOr([]))) / r.totalValue
    ensures r.totalValue == 0.0 ==> r.volatility == 0.0
    ensures |pos| + |subAggregates.GetOr([])| == 0 ==> r.maxDrawdown == 0.0
    ensures |pos| + |subAggregates.GetOr([])| > 0 ==>
      r.maxDrawdown in AllDrawdowns(pos, subAggregates.GetOr([]))
      && forall i :: 0 <= i < |pos| + |subAggregates.GetOr([])| ==> r.maxDrawdown <= AllDrawdowns(pos, subAggregates.GetOr([]))[i]
  {
    var subs := subAggregates.GetOr([]);
    var total := PositionsValue(pos) + SubsValue(subs);
    var vol := WeightedMean(PositionsWeighted(pos) + SubsWeighted(subs), total);
    var dd := Worst(AllDrawdowns(pos, subs));
    Summary(total, vol, dd)
  }

  /** Leaving the sub-aggregates out and passing an empty list give the same aggregate. */
  lemma OmittedSubsAreEmpty(pos: seq<PositionMetrics>)
    ensures Aggregate(pos, None) == Aggregate(pos, Some([]))
  {
  }

  /** All weights are non-negative and all volatilities lie in [lo, hi]. */
  predicate PositionsIn(pos: seq<PositionMetrics>, lo: real, hi: real) {
    forall i :: 0 <= i < |pos| ==> pos[i].value >= 0.0 && lo <= pos[i].volatility <= hi
  }

  predicate SubsIn(subs: seq<Summary>, lo: real, hi: real) {
    forall i :: 0 <= i < |subs| ==> subs[i].totalValue >= 0.0 && lo <= subs[i].volatility <= hi
  }

  lemma {:induction false} PositionsWeightedBounds(pos: seq<PositionMetrics>, lo: real, hi: real)
    requires PositionsIn(pos, lo, hi)
    ensures Bounded(lo, hi, PositionsValue(pos), PositionsWeighted(pos))
    decreases |pos|
  {
    if |pos| > 0 {
      var p := pos[|pos| - 1];
      var init := pos[..|pos| - 1];
      PositionsWeightedBounds(init, lo, hi);
      WeightedStep(lo, hi, PositionsValue(init), PositionsWeighted(init), p.value, p.volatility,
                   PositionsValue(pos), PositionsWeighted(pos));
    }
  }

  lemma {:induction false} SubsWeightedBounds(subs: seq<Summary>, lo: real, hi: real)
    requires SubsIn(subs, lo, hi)
    ensures Bounded(lo, hi, SubsValue(subs), SubsWeighted(subs))
    decreases |subs|
  {
    if |subs| > 0 {
      var s := subs[|subs| - 1];
      var init := subs[..|subs| - 1];
      SubsWeightedBounds(init, lo, hi);
      WeightedStep(lo, hi, SubsValue(init), SubsWeighted(init), s.totalValue, s.volatility,
                   SubsValue(subs), SubsWeighted(subs));
    }
  }

  /** A weighted sum lies between `lo` and `hi` times its total weight. */
  predicate Bounded(lo: real, hi: real, total: real, weighted: real) {
    lo * total <= weighted <= hi * total
  }

  /** Bounds on a running weighted sum survive adding one more term that keeps them. */
  lemma StepBounds(lo: real, hi: real, total: real, weighted: real, w: real, x: real, total': real, weighted': real)
    requires Bounded(lo, hi, total, weighted) && Bounded(lo, hi, w, x)
    requires total' == total + w && weighted' == weighted + x
    ensures Bounded(lo, hi, total', weighted')
  {
    assert lo * (total + w) == lo * total + lo * w;
    assert hi * (total + w) == hi * total + hi * w;
  }

  /** Adding a term of weight `w >= 0` and value in [lo, hi] keeps a weighted sum within its bounds. */
  lemma WeightedStep(lo: real, hi: real, total: real, weighted: real, w: real, v: real, total': real, weighted': real)
    requires Bounded(lo, hi, total, weighted)
    requires w >= 0.0 && lo <= v <= hi
    requires total' == total + w && weighted' == weighted + w * v
    ensures Bounded(lo, hi, total', weighted')
  {
    ScaleBounds(w, v, lo, hi);
    StepBounds(lo, hi, total, weighted, w, w * v, total', weighted');
  }

  lemma ScaleBounds(w: real, v: real, lo: real, hi: real)
    requires w >= 0.0 && lo <= v <= hi
    ensures Bounded(lo, hi, w, w * v)
  {
    assert w * (v - lo) >= 0.0 && w * (hi - v) >= 0.0 by {
      MulNonneg(w, v - lo);
      MulNonneg(w, hi - v);
    }
  }

  /**
   * With non-negative values and a positive total, the aggregate volatility is a
   * weighted mean: it lies between the smallest and largest volatility that went in.
   */
  lemma VolatilityWithin(pos: seq<PositionMetrics>, subs: seq<Summary>, lo: real, hi: real)
    requires PositionsIn(pos, lo, hi) && SubsIn(subs, lo, hi)
    requires Aggregate(pos, Some(subs)).totalValue > 0.0
    ensures lo <= Aggregate(pos, Some(subs)).volatility <= hi
  {
    var r := Aggregate(pos, Some(subs));
    assert Some(subs).GetOr([]) == subs;
    PositionsWeightedBounds(pos, lo, hi);
    SubsWeightedBounds(subs, lo, hi);
    MeanOfBounded(lo, hi, PositionsValue(pos), PositionsWeighted(pos), SubsValue(subs), SubsWeighted(subs));
  }

  lemma MeanOfBounded(lo: real, hi: real, v1: real, w1: real, v2: real, w2: real)
    requires Bounded(lo, hi, v1, w1) && Bounded(lo, hi, v2, w2) && v1 + v2 > 0.0
    ensures lo <= WeightedMean(w1 + w2, v1 + v2) <= hi
  {
    StepBounds(lo, hi, v1, w1, v2, w2, v1 + v2, w1 + w2);
    DivideBounds(w1 + w2, v1 + v2, lo, hi);
  }

  lemma {:induction false} PositionsValueConcat(a: seq<PositionMetrics>, b: seq<PositionMetrics>)
    ensures PositionsValue(a + b) == PositionsValue(a) + PositionsValue(b)
    ensures PositionsWeighted(a + b) == PositionsWeighted(a) + PositionsWeighted(b)
    decreases |b|
  {
    if |b| == 0 {
      assert a + b == a;
    } else {
      PositionsValueConcat(a, b[..|b| - 1]);
      assert (a + b)[..|a + b| - 1] == a + b[..|b| - 1];
    }
  }

  lemma MinOfParts(a: seq<real>, b: seq<real>)
    requires |b| > 0
    ensures Min(a + b) == Min(a + [Min(b)])
  {
    var m1 := Min(a + b);
    var m2 := Min(a + [Min(b)]);
    assert forall i :: 0 <= i < |a| ==> (a + b)[i] == a[i] && (a + [Min(b)])[i] == a[i];
    assert forall i :: 0 <= i < |b| ==> (a + b)[|a| + i] == b[i];
    assert (a + [Min(b)])[|a|] == Min(b);
    assert m1 <= Min(b) by {
      var j :| 0 <= j < |b| && b[j] == Min(b);
      assert m1 <= (a + b)[|a| + j];
    }
    var k :| 0 <= k < |a + b| && (a + b)[k] == m1;
    if k < |a| {
      assert m2 <= (a + [Min(b)])[k];
    } else {
      assert m2 <= (a + [Min(b)])[|a|];
      assert Min(b) <= b[k - |a|];
    }
    var l :| 0 <= l < |a + [Min(b)]| && (a + [Min(b)])[l] == m2;
    if l < |a| {
      assert m1 <= (a + b)[l];
    }
  }

  lemma DivMul(a: real, b: real)
    requires b != 0.0
    ensures b * (a / b) == a
  {
  }

  /** The sub-portfolio's aggregate carries exactly the value and weighted volatility of its positions. */
  lemma InnerContribution(p2: seq<PositionMetrics>)
    requires Aggregate(p2, None).totalValue != 0.0
    ensures var inner := Aggregate(p2, None);
      SubsValue([inner]) == PositionsValue(p2) && SubsWeighted([inner]) == PositionsWeighted(p2)
  {
    var inner := Aggregate(p2, None);
    SingleSub(inner);
    OwnAggregate(p2);
    WeightFromMean(PositionsWeighted(p2), inner.totalValue, inner.volatility);
  }

  lemma SingleSub(inner: Summary)
    ensures SubsValue([inner]) == inner.totalValue && SubsWeighted([inner]) == inner.totalValue * inner.volatility
  {
    assert [inner][..0] == [];
  }

  /** Without sub-aggregates, the total is the positions' value and the volatility their weighted mean. */
  lemma OwnAggregate(pos: seq<PositionMetrics>)
    ensures Aggregate(pos, None).totalValue == PositionsValue(pos)
    ensures Aggregate(pos, None).totalValue != 0.0 ==>
      Aggregate(pos, None).volatility == PositionsWeighted(pos) / Aggregate(pos, None).totalValue
  {
    var none: Option<seq<Summary>> := None;
    assert none.GetOr([]) == [];
  }

  lemma WeightFromMean(w: real, t: real, v: real)
    requires t != 0.0 && v == w / t
    ensures t * v == w
  {
    DivMul(w, t);
  }

  lemma DrawdownsConcat(p1: seq<PositionMetrics>, p2: seq<PositionMetrics>, inner: Summary)
    ensures AllDrawdowns(p1 + p2, []) == AllDrawdowns(p1, []) + AllDrawdowns(p2, [])
    ensures AllDrawdowns(p1, [inner]) == AllDrawdowns(p1, []) + [inner.maxDrawdown]
  {
  }

  /** The worst drawdown is the same whether the group is nested or flattened. */
  lemma NestedDrawdown(p1: seq<PositionMetrics>, p2: seq<PositionMetrics>)
    requires |p2| > 0
    ensures Aggregate(p1 + p2, None).maxDrawdown == Aggregate(p1, Some([Aggregate(p2, None)])).maxDrawdown
  {
    var inner := Aggregate(p2, None);
    var d1 := AllDrawdowns(p1, []);
    var d2 := AllDrawdowns(p2, []);
    DrawdownsConcat(p1, p2, inner);
    assert inner.maxDrawdown == Worst(d2) == Min(d2);
    MinOfParts(d1, d2);
  }

  /** Any sub-aggregate that carries a group's value and weighted volatility can stand in for the group. */
  lemma StandIn(p1: seq<PositionMetrics>, p2: seq<PositionMetrics>, inner: Summary)
    requires SubsValue([inner]) == PositionsValue(p2) && SubsWeighted([inner]) == PositionsWeighted(p2)
    ensures var flat := Aggregate(p1 + p2, None);
      var nested := Aggregate(p1, Some([inner]));
      flat.totalValue == nested.totalValue && flat.volatility == nested.volatility
  {
    PositionsValueConcat(p1, p2);
    var total := PositionsValue(p1) + PositionsValue(p2);
    var weighted := PositionsWeighted(p1) + PositionsWeighted(p2);
    assert Aggregate(p1 + p2, None).volatility == WeightedMean(weighted, total);
    assert Some([inner]).GetOr([]) == [inner];
    assert Aggregate(p1, Some([inner])).volatility == WeightedMean(weighted, total);
  }

  /** The total and the volatility are the same whether the group is nested or flattened. */
  lemma NestedTotals(p1: seq<PositionMetrics>, p2: seq<PositionMetrics>)
    requires Aggregate(p2, None).totalValue != 0.0
    ensures var flat := Aggregate(p1 + p2, None);
      var nested := Aggregate(p1, Some([Aggregate(p2, None)]));
      flat.totalValue == nested.totalValue && flat.volatility == nested.volatility
  {
    InnerContribution(p2);
    StandIn(p1, p2, Aggregate(p2, None));
  }

  /**
   * Aggregating a group of positions as a sub-portfolio first gives the same total,
   * volatility and drawdown as aggregating them directly, provided the group is not
   * empty and its own total is not 0.
   */
  lemma NestingIsConsistent(p1: seq<PositionMetrics>, p2: seq<PositionMetrics>)
    requires |p2| > 0 && Aggregate(p2, None).totalValue != 0.0
    ensures Aggregate(p1 + p2, None) == Aggregate(p1, Some([Aggregate(p2, None)]))
  {
    NestedTotals(p1, p2);
    NestedDrawdown(p1, p2);
  }
}
