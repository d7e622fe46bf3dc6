/**
 * The order book's aggregated depth: the quantity of live orders per price level,
 * bids from the highest price down and asks from the lowest up. Also the
 * partial-fill case of the system tests, worked through the model.
 */
module OrderBookDepth {
  import opened Wrappers
  import opened OrderBook

  /** A level list: (price, quantity) pairs in the order the prices were first seen. */
  type Levels = seq<(real, int)>

  /** The quantity recorded for a price, if the price is a level. */
  function Lookup(levels: Levels, p: real): Option<int> {
    if |levels| == 0 then None
    else if levels[0].0 == p then Some(levels[0].1)
    else Lookup(levels[1..], p)
  }

  predicate DistinctPrices(levels: Levels) {
    forall i, j :: 0 <= i < j < |levels| ==> levels[i].0 != levels[j].0
  }

  /** `book[price] = book.get(price, 0) + qty` on an insertion-ordered dict. */
  function AddToLevel(levels: Levels, p: real, q: int): (r: Levels)
    ensures forall x :: Lookup(r, x) == if x == p then Some(q + Lookup(levels, p).GetOr(0)) else Lookup(levels, x)
    ensures DistinctPrices(levels) ==> DistinctPrices(r)
    ensures forall i :: 0 <= i < |r| ==> r[i].0 == p || exists j :: 0 <= j < |levels| && levels[j].0 == r[i].0
    decreases |levels|
  {
    if |levels| == 0 then [(p, q)]
    else if levels[0].0 == p then [(p, levels[0].1 + q)] + levels[1..]
    else
      var rest := AddToLevel(levels[1..], p, q);
      var r := [levels[0]] + rest;
      assert forall i :: 1 <= i < |r| ==> r[i] == rest[i - 1];
      forall i | 1 <= i < |r| && r[i].0 != p
        ensures exists j :: 0 <= j < |levels| && levels[j].0 == r[i].0
      {
        var j :| 0 <= j < |levels[1..]| && levels[1..][j].0 == rest[i - 1].0;
        assert levels[j + 1].0 == r[i].0;
      }
      assert DistinctPrices(levels) ==> forall i :: 0 <= i < |rest| ==> rest[i].0 != levels[0].0 by {
        if DistinctPrices(levels) {
          forall i | 0 <= i < |rest|
            ensures rest[i].0 != levels[0].0
          {
            if rest[i].0 != p {
              var j :| 0 <= j < |levels[1..]| && levels[1..][j].0 == rest[i].0;
              assert levels[j + 1].0 == rest[i].0;
            }
          }
        }
      }
      r
  }

  lemma {:induction false} LookupIn(levels: Levels, p: real)
    requires Lookup(levels, p).Some?
    ensures exists i :: 0 <= i < |levels| && levels[i] == (p, Lookup(levels, p).value)
    decreases |levels|
  {
    if levels[0].0 != p {
      LookupIn(levels[1..], p);
      var i :| 0 <= i < |levels[1..]| && levels[1..][i] == (p, Lookup(levels, p).value);
      assert levels[i + 1] == levels[1..][i];
    }
  }

  /** The loop of `depth` over the orders in insertion order, for one side: each live order adds its qty at its price. */
  function Accumulate(b: Book, side: Side, ids: seq<int>): (r: Levels)
    ensures DistinctPrices(r)
    decreases |ids|
  {
    if |ids| == 0 then []
    else
      var levels := Accumulate(b, side, ids[..|ids| - 1]);
      var id := ids[|ids| - 1];
      if id !in b.orders || !Live(b.orders[id]) || b.orders[id].side != side then levels
      else AddToLevel(levels, b.orders[id].price, b.orders[id].qty)
  }

  /** Whether `id` is a live order of `side` at price `p`. */
  predicate AtLevel(b: Book, side: Side, id: int, p: real) {
    id in b.orders && Live(b.orders[id]) && b.orders[id].side == side && b.orders[id].price == p
  }

  /** Reference: the total quantity of the listed live orders of a side at price `p`. */
  function LevelQty(b: Book, side: Side, ids: seq<int>, p: real): int {
    if |ids| == 0 then 0
    else LevelQty(b, side, ids[..|ids| - 1], p) + (if AtLevel(b, side, ids[|ids| - 1], p) then b.orders[ids[|ids| - 1]].qty else 0)
  }

  /**
   * A price is a level exactly when some listed live order of the side rests there,
   * and the level's quantity is the sum over those orders, which is positive.
   */
  lemma {:induction false} AccumulateSums(b: Book, side: Side, ids: seq<int>, p: real)
    ensures Lookup(Accumulate(b, side, ids), p).Some? <==> exists i :: 0 <= i < |ids| && AtLevel(b, side, ids[i], p)
    ensures Lookup(Accumulate(b, side, ids), p).Some? ==>
      Lookup(Accumulate(b, side, ids), p).value == LevelQty(b, side, ids, p) > 0
    ensures Lookup(Accumulate(b, side, ids), p).None? ==> LevelQty(b, side, ids, p) == 0
    decreases |ids|
  {
    if |ids| > 0 {
      var init := ids[..|ids| - 1];
      AccumulateSums(b, side, init, p);
      assert forall i :: 0 <= i < |init| ==> init[i] == ids[i];
      if exists i :: 0 <= i < |ids| && AtLevel(b, side, ids[i], p) {
        var i :| 0 <= i < |ids| && AtLevel(b, side, ids[i], p);
        if i < |init| {
          assert AtLevel(b, side, init[i], p);
        }
      }
    }
  }

  /** Price `a` goes before price `c`: higher first for bids, lower first for asks. */
  predicate Before(a: real, c: real, descending: bool) {
    if descending then a > c else a < c
  }

  /** Levels in strictly decreasing (bids) or increasing (asks) price order. */
  predicate Ordered(levels: Levels, descending: bool) {
    forall i, j :: 0 <= i < j < |levels| ==> Before(levels[i].0, levels[j].0, descending)
  }

  function InsertSorted(x: (real, int), sorted: Levels, descending: bool): (r: Levels)
    requires Ordered(sorted, descending)
    requires forall i :: 0 <= i < |sorted| ==> sorted[i].0 != x.0
    ensures Ordered(r, descending)
    ensures |r| == |sorted| + 1
    ensures forall y :: y in r <==> y == x || y in sorted
    decreases |sorted|
  {
    if |sorted| == 0 || Before(x.0, sorted[0].0, descending) then [x] + sorted
    else
      var rest := InsertSorted(x, sorted[1..], descending);
      var r := [sorted[0]] + rest;
      assert forall i :: 1 <= i < |r| ==> r[i] == rest[i - 1] && Before(sorted[0].0, r[i].0, descending) by {
        forall i | 1 <= i < |r|
          ensures r[i] == rest[i - 1] && Before(sorted[0].0, r[i].0, descending)
        {
          if rest[i - 1] != x {
            assert rest[i - 1] in sorted[1..];
            var k :| 0 <= k < |sorted[1..]| && sorted[1..][k] == rest[i - 1];
            assert sorted[k + 1] == rest[i - 1];
          }
        }
      }
      r
  }

  /** `sorted(levels, key=...)`: insertion sort by price. */
  function SortLevels(levels: Levels, descending: bool): (r: Levels)
    requires DistinctPrices(levels)
    ensures Ordered(r, descending)
    ensures |r| == |levels|
    ensures forall y :: y in r <==> y in levels
    decreases |levels|
  {
    if |levels| == 0 then []
    else
      var rest := SortLevels(levels[1..], descending);
      assert forall i :: 0 <= i < |rest| ==> rest[i].0 != levels[0].0 by {
        forall i | 0 <= i < |rest|
          ensures rest[i].0 != levels[0].0
        {
          assert rest[i] in levels[1..];
          var k :| 0 <= k < |levels[1..]| && levels[1..][k] == rest[i];
          assert levels[k + 1] == rest[i];
        }
      }
      var r := InsertSorted(levels[0], rest, descending);
      assert forall y :: y in levels <==> y == levels[0] || y in levels[1..] by {
        assert levels == [levels[0]] + levels[1..];
      }
      r
  }

  /** `depth()`: the bid levels and the ask levels. */
  function Depth(b: Book): (Levels, Levels) {
    (SortLevels(Accumulate(b, Buy, b.ids), true), SortLevels(Accumulate(b, Sell, b.ids), false))
  }

  /**
   * The reported levels of a side run best price first; each is a price where live
   * orders of that side rest, with their summed (positive) quantity; and every
   * live order's price is reported.
   */
  lemma DepthLevels(b: Book, side: Side)
    ensures var levels := if side == Buy then Depth(b).0 else Depth(b).1;
      Ordered(levels, side == Buy)
      && (forall i :: 0 <= i < |levels| ==>
            levels[i].1 == LevelQty(b, side, b.ids, levels[i].0) > 0
            && exists k :: 0 <= k < |b.ids| && AtLevel(b, side, b.ids[k], levels[i].0))
      && (forall k :: 0 <= k < |b.ids| && b.ids[k] in b.orders && AtLevel(b, side, b.ids[k], b.orders[b.ids[k]].price) ==>
            exists i :: 0 <= i < |levels| && levels[i].0 == b.orders[b.ids[k]].price)
  {
    var acc := Accumulate(b, side, b.ids);
    var levels := if side == Buy then Depth(b).0 else Depth(b).1;
    assert levels == SortLevels(acc, side == Buy);
    SortedLevelsAreLive(b, side, levels);
    LivePricesAreLevels(b, side, levels);
  }

  /** Every level of a permutation of the accumulated levels is a live price with its summed quantity. */
  lemma SortedLevelsAreLive(b: Book, side: Side, levels: Levels)
    requires forall y :: y in levels <==> y in Accumulate(b, side, b.ids)
    ensures forall i :: 0 <= i < |levels| ==>
      levels[i].1 == LevelQty(b, side, b.ids, levels[i].0) > 0
      && exists k :: 0 <= k < |b.ids| && AtLevel(b, side, b.ids[k], levels[i].0)
  {
    var acc := Accumulate(b, side, b.ids);
    forall i | 0 <= i < |levels|
      ensures levels[i].1 == LevelQty(b, side, b.ids, levels[i].0) > 0
      ensures exists k :: 0 <= k < |b.ids| && AtLevel(b, side, b.ids[k], levels[i].0)
    {
      assert levels[i] in acc;
      var j :| 0 <= j < |acc| && acc[j] == levels[i];
      LookupOfDistinct(acc, j);
      AccumulateSums(b, side, b.ids, levels[i].0);
    }
  }

  /** Every live order's price appears among a permutation of the accumulated levels. */
  lemma LivePricesAreLevels(b: Book, side: Side, levels: Levels)
    requires forall y :: y in levels <==> y in Accumulate(b, side, b.ids)
    ensures forall k :: 0 <= k < |b.ids| && b.ids[k] in b.orders && AtLevel(b, side, b.ids[k], b.orders[b.ids[k]].price) ==>
      exists i :: 0 <= i < |levels| && levels[i].0 == b.orders[b.ids[k]].price
  {
    var acc := Accumulate(b, side, b.ids);
    forall k | 0 <= k < |b.ids| && b.ids[k] in b.orders && AtLevel(b, side, b.ids[k], b.orders[b.ids[k]].price)
      ensures exists i :: 0 <= i < |levels| && levels[i].0 == b.orders[b.ids[k]].price
    {
      var p := b.orders[b.ids[k]].price;
      AccumulateSums(b, side, b.ids, p);
      LookupIn(acc, p);
      var j :| 0 <= j < |acc| && acc[j] == (p, Lookup(acc, p).value);
      assert acc[j] in levels;
      var i :| 0 <= i < |levels| && levels[i] == acc[j];
    }
  }

  lemma {:induction false} LookupOfDistinct(levels: Levels, j: nat)
    requires DistinctPrices(levels) && j < |levels|
    ensures Lookup(levels, levels[j].0) == Some(levels[j].1)
    decreases j
  {
    if j > 0 {
      assert levels[0].0 != levels[j].0;
      LookupOfDistinct(levels[1..], j - 1);
    }
  }
}
