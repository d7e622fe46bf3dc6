/** The order book cases of the trading system's tests, worked through the model. */
module OrderBookScenarios {
  import opened Wrappers
  import opened OrderBook
  import opened OrderBookDepth

  function Limit(id: int, side: string, price: int, qty: int): Incoming {
    Incoming(Some(id), Some(side), Some("ABC"), Some(IntNum(price)), Some(IntNum(qty)), None)
  }

  /** A resting buy of 5 at 100, after which nothing has traded. */
  lemma RestingBuy(now: real)
    ensures AddOrder(Empty, Limit(1, "BUY", 100, 5), now) ==
      Ok((Book(map[1 := Rec(Buy, Some("ABC"), 100.0, 5, now, true, 1, 1)], [1], 1, [Entry(-100.0, 1, 1, 1)], []), []))
  {
    var rec := Rec(Buy, Some("ABC"), 100.0, 5, now, true, 1, 1);
    assert SideOf(Some("BUY")) == Some(Buy);
    assert Normalize(Empty, Limit(1, "BUY", 100, 5), now) == Ok((1, rec));
    var b := Insert(Empty, 1, rec);
    assert b == Book(map[1 := rec], [1], 1, [Entry(-100.0, 1, 1, 1)], []);
    assert Best(b, Sell).None?;
    assert Match(b, 1) == (b, []);
  }

  /** The book after the sell of 10 traded with the resting buy: the buy emptied and deactivated, 5 left of the sell. */
  function AfterPartialFill(now: real): Book {
    var buy := Rec(Buy, Some("ABC"), 100.0, 5, now, true, 1, 1);
    var sell := Rec(Sell, Some("ABC"), 100.0, 10, now, true, 2, 1);
    Book(map[1 := buy.(qty := 0, active := false), 2 := sell.(qty := 5)], [1, 2], 2,
         [Entry(-100.0, 1, 1, 1)], [Entry(100.0, 2, 2, 1)])
  }

  /** The book with the sell of 10 stored next to the resting buy, before matching. */
  function BeforeMatch(now: real): Book {
    var buy := Rec(Buy, Some("ABC"), 100.0, 5, now, true, 1, 1);
    var sell := Rec(Sell, Some("ABC"), 100.0, 10, now, true, 2, 1);
    Book(map[1 := buy, 2 := sell], [1, 2], 2, [Entry(-100.0, 1, 1, 1)], [Entry(100.0, 2, 2, 1)])
  }

  /** Matching the sell of 10 against the resting buy of 5 trades 5 at the resting price and stops. */
  lemma PartialFillMatching(now: real)
    ensures Match(BeforeMatch(now), 2) == (AfterPartialFill(now), [Trade(1, 2, 100.0, 5)])
  {
    var b2 := BeforeMatch(now);
    var sell := b2.orders[2];
    assert MinValid(b2, Buy, b2.bids) == Some(Entry(-100.0, 1, 1, 1));
    assert Best(b2, Buy) == Some(1);
    var f := Fill(b2, 2, 1);
    assert f.1 == Trade(1, 2, 100.0, 5);
    var b3 := f.0;
    assert b3.orders == AfterPartialFill(now).orders;
    assert b3 == AfterPartialFill(now);
    assert !Valid(b3, Buy, Entry(-100.0, 1, 1, 1));
    assert MinValid(b3, Buy, b3.bids) == None;
    assert Match(b3, 2) == (b3, []);
    assert Opposite(Sell) == Buy && Crosses(sell, 100.0);
    assert [f.1] + [] == [f.1];
  }

  /** The sell of 10 is accepted, stored after the resting buy, then matched. */
  lemma PartialFillMatch(now: real)
    ensures var b1 := AddOrder(Empty, Limit(1, "BUY", 100, 5), now).value.0;
      AddOrder(b1, Limit(2, "SELL", 100, 10), now) == Ok((AfterPartialFill(now), [Trade(1, 2, 100.0, 5)]))
  {
    RestingBuy(now);
    var buy := Rec(Buy, Some("ABC"), 100.0, 5, now, true, 1, 1);
    var b1 := Book(map[1 := buy], [1], 1, [Entry(-100.0, 1, 1, 1)], []);
    var sell := Rec(Sell, Some("ABC"), 100.0, 10, now, true, 2, 1);
    assert Insert(b1, 2, sell) == BeforeMatch(now);
    assert SideOf(Some("SELL")) == Some(Sell);
    assert Normalize(b1, Limit(2, "SELL", 100, 10), now) == Ok((2, sell));
    PartialFillMatching(now);
  }

  /** That book shows 5 at 100 on the asks. */
  lemma PartialFillDepth(now: real)
    ensures Depth(AfterPartialFill(now)).1 == [(100.0, 5)]
  {
    var b3 := AfterPartialFill(now);
    var acc := Accumulate(b3, Sell, [1, 2]);
    assert [1, 2][..1] == [1];
    assert Accumulate(b3, Sell, [1]) == [] by {
      assert Accumulate(b3, Sell, []) == [];
    }
    assert acc == [(100.0, 5)];
    assert SortLevels(acc, false) == [(100.0, 5)];
  }

  /**
   * A sell of 10 at 100 against a resting buy of 5 at 100 trades 5 at the resting
   * price, empties and deactivates the buy, and leaves 5 on the asks at 100.
   */
  lemma PartialFillLeavesFiveOnAsks(now: real)
    ensures var b1 := AddOrder(Empty, Limit(1, "BUY", 100, 5), now).value.0;
      var r := AddOrder(b1, Limit(2, "SELL", 100, 10), now);
      r.Ok? && r.value.1 == [Trade(1, 2, 100.0, 5)] && Depth(r.value.0).1 == [(100.0, 5)]
  {
    PartialFillMatch(now);
    PartialFillDepth(now);
  }
}
