/**
 * What matching guarantees: fills trade at resting prices within the incoming
 * order's limit, the traded total is what the incoming order lost, emptied orders
 * are deactivated, a modified order loses its time priority, and a book that was
 * not crossed stays uncrossed.
 */
module OrderBookMatching {
  import opened Wrappers
  import opened OrderBook
  import opened OrderBookInvariant

  /** No live bid is priced at or above a live ask. */
  predicate Uncrossed(b: Book) {
    forall i, j ::
      (i in b.orders && j in b.orders && Live(b.orders[i]) && Live(b.orders[j])
       && b.orders[i].side == Buy && b.orders[j].side == Sell) ==> b.orders[i].price < b.orders[j].price
  }

  /** Uncrossed, leaving aside the order `x`. */
  predicate UncrossedExcept(b: Book, x: int) {
    forall i, j ::
      (i in b.orders && j in b.orders && i != x && j != x && Live(b.orders[i]) && Live(b.orders[j])
       && b.orders[i].side == Buy && b.orders[j].side == Sell) ==> b.orders[i].price < b.orders[j].price
  }

  lemma ShrinksUncrossedExcept(b: Book, b2: Book, x: int)
    requires Shrinks(b, b2) && UncrossedExcept(b, x)
    ensures UncrossedExcept(b2, x)
  {
    forall i, j | i in b2.orders && j in b2.orders && i != x && j != x && Live(b2.orders[i]) && Live(b2.orders[j])
      && b2.orders[i].side == Buy && b2.orders[j].side == Sell
      ensures b2.orders[i].price < b2.orders[j].price
    {
      assert Live(b.orders[i]) && Live(b.orders[j]);
    }
  }

  /** Matching an order against a book uncrossed apart from it leaves the whole book uncrossed. */
  lemma {:induction false} MatchUncrosses(b: Book, id: int)
    requires Inv(b) && id in b.orders && UncrossedExcept(b, id)
    ensures Uncrossed(Match(b, id).0)
    decreases if b.orders[id].qty > 0 then b.orders[id].qty else 0
  {
    var inc := b.orders[id];
    var other := Opposite(inc.side);
    if inc.qty > 0 {
      match Best(b, other)
      case None => StopsUncrossed(b, id);
      case Some(rid) =>
        if Crosses(inc, b.orders[rid].price) {
          var f := Fill(b, id, rid);
          FillShrinks(b, id, rid);
          InvShrinks(b, f.0);
          ShrinksUncrossedExcept(b, f.0, id);
          MatchUncrosses(f.0, id);
        } else {
          StopsUncrossed(b, id);
        }
    }
  }

  /** When the best opposite order does not cross (or there is none), the book is already uncrossed. */
  lemma StopsUncrossed(b: Book, id: int)
    requires Inv(b) && id in b.orders && UncrossedExcept(b, id) && b.orders[id].qty > 0
    requires var best := Best(b, Opposite(b.orders[id].side));
      best.None? || !Crosses(b.orders[id], b.orders[best.value].price)
    ensures Uncrossed(b)
  {
    var inc := b.orders[id];
    BestIsBestLive(b, Opposite(inc.side));
    forall j | j in b.orders && Live(b.orders[j]) && b.orders[j].side == Opposite(inc.side)
      ensures if inc.side == Buy then inc.price < b.orders[j].price else b.orders[j].price < inc.price
    {
    }
  }

  /** Adding an order to an uncrossed book leaves it uncrossed. */
  lemma AddOrderKeepsUncrossed(b: Book, o: Incoming, now: real)
    requires Inv(b) && Uncrossed(b)
    ensures AddOrder(b, o, now).Ok? ==> Uncrossed(AddOrder(b, o, now).value.0)
  {
    var n := Normalize(b, o, now);
    if n.Ok? {
      var b2 := Insert(b, n.value.0, n.value.1);
      InsertInv(b, n.value.0, n.value.1);
      MatchUncrosses(b2, n.value.0);
    }
  }

  /** Modifying an order of an uncrossed book leaves it uncrossed. */
  lemma ModifyOrderKeepsUncrossed(b: Book, id: int, newQty: Option<Num>, newPrice: Option<Num>, now: real)
    requires Inv(b) && Uncrossed(b)
    ensures Uncrossed(ModifyOrder(b, id, newQty, newPrice, now).0)
  {
    if id in b.orders && b.orders[id].active {
      var r := Modified(b, id, newQty, newPrice, now);
      InsertInv(b, id, r);
      MatchUncrosses(Insert(b, id, r), id);
    }
  }

  /** Cancelling keeps a book uncrossed. */
  lemma CancelOrderKeepsUncrossed(b: Book, id: int)
    requires Uncrossed(b)
    ensures Uncrossed(CancelOrder(b, id).0)
  {
    var b2 := CancelOrder(b, id).0;
    forall i, j | i in b2.orders && j in b2.orders && Live(b2.orders[i]) && Live(b2.orders[j])
      && b2.orders[i].side == Buy && b2.orders[j].side == Sell
      ensures b2.orders[i].price < b2.orders[j].price
    {
      assert Live(b.orders[i]) && Live(b.orders[j]);
    }
  }

  function TradedQty(ts: seq<Trade>): int {
    if |ts| == 0 then 0 else ts[0].qty + TradedQty(ts[1..])
  }

  /**
   * The quantity traded is what the incoming order lost; every fill has a positive
   * quantity at a price the incoming order crosses.
   */
  lemma {:induction false} MatchTrades(b: Book, id: int)
    requires id in b.orders
    ensures var m := Match(b, id);
      id in m.0.orders && TradedQty(m.1) == b.orders[id].qty - m.0.orders[id].qty
      && forall k :: 0 <= k < |m.1| ==> m.1[k].qty > 0 && Crosses(b.orders[id], m.1[k].price)
    decreases if b.orders[id].qty > 0 then b.orders[id].qty else 0
  {
    var inc := b.orders[id];
    if inc.qty > 0 {
      match Best(b, Opposite(inc.side))
      case None =>
      case Some(rid) =>
        if Crosses(inc, b.orders[rid].price) {
          var f := Fill(b, id, rid);
          MatchTrades(f.0, id);
          var m := Match(f.0, id);
          assert f.0.orders[id] == inc.(qty := inc.qty - f.1.qty);
          assert ([f.1] + m.1)[1..] == m.1;
          forall k | 0 <= k < |m.1| + 1
            ensures ([f.1] + m.1)[k].qty > 0 && Crosses(inc, ([f.1] + m.1)[k].price)
          {
            if k > 0 {
              assert ([f.1] + m.1)[k] == m.1[k - 1];
            }
          }
        }
    }
  }

  /** Every active order has something left to trade. */
  predicate Settled(b: Book) {
    forall id :: id in b.orders && b.orders[id].active ==> b.orders[id].qty > 0
  }

  predicate SettledExcept(b: Book, x: int) {
    forall id :: id in b.orders && id != x && b.orders[id].active ==> b.orders[id].qty > 0
  }

  /** Any order matching reduces to nothing, incoming or resting, ends inactive. */
  lemma {:induction false} MatchSettles(b: Book, id: int)
    requires id in b.orders && SettledExcept(b, id)
    ensures Settled(Match(b, id).0)
    decreases if b.orders[id].qty > 0 then b.orders[id].qty else 0
  {
    var inc := b.orders[id];
    if inc.qty > 0 {
      match Best(b, Opposite(inc.side))
      case None =>
      case Some(rid) =>
        if Crosses(inc, b.orders[rid].price) {
          MatchSettles(Fill(b, id, rid).0, id);
        }
    }
  }

  /** Adding, modifying and cancelling keep every active order non-empty. */
  lemma OperationsSettle(b: Book, o: Incoming, now: real, id: int, newQty: Option<Num>, newPrice: Option<Num>)
    requires Settled(b)
    ensures AddOrder(b, o, now).Ok? ==> Settled(AddOrder(b, o, now).value.0)
    ensures Settled(ModifyOrder(b, id, newQty, newPrice, now).0)
    ensures Settled(CancelOrder(b, id).0)
  {
    var n := Normalize(b, o, now);
    if n.Ok? {
      MatchSettles(Insert(b, n.value.0, n.value.1), n.value.0);
    }
    if id in b.orders && b.orders[id].active {
      MatchSettles(Insert(b, id, Modified(b, id, newQty, newPrice, now)), id);
    }
  }

  /**
   * A modified order is stored with a seq later than every order's, so it queues
   * behind all orders at its price, and with a new version, so every entry pushed
   * for it before is stale.
   */
  lemma ModifyLosesPriority(b: Book, id: int, newQty: Option<Num>, newPrice: Option<Num>, now: real)
    requires Inv(b) && id in b.orders && b.orders[id].active
    ensures var r := Modified(b, id, newQty, newPrice, now);
      var b2 := Insert(b, id, r);
      ModifyOrder(b, id, newQty, newPrice, now) == Match(b2, id)
      && (forall j :: j in b.orders ==> r.seqNum > b.orders[j].seqNum)
      && r.version == b.orders[id].version + 1
      && r.qty == (if newQty.Some? then AsInt(newQty.value) else b.orders[id].qty)
      && r.price == (if newPrice.Some? then AsFloat(newPrice.value) else b.orders[id].price)
      && (forall side: Side, e :: e in Heap(b, side) && e.id == id ==> !Valid(b2, side, e))
  {
  }
}
