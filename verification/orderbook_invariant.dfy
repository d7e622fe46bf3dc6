/**
 * The bookkeeping invariant of the order book's heaps and what follows from it:
 * the entry a side's heap yields is the live order with the best price, earliest
 * seq first, and every operation keeps the invariant.
 */
module OrderBookInvariant {
  import opened Wrappers
  import opened OrderBook

  /** No seq is ahead of the counter. */
  predicate SeqsIssued(b: Book) {
    forall id :: id in b.orders ==> b.orders[id].seqNum <= b.lastSeq
  }

  /** The insertion-order list names every order exactly once. */
  predicate IdsEnumerate(b: Book) {
    (forall i :: 0 <= i < |b.ids| ==> b.ids[i] in b.orders)
    && (forall id :: id in b.orders ==> id in b.ids)
    && (forall i, j :: 0 <= i < j < |b.ids| ==> b.ids[i] != b.ids[j])
  }

  /** Every entry names a stored order and a version it has had. */
  predicate EntriesKnown(b: Book, side: Side) {
    forall e :: e in Heap(b, side) ==> e.id in b.orders && e.version <= b.orders[e.id].version
  }

  /** A valid entry carries its record's current price key and seq. */
  predicate ValidEntriesCurrent(b: Book, side: Side) {
    forall e :: e in Heap(b, side) && Valid(b, side, e) ==> e == EntryOf(e.id, b.orders[e.id])
  }

  /** Every live order has its current entry on its side's heap. */
  predicate LiveCovered(b: Book) {
    forall id :: id in b.orders && Live(b.orders[id]) ==> EntryOf(id, b.orders[id]) in Heap(b, b.orders[id].side)
  }

  predicate Inv(b: Book) {
    SeqsIssued(b) && IdsEnumerate(b)
    && EntriesKnown(b, Buy) && EntriesKnown(b, Sell)
    && ValidEntriesCurrent(b, Buy) && ValidEntriesCurrent(b, Sell)
    && LiveCovered(b)
  }

  lemma EmptyInv()
    ensures Inv(Empty)
  {
  }

  lemma EntryLeTotal(a: Entry, c: Entry)
    ensures EntryLe(a, c) || EntryLe(c, a)
  {
  }

  lemma EntryLeTrans(a: Entry, c: Entry, d: Entry)
    requires EntryLe(a, c) && EntryLe(c, d)
    ensures EntryLe(a, d)
  {
  }

  /** The heap top after popping: no valid entry precedes it, and there is none at all only when no entry is valid. */
  lemma {:induction false} MinValidIsLeast(b: Book, side: Side, es: seq<Entry>)
    ensures MinValid(b, side, es).None? ==> forall e :: e in es ==> !Valid(b, side, e)
    ensures MinValid(b, side, es).Some? ==>
      forall e :: e in es && Valid(b, side, e) ==> EntryLe(MinValid(b, side, es).value, e)
    decreases |es|
  {
    if |es| > 0 {
      var init := es[..|es| - 1];
      var last := es[|es| - 1];
      MinValidIsLeast(b, side, init);
      assert forall e :: e in es ==> e in init || e == last by {
        assert es == init + [last];
      }
      var rest := MinValid(b, side, init);
      if Valid(b, side, last) {
        if rest.Some? && EntryLe(rest.value, last) {
        } else {
          forall e | e in es && Valid(b, side, e)
            ensures EntryLe(last, e)
          {
            if e in init {
              EntryLeTotal(rest.value, last);
              EntryLeTrans(last, rest.value, e);
            }
          }
        }
      }
    }
  }

  /**
   * `_best` picks the live order of the side with the best price (highest bid,
   * lowest ask), the earliest seq among equal prices; it finds none exactly when the
   * side has no live order. Stale, inactive, empty or wrong-side entries are never
   * chosen.
   */
  lemma BestIsBestLive(b: Book, side: Side)
    requires Inv(b)
    ensures Best(b, side).None? <==> forall id :: id in b.orders && Live(b.orders[id]) ==> b.orders[id].side != side
    ensures Best(b, side).Some? ==> forall j :: j in b.orders && Live(b.orders[j]) && b.orders[j].side == side ==>
      var r := b.orders[Best(b, side).value];
      Key(r) < Key(b.orders[j]) || (Key(r) == Key(b.orders[j]) && r.seqNum <= b.orders[j].seqNum)
  {
    var h := Heap(b, side);
    MinValidIsLeast(b, side, h);
    var m := MinValid(b, side, h);
    forall j | j in b.orders && Live(b.orders[j]) && b.orders[j].side == side
      ensures Valid(b, side, EntryOf(j, b.orders[j])) && EntryOf(j, b.orders[j]) in h
    {
    }
    if m.Some? {
      assert m.value == EntryOf(m.value.id, b.orders[m.value.id]);
    }
  }

  /**
   * `best_bid` is the highest price of a live buy and `best_ask` the lowest price of a
   * live sell; each is None exactly when that side has no live order.
   */
  lemma BestPrices(b: Book)
    requires Inv(b)
    ensures BestBid(b).None? <==> forall id :: id in b.orders && Live(b.orders[id]) ==> b.orders[id].side != Buy
    ensures BestBid(b).Some? ==>
      exists id :: id in b.orders && Live(b.orders[id]) && b.orders[id].side == Buy && b.orders[id].price == BestBid(b).value
    ensures BestBid(b).Some? ==> forall id :: id in b.orders && Live(b.orders[id]) && b.orders[id].side == Buy ==>
      b.orders[id].price <= BestBid(b).value
    ensures BestAsk(b).None? <==> forall id :: id in b.orders && Live(b.orders[id]) ==> b.orders[id].side != Sell
    ensures BestAsk(b).Some? ==>
      exists id :: id in b.orders && Live(b.orders[id]) && b.orders[id].side == Sell && b.orders[id].price == BestAsk(b).value
    ensures BestAsk(b).Some? ==> forall id :: id in b.orders && Live(b.orders[id]) && b.orders[id].side == Sell ==>
      BestAsk(b).value <= b.orders[id].price
  {
    BestIsBestLive(b, Buy);
    BestIsBestLive(b, Sell);
  }

  predicate SameShape(r: Rec, r': Rec) {
    r' == r.(qty := r'.qty, active := r'.active)
  }

  /** `b2` differs from `b` only in quantities that went down and orders that were deactivated. */
  predicate Shrinks(b: Book, b2: Book) {
    b2.orders.Keys == b.orders.Keys && b2.ids == b.ids && b2.lastSeq == b.lastSeq
    && b2.bids == b.bids && b2.asks == b.asks
    && forall id :: id in b.orders ==>
      SameShape(b.orders[id], b2.orders[id]) && b2.orders[id].qty <= b.orders[id].qty
      && (b2.orders[id].active ==> b.orders[id].active)
  }

  lemma ShrinksTrans(b: Book, b2: Book, b3: Book)
    requires Shrinks(b, b2) && Shrinks(b2, b3)
    ensures Shrinks(b, b3)
  {
  }

  lemma FillShrinks(b: Book, id: int, rid: int)
    requires id in b.orders && rid in b.orders && id != rid
    requires b.orders[id].qty > 0 && b.orders[rid].qty > 0
    ensures Shrinks(b, Fill(b, id, rid).0)
  {
  }

  /** Matching only lowers quantities and deactivates orders. */
  lemma {:induction false} MatchShrinks(b: Book, id: int)
    requires id in b.orders
    ensures Shrinks(b, Match(b, id).0)
    decreases if b.orders[id].qty > 0 then b.orders[id].qty else 0
  {
    var inc := b.orders[id];
    if inc.qty > 0 {
      match Best(b, Opposite(inc.side))
      case None =>
      case Some(rid) =>
        if Crosses(inc, b.orders[rid].price) {
          var f := Fill(b, id, rid);
          FillShrinks(b, id, rid);
          MatchShrinks(f.0, id);
          ShrinksTrans(b, f.0, Match(f.0, id).0);
        }
    }
  }

  /** Anything valid after shrinking was valid before, with the same record shape. */
  lemma InvShrinks(b: Book, b2: Book)
    requires Inv(b) && Shrinks(b, b2)
    ensures Inv(b2)
  {
    forall side: Side, e | e in Heap(b2, side) && Valid(b2, side, e)
      ensures e == EntryOf(e.id, b2.orders[e.id])
    {
      assert Valid(b, side, e);
      assert EntryOf(e.id, b2.orders[e.id]) == EntryOf(e.id, b.orders[e.id]);
    }
    forall id | id in b2.orders && Live(b2.orders[id])
      ensures EntryOf(id, b2.orders[id]) in Heap(b2, b2.orders[id].side)
    {
      assert Live(b.orders[id]);
      assert EntryOf(id, b2.orders[id]) == EntryOf(id, b.orders[id]);
    }
  }

  /** The precondition of storing a record: the next seq and a version newer than the id ever had. */
  predicate InsertAllowed(b: Book, id: int, r: Rec) {
    r.seqNum == b.lastSeq + 1
    && (id in b.orders ==> r.version > b.orders[id].version)
    && (id !in b.orders ==> r.version >= 1)
  }

  lemma InsertKeepsEntries(b: Book, id: int, r: Rec, side: Side)
    requires Inv(b) && InsertAllowed(b, id, r)
    ensures EntriesKnown(Insert(b, id, r), side) && ValidEntriesCurrent(Insert(b, id, r), side)
  {
    var b2 := Insert(b, id, r);
    forall e | e in Heap(b2, side)
      ensures e.id in b2.orders && e.version <= b2.orders[e.id].version
      ensures e.id == id && e != EntryOf(id, r) ==> !Valid(b2, side, e)
    {
      if e != EntryOf(id, r) {
        assert e in Heap(b, side);
      }
    }
  }

  lemma InsertKeepsCover(b: Book, id: int, r: Rec)
    requires Inv(b) && InsertAllowed(b, id, r)
    ensures LiveCovered(Insert(b, id, r))
  {
    var b2 := Insert(b, id, r);
    forall id2 | id2 in b2.orders && Live(b2.orders[id2])
      ensures EntryOf(id2, b2.orders[id2]) in Heap(b2, b2.orders[id2].side)
    {
      if id2 != id {
        assert EntryOf(id2, b.orders[id2]) in Heap(b, b.orders[id2].side);
      }
    }
  }

  lemma InsertKeepsIds(b: Book, id: int, r: Rec)
    requires Inv(b) && InsertAllowed(b, id, r)
    ensures IdsEnumerate(Insert(b, id, r)) && SeqsIssued(Insert(b, id, r))
  {
    if id !in b.orders {
      assert id !in b.ids;
    }
  }

  /** Storing a record with the next seq and a newer version than the id ever had keeps the invariant. */
  lemma InsertInv(b: Book, id: int, r: Rec)
    requires Inv(b)
    requires r.seqNum == b.lastSeq + 1
    requires id in b.orders ==> r.version > b.orders[id].version
    requires id !in b.orders ==> r.version >= 1
    ensures Inv(Insert(b, id, r))
  {
    InsertKeepsEntries(b, id, r, Buy);
    InsertKeepsEntries(b, id, r, Sell);
    InsertKeepsCover(b, id, r);
    InsertKeepsIds(b, id, r);
  }

  /** Matching keeps the invariant. */
  lemma MatchInv(b: Book, id: int)
    requires Inv(b) && id in b.orders
    ensures Inv(Match(b, id).0)
  {
    MatchShrinks(b, id);
    InvShrinks(b, Match(b, id).0);
  }

  /** Every operation of the book keeps the invariant. */
  lemma AddOrderInv(b: Book, o: Incoming, now: real)
    requires Inv(b)
    ensures AddOrder(b, o, now).Ok? ==> Inv(AddOrder(b, o, now).value.0)
  {
    var n := Normalize(b, o, now);
    if n.Ok? {
      InsertInv(b, n.value.0, n.value.1);
      MatchInv(Insert(b, n.value.0, n.value.1), n.value.0);
    }
  }

  lemma ModifyOrderInv(b: Book, id: int, newQty: Option<Num>, newPrice: Option<Num>, now: real)
    requires Inv(b)
    ensures Inv(ModifyOrder(b, id, newQty, newPrice, now).0)
  {
    if id in b.orders && b.orders[id].active {
      var r := Modified(b, id, newQty, newPrice, now);
      InsertInv(b, id, r);
      MatchInv(Insert(b, id, r), id);
    }
  }

  lemma CancelOrderInv(b: Book, id: int)
    requires Inv(b)
    ensures Inv(CancelOrder(b, id).0)
  {
    var b2 := CancelOrder(b, id).0;
    if CancelOrder(b, id).1 {
      forall side: Side, e | e in Heap(b2, side) && Valid(b2, side, e)
        ensures e == EntryOf(e.id, b2.orders[e.id])
      {
        assert Valid(b, side, e);
      }
      forall id2 | id2 in b2.orders && Live(b2.orders[id2])
        ensures EntryOf(id2, b2.orders[id2]) in Heap(b2, b2.orders[id2].side)
      {
        assert id2 != id;
        assert Live(b.orders[id2]);
      }
    }
  }
}
