/**
 * The trading system's limit order book with price-time priority. Records are kept
 * by order id; each side's heap is modelled as the bag of (price key, seq, id,
 * version) entries pushed onto it, and the best order of a side is the least entry
 * that is still valid for its record. Adding or modifying an order matches it
 * against the opposite side while the prices cross.
 */
module OrderBook {
  import opened Wrappers
  import opened Text

  datatype Side = Buy | Sell

  function Opposite(s: Side): Side {
    if s == Buy then Sell else Buy
  }

  /** A number as a caller passes it: a Python int or float. */
  datatype Num = IntNum(i: int) | FloatNum(x: real)

  /** `float(n)`. */
  function AsFloat(n: Num): real {
    match n
    case IntNum(i) => i as real
    case FloatNum(x) => x
  }

  /** `int(n)`: a float is truncated toward zero. */
  function AsInt(n: Num): int {
    match n
    case IntNum(i) => i
    case FloatNum(x) => TruncToInt(x)
  }

  /** An order as `add_order` receives it (a dict or an Order-like object); any field may be missing. */
  datatype Incoming = Incoming(
    id: Option<int>, side: Option<string>, symbol: Option<string>,
    price: Option<Num>, qty: Option<Num>, ts: Option<Num>)

  /** The internal record of an order; the order id is its key in the book. */
  datatype Rec = Rec(
    side: Side, symbol: Option<string>, price: real, qty: int, ts: real,
    active: bool, seqNum: int, version: int)

  /** A heap entry: price key (negated price for bids), seq, order id, version. */
  datatype Entry = Entry(key: real, seqNum: int, id: int, version: int)

  /** One fill: buyer id, seller id, price and quantity (the wall-clock stamp is not modelled). */
  datatype Trade = Trade(buyId: int, sellId: int, price: real, qty: int)

  /** The book: records by id, their ids in insertion order, the seq counter and both heaps. */
  datatype Book = Book(orders: map<int, Rec>, ids: seq<int>, lastSeq: int, bids: seq<Entry>, asks: seq<Entry>)

  const Empty := Book(map[], [], 0, [], [])

  /** An order that can trade: active with a positive quantity. */
  predicate Live(r: Rec) {
    r.active && r.qty > 0
  }

  function Key(r: Rec): real {
    if r.side == Buy then -r.price else r.price
  }

  /** The entry `_push` makes for a record. */
  function EntryOf(id: int, r: Rec): Entry {
    Entry(Key(r), r.seqNum, id, r.version)
  }

  function Heap(b: Book, side: Side): seq<Entry> {
    if side == Buy then b.bids else b.asks
  }

  /** `_push`: the record's entry goes onto its side's heap. */
  function Push(b: Book, id: int, r: Rec): (r': Book)
    ensures Heap(r', r.side) == Heap(b, r.side) + [EntryOf(id, r)]
    ensures Heap(r', Opposite(r.side)) == Heap(b, Opposite(r.side))
    ensures r'.orders == b.orders && r'.ids == b.ids && r'.lastSeq == b.lastSeq
  {
    if r.side == Buy then b.(bids := b.bids + [EntryOf(id, r)]) else b.(asks := b.asks + [EntryOf(id, r)])
  }

  /** The test `_best` applies to the entry on top of a heap before it trusts it. */
  predicate Valid(b: Book, side: Side, e: Entry) {
    e.id in b.orders
    && b.orders[e.id].active && b.orders[e.id].qty > 0
    && b.orders[e.id].version == e.version && b.orders[e.id].side == side
  }

  /** Tuple order on entries, as the heap compares them. */
  predicate EntryLe(a: Entry, c: Entry) {
    a.key < c.key
    || (a.key == c.key && (a.seqNum < c.seqNum
      || (a.seqNum == c.seqNum && (a.id < c.id || (a.id == c.id && a.version <= c.version)))))
  }

  /** The least valid entry among `es`: what the heap top is once stale entries are popped. */
  function MinValid(b: Book, side: Side, es: seq<Entry>): (r: Option<Entry>)
    ensures r.Some? ==> r.value in es && Valid(b, side, r.value)
    decreases |es|
  {
    if |es| == 0 then None
    else
      var rest := MinValid(b, side, es[..|es| - 1]);
      var e := es[|es| - 1];
      if !Valid(b, side, e) then rest
      else if rest.Some? && EntryLe(rest.value, e) then rest
      else Some(e)
  }

  /** `_best(side)`: the id of the best live order on a side, if any. */
  function Best(b: Book, side: Side): (r: Option<int>)
    ensures r.Some? ==> r.value in b.orders && Live(b.orders[r.value]) && b.orders[r.value].side == side
  {
    match MinValid(b, side, Heap(b, side))
    case None => None
    case Some(e) => Some(e.id)
  }

  function BestBid(b: Book): Option<real> {
    match Best(b, Buy)
    case None => None
    case Some(id) => Some(b.orders[id].price)
  }

  function BestAsk(b: Book): Option<real> {
    match Best(b, Sell)
    case None => None
    case Some(id) => Some(b.orders[id].price)
  }

  /** `_crosses`: a buy crosses an ask at or below its price, a sell a bid at or above. */
  predicate Crosses(incoming: Rec, restingPrice: real) {
    if incoming.side == Buy then incoming.price >= restingPrice else incoming.price <= restingPrice
  }

  function SideOf(word: Option<string>): Option<Side> {
    if word == Some("BUY") then Some(Buy) else if word == Some("SELL") then Some(Sell) else None
  }

  /** `_normalize`: the record for an incoming order and the advanced seq counter, or the ValueError text. */
  function Normalize(b: Book, o: Incoming, now: real): (r: Result<(int, Rec), string>)
    ensures o.id.None? <==> r == Err("order_id is required")
    ensures o.id.Some? && SideOf(o.side).None? <==> r == Err("side must be BUY or SELL")
    ensures o.id.Some? && SideOf(o.side).Some? && (o.price.None? || o.qty.None?) <==>
      r == Err("price and qty are required")
    ensures r.Ok? ==> (
      r.value.0 == o.id.value && r.value.1.active && r.value.1.seqNum == b.lastSeq + 1
      && r.value.1.price == AsFloat(o.price.value) && r.value.1.qty == AsInt(o.qty.value)
      && Some(r.value.1.side) == SideOf(o.side)
      && r.value.1.version == (if o.id.value in b.orders then b.orders[o.id.value].version else 0) + 1)
  {
    if o.id.None? then Err("order_id is required")
    else if SideOf(o.side).None? then Err("side must be BUY or SELL")
    else if o.price.None? || o.qty.None? then Err("price and qty are required")
    else
      var id := o.id.value;
      var version := (if id in b.orders then b.orders[id].version else 0) + 1;
      var ts := if o.ts.Some? then AsFloat(o.ts.value) else now;
      Ok((id, Rec(SideOf(o.side).value, o.symbol, AsFloat(o.price.value), AsInt(o.qty.value), ts, true, b.lastSeq + 1, version)))
  }

  /** Store a record under its id (a new id goes last in insertion order) and push its entry. */
  function Insert(b: Book, id: int, r: Rec): (r': Book)
    ensures r'.orders == b.orders[id := r] && r'.lastSeq == r.seqNum
    ensures r'.ids == if id in b.orders then b.ids else b.ids + [id]
    ensures Heap(r', r.side) == Heap(b, r.side) + [EntryOf(id, r)]
    ensures Heap(r', Opposite(r.side)) == Heap(b, Opposite(r.side))
  {
    var ids := if id in b.orders then b.ids else b.ids + [id];
    Push(b.(orders := b.orders[id := r], ids := ids, lastSeq := r.seqNum), id, r)
  }

  /**
   * One pass of the `_match` loop body: the incoming order trades with the resting
   * one at the resting price for the smaller of the two quantities; both are reduced
   * by it, and a resting order left with nothing is deactivated.
   */
  function Fill(b: Book, id: int, rid: int): (r: (Book, Trade))
    requires id in b.orders && rid in b.orders && id != rid
    ensures var inc := b.orders[id]; var rest := b.orders[rid];
      var q := r.1.qty;
      q == (if inc.qty <= rest.qty then inc.qty else rest.qty)
      && r.1.price == rest.price
      && r.1.buyId == (if inc.side == Buy then id else rid)
      && r.1.sellId == (if inc.side == Sell then id else rid)
      && r.0.orders == b.orders[id := inc.(qty := inc.qty - q)][rid := rest.(qty := rest.qty - q, active := rest.active && rest.qty - q > 0)]
      && r.0.ids == b.ids && r.0.lastSeq == b.lastSeq && r.0.bids == b.bids && r.0.asks == b.asks
  {
    var inc := b.orders[id];
    var rest := b.orders[rid];
    var q := if inc.qty <= rest.qty then inc.qty else rest.qty;
    var trade := Trade(if inc.side == Buy then id else rid, if inc.side == Sell then id else rid, rest.price, q);
    var orders := b.orders[id := inc.(qty := inc.qty - q)][rid := rest.(qty := rest.qty - q, active := rest.active && rest.qty - q > 0)];
    (b.(orders := orders), trade)
  }

  /** `_match`: trade the order `id` against the opposite side until it is used up or the prices no longer cross. */
  function Match(b: Book, id: int): (r: (Book, seq<Trade>))
    requires id in b.orders
    decreases if b.orders[id].qty > 0 then b.orders[id].qty else 0
  {
    var inc := b.orders[id];
    if inc.qty <= 0 then (b.(orders := b.orders[id := inc.(active := false)]), [])
    else match Best(b, Opposite(inc.side))
      case None => (b, [])
      case Some(rid) =>
        if !Crosses(inc, b.orders[rid].price) then (b, [])
        else
          var f := Fill(b, id, rid);
          var m := Match(f.0, id);
          (m.0, [f.1] + m.1)
  }

  /** `add_order`: normalise, store, push and match; a ValueError leaves the book as it was. */
  function AddOrder(b: Book, o: Incoming, now: real): (r: Result<(Book, seq<Trade>), string>)
    ensures r.Err? <==> Normalize(b, o, now).Err?
    ensures r.Err? ==> r.error == Normalize(b, o, now).error
  {
    match Normalize(b, o, now)
    case Err(msg) => Err(msg)
    case Ok(n) => Ok(Match(Insert(b, n.0, n.1), n.0))
  }

  /**
   * `modify_order`: an unknown or inactive id changes nothing and trades nothing;
   * otherwise the new quantity and price are applied, the order takes a fresh seq
   * and version, is pushed again and re-matched.
   */
  function ModifyOrder(b: Book, id: int, newQty: Option<Num>, newPrice: Option<Num>, now: real): (r: (Book, seq<Trade>))
    ensures id !in b.orders || !b.orders[id].active ==> r == (b, [])
  {
    if id !in b.orders || !b.orders[id].active then (b, [])
    else
      Match(Insert(b, id, Modified(b, id, newQty, newPrice, now)), id)
  }

  /** The record `modify_order` re-matches. */
  function Modified(b: Book, id: int, newQty: Option<Num>, newPrice: Option<Num>, now: real): Rec
    requires id in b.orders
  {
    var prev := b.orders[id];
    prev.(qty := if newQty.Some? then AsInt(newQty.value) else prev.qty,
         price := if newPrice.Some? then AsFloat(newPrice.value) else prev.price,
         ts := now, seqNum := b.lastSeq + 1, version := prev.version + 1)
  }

  /** `cancel_order`: an unknown or inactive id gives false and no change; otherwise the order is emptied, deactivated and re-versioned. */
  function CancelOrder(b: Book, id: int): (r: (Book, bool))
    ensures !r.1 <==> id !in b.orders || !b.orders[id].active
    ensures !r.1 ==> r.0 == b
    ensures r.1 ==> r.0 == b.(orders := b.orders[id := b.orders[id].(active := false, qty := 0, version := b.orders[id].version + 1)])
  {
    if id !in b.orders || !b.orders[id].active then (b, false)
    else (b.(orders := b.orders[id := b.orders[id].(active := false, qty := 0, version := b.orders[id].version + 1)]), true)
  }
}
