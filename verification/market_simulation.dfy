/**
 * The multi-strategy market simulation: strategies vote per symbol and bar, the
 * strict plurality decides the action, the position size is capped by volume and
 * cash, and orders update a per-symbol holding with a weighted average price.
 */
module MarketSimulation {
  import opened Wrappers
  import opened Series
  import opened Text

  datatype SimOrder = SimOrder(symbol: string, quantity: real, price: real, status: string)

  /** One portfolio entry: net quantity, average price and the orders that built it. */
  datatype Holding = Holding(quantity: real, avgPrice: real, orders: seq<SimOrder>)

  /** The simulation's state and its fixed parameters (`order_retries`, `adv_limit`, `transaction_cost`). */
  datatype Sim = Sim(cash: real, portfolio: map<string, Holding>, retries: int, advLimit: real, cost: real)

  const EmptyHolding := Holding(0.0, 0.0, [])

  function HoldingOf(s: Sim, symbol: string): Holding {
    if symbol in s.portfolio then s.portfolio[symbol] else EmptyHolding
  }

  function Abs(x: real): real {
    if x < 0.0 then -x else x
  }

  /** `order.quantity == int(order.quantity)`. */
  predicate Integral(x: real) {
    TruncToInt(x) as real == x
  }

  /** The two OrderError checks: a zero or fractional quantity, or a falsy symbol, quantity, price or status. */
  predicate Rejected(o: SimOrder) {
    o.quantity == 0.0 || !Integral(o.quantity) || o.symbol == "" || o.price == 0.0 || o.status == ""
  }

  /** The holding after adding a signed quantity at a price: net quantity and weighted average, 0 when flat. */
  function Added(h: Holding, o: SimOrder): (r: Holding)
    ensures r.quantity == h.quantity + o.quantity
    ensures r.quantity != 0.0 ==> r.avgPrice * r.quantity == h.avgPrice * h.quantity + o.price * o.quantity
    ensures r.quantity == 0.0 ==> r.avgPrice == 0.0
    ensures r.orders == h.orders + [o]
  {
    var net := h.quantity + o.quantity;
    Holding(net, if net != 0.0 then (h.avgPrice * h.quantity + o.price * o.quantity) / net else 0.0, h.orders + [o])
  }

  /**
   * `execute_order`. A rejected order is marked "CANCELLED" in its symbol and changes
   * nothing else. Otherwise the first retry always succeeds: the holding absorbs the
   * order (marked FILLED), cash pays quantity times price plus the proportional cost,
   * and no other symbol changes. With no retries at all only an existing holding,
   * updated in place, is affected.
   */
  function ExecuteOrder(s: Sim, o: SimOrder): (r: (Sim, SimOrder))
    ensures Rejected(o) ==> r.0 == s && r.1 == o.(symbol := "CANCELLED")
    ensures !Rejected(o) && s.retries >= 1 ==>
      r.1 == o.(status := "FILLED")
      && r.0.portfolio == s.portfolio[o.symbol := Added(HoldingOf(s, o.symbol), r.1)]
      && r.0.cash == s.cash - (o.quantity * o.price + s.cost * Abs(o.quantity * o.price))
    ensures !Rejected(o) && s.retries < 1 ==> r.1 == o && r.0.cash == s.cash
    ensures r.0.retries == s.retries && r.0.advLimit == s.advLimit && r.0.cost == s.cost
    ensures forall x :: x != o.symbol ==> HoldingOf(r.0, x) == HoldingOf(s, x)
  {
    if Rejected(o) then (s, o.(symbol := "CANCELLED"))
    else if s.retries >= 1 then
      var filled := o.(status := "FILLED");
      (s.(portfolio := s.portfolio[o.symbol := Added(HoldingOf(s, o.symbol), filled)],
          cash := s.cash - (o.quantity * o.price + s.cost * Abs(o.quantity * o.price))), filled)
    else if o.symbol in s.portfolio then
      (s.(portfolio := s.portfolio[o.symbol := Added(HoldingOf(s, o.symbol), o)]), o)
    else (s, o)
  }

  /** How many strategies voted for an action. */
  function Count(votes: seq<Action>, a: Action): nat {
    multiset(votes)[a]
  }

  /** One step of Python's stable descending sort: `a` goes after every action counted at least as often. */
  function InsertByCount(votes: seq<Action>, a: Action, sorted: seq<Action>): (r: seq<Action>)
    ensures |r| == |sorted| + 1
  {
    if |sorted| == 0 then [a]
    else if Count(votes, sorted[0]) >= Count(votes, a) then
      [sorted[0]] + InsertByCount(votes, a, sorted[1..])
    else [a] + sorted
  }

  /** `sorted(action_count, key=action_count.get, reverse=True)` over BUY, SELL, HOLD. */
  function RankActions(votes: seq<Action>): (r: seq<Action>)
    ensures |r| == 3
  {
    InsertByCount(votes, Hold, InsertByCount(votes, Sell, [Buy]))
  }

  /** The combined action: the top-ranked action unless its count ties the runner-up, else HOLD. */
  function Combine(votes: seq<Action>): (r: Action) {
    var ranked := RankActions(votes);
    if Count(votes, ranked[0]) != Count(votes, ranked[1]) then ranked[0] else Hold
  }

  /** The combined action is the strict plurality: BUY or SELL exactly when it outvotes both others; a tie for first gives HOLD. */
  lemma CombineIsPlurality(votes: seq<Action>)
    ensures Combine(votes) == Buy <==> Count(votes, Buy) > Count(votes, Sell) && Count(votes, Buy) > Count(votes, Hold)
    ensures Combine(votes) == Sell <==> Count(votes, Sell) > Count(votes, Buy) && Count(votes, Sell) > Count(votes, Hold)
  {
    var b, s, h := Count(votes, Buy), Count(votes, Sell), Count(votes, Hold);
    var first := InsertByCount(votes, Sell, [Buy]);
    if b >= s {
      assert first == [Buy] + InsertByCount(votes, Sell, [Buy][1..]);
      assert [Buy][1..] == [];
    } else {
      assert first == [Sell] + [Buy];
    }
    var ranked := RankActions(votes);
    assert ranked == InsertByCount(votes, Hold, first);
    assert [Buy, Sell][1..] == [Sell] && [Sell, Buy][1..] == [Buy];
    assert InsertByCount(votes, Hold, [Buy]) == (if b >= h then [Buy, Hold] else [Hold, Buy]);
    assert InsertByCount(votes, Hold, [Sell]) == (if s >= h then [Sell, Hold] else [Hold, Sell]);
    if b >= s {
      assert ranked == (if s >= h then [Buy, Sell, Hold] else if b >= h then [Buy, Hold, Sell] else [Hold, Buy, Sell]);
    } else {
      assert ranked == (if s >= h then (if b >= h then [Sell, Buy, Hold] else [Sell, Hold, Buy]) else [Hold, Sell, Buy]);
    }
  }

  /** The ways sizing fails in Python: dividing by a zero cost-adjusted price. */
  datatype SimFault = ZeroDivision

  /** The BUY size: the smaller of the volume cap `int(cap)` and the affordable whole units `cash // unit`. */
  function BuySize(cap: real, cash: real, unit: real): real
    requires unit != 0.0
  {
    var maxSize := TruncToInt(cap) as real;
    var possible := FloorDiv(cash, unit);
    if maxSize <= possible then maxSize else possible
  }

  /** The BUY branch: the cost-adjusted unit price `price * (1 + cost)` divides the cash. */
  function BuyPosition(s: Sim, price: real, volume: real): (r: Result<real, SimFault>)
    ensures r.Err? <==> price * (1.0 + s.cost) == 0.0
    ensures r.Ok? ==> r.value == BuySize(s.advLimit * volume, s.cash, price * (1.0 + s.cost))
  {
    var unit := price * (1.0 + s.cost);
    if unit == 0.0 then Err(ZeroDivision)
    else Ok(BuySize(s.advLimit * volume, s.cash, unit))
  }

  /**
   * `calc_position_size`. BUY: the smaller of the volume cap `int(adv_limit * volume)`
   * and the affordable `cash // (price * (1 + cost))`. SELL: the whole holding when it
   * is positive. Otherwise 0.
   */
  function PositionSize(s: Sim, symbol: string, price: real, volume: real, action: Action): (r: Result<real, SimFault>)
    ensures r.Err? <==> action == Buy && price * (1.0 + s.cost) == 0.0
    ensures action == Sell && HoldingOf(s, symbol).quantity > 0.0 ==> r == Ok(HoldingOf(s, symbol).quantity)
    ensures action == Hold || (action == Sell && HoldingOf(s, symbol).quantity <= 0.0) ==> r == Ok(0.0)
  {
    if action == Buy then BuyPosition(s, price, volume)
    else if action == Sell && HoldingOf(s, symbol).quantity > 0.0 then Ok(HoldingOf(s, symbol).quantity)
    else Ok(0.0)
  }

  /** At most `cash / unit` units of a positive unit price cost at most the cash. */
  lemma WithinBudget(size: real, cash: real, unit: real)
    requires unit > 0.0 && size <= cash / unit
    ensures size * unit <= cash
  {
    assert cash / unit * unit == cash;
  }

  /** The fee-inclusive cost of a non-negative purchase is its size times the cost-adjusted price. */
  lemma FeeInclusive(size: real, price: real, cost: real)
    requires size >= 0.0 && price > 0.0
    ensures size * price + cost * Abs(size * price) == size * (price * (1.0 + cost))
  {
    assert size * price >= 0.0;
  }

  /**
   * A BUY is always affordable and within the volume cap: with non-negative cash,
   * positive price, non-negative cost and volume cap, the size is a whole number of
   * at most `adv_limit * volume` shares whose cost including fees is at most the cash.
   */
  lemma BuySizeAffordable(s: Sim, symbol: string, price: real, volume: real)
    requires s.cash >= 0.0 && price > 0.0 && s.cost >= 0.0 && s.advLimit * volume >= 0.0
    ensures var r := PositionSize(s, symbol, price, volume, Buy);
      r.Ok? && 0.0 <= r.value <= s.advLimit * volume && Integral(r.value)
      && CostWithFees(r.value, price, s.cost) <= s.cash
  {
    assert PositionSize(s, symbol, price, volume, Buy) == BuyPosition(s, price, volume);
    BuyPositionAffordable(s, price, volume);
  }

  lemma BuyPositionAffordable(s: Sim, price: real, volume: real)
    requires s.cash >= 0.0 && price > 0.0 && s.cost >= 0.0 && s.advLimit * volume >= 0.0
    ensures var r := BuyPosition(s, price, volume);
      r.Ok? && 0.0 <= r.value <= s.advLimit * volume && Integral(r.value)
      && CostWithFees(r.value, price, s.cost) <= s.cash
  {
    var unit, cap := price * (1.0 + s.cost), s.advLimit * volume;
    PositiveUnit(price, s.cost);
    BuyPositionIs(s, price, volume, cap, unit);
    BuyWithin(cap, s.cash, price, s.cost, unit);
  }

  lemma BuyPositionIs(s: Sim, price: real, volume: real, cap: real, unit: real)
    requires unit == price * (1.0 + s.cost) && unit > 0.0 && cap == s.advLimit * volume
    ensures BuyPosition(s, price, volume) == Ok(BuySize(cap, s.cash, unit))
  {
  }

  /** The BUY size for a non-negative cap and cash at a positive cost-adjusted price: a whole number within the cap that the cash covers, fees included. */
  lemma BuyWithin(cap: real, cash: real, price: real, cost: real, unit: real)
    requires cash >= 0.0 && cap >= 0.0 && price > 0.0 && unit == price * (1.0 + cost) && unit > 0.0
    ensures var size := BuySize(cap, cash, unit);
      0.0 <= size <= cap && Integral(size) && CostWithFees(size, price, cost) <= cash
  {
    var size := BuySize(cap, cash, unit);
    BuySizeBounds(cap, cash, unit);
    Affordable(size, cash, price, cost, unit);
  }

  lemma BuySizeBounds(cap: real, cash: real, unit: real)
    requires cash >= 0.0 && unit > 0.0 && cap >= 0.0
    ensures var size := BuySize(cap, cash, unit);
      0.0 <= size <= cash / unit && size <= cap && Integral(size)
  {
    var maxSize := TruncToInt(cap);
    var possible := (cash / unit).Floor;
    assert FloorDiv(cash, unit) == possible as real;
    assert cash / unit >= 0.0;
    assert 0 <= possible && possible as real <= cash / unit;
    assert 0 <= maxSize && maxSize as real <= cap;
    assert TruncToInt(maxSize as real) == maxSize;
    assert TruncToInt(possible as real) == possible;
  }

  /** What `execute_order` deducts for buying `size` units at `price`: the notional plus the fee on its absolute value. */
  function CostWithFees(size: real, price: real, cost: real): real {
    size * price + cost * Abs(size * price)
  }

  lemma PositiveUnit(price: real, cost: real)
    requires price > 0.0 && cost >= 0.0
    ensures price * (1.0 + cost) > 0.0
  {
  }

  /** A non-negative size of at most `cash / unit` units, at the cost-adjusted unit price, costs at most the cash with fees. */
  lemma Affordable(size: real, cash: real, price: real, cost: real, unit: real)
    requires unit == price * (1.0 + cost) && unit > 0.0 && price > 0.0
    requires 0.0 <= size <= cash / unit
    ensures CostWithFees(size, price, cost) <= cash
  {
    WithinBudget(size, cash, unit);
    FeeInclusive(size, price, cost);
  }

  /** The per-symbol work of one bar of `run_simulation`, given the strategies' votes and the bar's close and volume. */
  function SimStep(s: Sim, votes: seq<Action>, symbol: string, price: real, volume: real): (r: Result<Sim, SimFault>)
    ensures r.Ok? ==> forall x :: x != symbol ==> HoldingOf(r.value, x) == HoldingOf(s, x)
  {
    var action := Combine(votes);
    match PositionSize(s, symbol, price, volume, action)
    case Err(e) => Err(e)
    case Ok(size) =>
      if size == 0.0 then Ok(s)
      else if action == Buy then Ok(ExecuteOrder(s, SimOrder(symbol, size, price, "OPEN")).0)
      else if action == Sell && HoldingOf(s, symbol).quantity > 0.0 then
        Ok(ExecuteOrder(s, SimOrder(symbol, -size, price, "OPEN")).0)
      else Ok(s)
  }

  /**
   * A SELL plurality liquidates: with a positive whole-number holding, a non-empty
   * symbol and a non-zero price, the holding drops to exactly 0 with average price 0
   * and the proceeds net of cost are credited. Without a holding nothing happens.
   */
  lemma SellLiquidates(s: Sim, votes: seq<Action>, symbol: string, price: real, volume: real)
    requires Count(votes, Sell) > Count(votes, Buy) && Count(votes, Sell) > Count(votes, Hold)
    requires s.retries >= 1 && symbol != "" && price != 0.0
    ensures var q := HoldingOf(s, symbol).quantity;
      q <= 0.0 ==> SimStep(s, votes, symbol, price, volume) == Ok(s)
    ensures var q := HoldingOf(s, symbol).quantity;
      q > 0.0 && Integral(q) ==>
        SimStep(s, votes, symbol, price, volume).Ok?
        && HoldingOf(SimStep(s, votes, symbol, price, volume).value, symbol).quantity == 0.0
        && HoldingOf(SimStep(s, votes, symbol, price, volume).value, symbol).avgPrice == 0.0
        && SimStep(s, votes, symbol, price, volume).value.cash == s.cash + q * price - s.cost * Abs(q * price)
  {
    CombineIsPlurality(votes);
    var q := HoldingOf(s, symbol).quantity;
    if q > 0.0 && Integral(q) {
      var o := SimOrder(symbol, -q, price, "OPEN");
      assert TruncToInt(-q) == -TruncToInt(q);
      assert !Rejected(o);
      assert Abs(-q * price) == Abs(q * price);
    }
  }
}
