/**
 * The event-driven backtester's broker (market orders against cash and a single
 * position) and its engine, which trades each bar on the previous bar's signal.
 */
module Brokerage {
  import opened Wrappers
  import opened Text

  datatype Broker = Broker(cash: real, position: int)

  const DefaultCash: real := 1000000.0

  /** The ValueErrors `market_order` raises. */
  datatype BrokerError = InvalidQuantity | InsufficientFunds | NoPositionToSell | InvalidSide

  /** A quantity as Python receives it: None, or a number that may be fractional. */
  predicate ValidQuantity(qty: Option<real>) {
    qty.Some? && qty.value != 0.0 && TruncToInt(qty.value) as real == qty.value
  }

  /**
   * `market_order`. The quantity is checked first (zero, None or fractional), then
   * the side: a buy must be affordable, a sell needs a positive position, and any
   * other side is rejected. Only the sign of the position is checked, so a sell
   * larger than the position goes short. Errors leave the broker unchanged.
   */
  function MarketOrder(b: Broker, side: string, qty: Option<real>, price: real): (r: Result<Broker, BrokerError>)
    ensures !ValidQuantity(qty) ==> r == Err(InvalidQuantity)
    ensures ValidQuantity(qty) && side == "buy" ==>
      (r.Err? <==> b.cash < qty.value * price)
      && (r.Err? ==> r.error == InsufficientFunds)
      && (r.Ok? ==> r.value.position == b.position + qty.value.Floor && r.value.cash == b.cash - qty.value * price)
    ensures ValidQuantity(qty) && side == "sell" ==>
      (r.Err? <==> b.position <= 0)
      && (r.Err? ==> r.error == NoPositionToSell)
      && (r.Ok? ==> r.value.position == b.position - qty.value.Floor && r.value.cash == b.cash + qty.value * price)
    ensures ValidQuantity(qty) && side != "buy" && side != "sell" ==> r == Err(InvalidSide)
  {
    if !ValidQuantity(qty) then Err(InvalidQuantity)
    else
      var q := qty.value.Floor;
      if side == "buy" then
        if b.cash < q as real * price then Err(InsufficientFunds)
        else Ok(Broker(b.cash - q as real * price, b.position + q))
      else if side == "sell" then
        if b.position <= 0 then Err(NoPositionToSell)
        else Ok(Broker(b.cash + q as real * price, b.position - q))
      else Err(InvalidSide)
  }

  /** An integral quantity's floor is itself. */
  lemma WholeQuantity(q: int)
    ensures ValidQuantity(Some(q as real)) <==> q != 0
    ensures (q as real).Floor == q
  {
  }

  /**
   * Orders accumulate additively: buying `q` at `p1` and then selling `q` at `p2`
   * restores the position and changes cash by `q * (p2 - p1)`, as long as the buy
   * is affordable and `q` is positive.
   */
  lemma BuySellRoundTrip(b: Broker, q: int, p1: real, p2: real)
    requires q > 0 && b.cash >= q as real * p1 && b.position >= 0
    ensures MarketOrder(b, "buy", Some(q as real), p1).Ok?
    ensures MarketOrder(MarketOrder(b, "buy", Some(q as real), p1).value, "sell", Some(q as real), p2)
      == Ok(Broker(b.cash + q as real * (p2 - p1), b.position))
  {
    WholeQuantity(q);
    var mid := MarketOrder(b, "buy", Some(q as real), p1).value;
    assert mid == Broker(b.cash - q as real * p1, b.position + q);
    assert mid.position > 0;
    assert ValidQuantity(Some(q as real));
    assert "sell" != "buy";
    assert (q as real).Floor == q;
    var r := MarketOrder(mid, "sell", Some(q as real), p2);
    assert r.Ok?;
    assert r.value.position == mid.position - q;
    assert r.value.cash == mid.cash + q as real * p2;
    assert b.cash - q as real * p1 + q as real * p2 == b.cash + q as real * (p2 - p1);
  }

  /** The broker scenarios of the test suite, from 1000 in cash. */
  lemma BrokerScenarios()
    ensures MarketOrder(Broker(1000.0, 0), "buy", Some(2.0), 10.0) == Ok(Broker(980.0, 2))
    ensures MarketOrder(Broker(1000.0, 0), "buy", Some(200.0), 10.0) == Err(InsufficientFunds)
    ensures MarketOrder(Broker(1000.0, 0), "buy", Some(1.5), 100.0) == Err(InvalidQuantity)
    ensures MarketOrder(Broker(1000.0, 0), "buy", None, 100.0) == Err(InvalidQuantity)
    ensures MarketOrder(Broker(1000.0, 0), "sell", Some(1.0), 50.0) == Err(NoPositionToSell)
    ensures MarketOrder(Broker(1000.0, 0), "hold", Some(10.0), 100.0) == Err(InvalidSide)
    ensures MarketOrder(Broker(950.0, 5), "sell", Some(2.0), 20.0) == Ok(Broker(990.0, 3))
  {
    WholeQuantity(2);
    WholeQuantity(200);
    assert TruncToInt(1.5) == 1;
  }

  // ---- Engine ----

  /** `signals.shift(1)`: no value (NaN) at the first bar, then each previous bar's signal. */
  function Shifted(signals: seq<real>): (d: seq<Option<real>>)
    ensures |d| == |signals|
    ensures |d| > 0 ==> d[0].None?
    ensures forall t :: 1 <= t < |d| ==> d[t] == Some(signals[t - 1])
  {
    if |signals| == 0 then []
    else [None] + seq(|signals| - 1, i requires 0 <= i < |signals| - 1 => Some(signals[i]))
  }

  /** One bar of the loop: 1 buys one unit, -1 sells one, 0 and anything else (NaN included) trades nothing. */
  function Bar(b: Broker, signal: Option<real>, price: real): (r: Result<Broker, BrokerError>)
  {
    if signal == Some(1.0) then MarketOrder(b, "buy", Some(1.0), price)
    else if signal == Some(-1.0) then MarketOrder(b, "sell", Some(1.0), price)
    else Ok(b)
  }

  /** The loop over `zip(delayed, prices)` up to bar `n`; a raised error ends the run. */
  function RunTo(b: Broker, delayed: seq<Option<real>>, prices: seq<real>, n: nat): Result<Broker, BrokerError>
    requires n <= |delayed| && n <= |prices|
  {
    if n == 0 then Ok(b)
    else
      match RunTo(b, delayed, prices, n - 1)
      case Err(e) => Err(e)
      case Ok(b') => Bar(b', delayed[n - 1], prices[n - 1])
  }

  function MinLen(a: nat, b: nat): nat {
    if a <= b then a else b
  }

  /** `Backtester.run`: every bar up to the shorter of the two series, on the shifted signals. */
  function Run(b: Broker, signals: seq<real>, prices: seq<real>): Result<Broker, BrokerError> {
    RunTo(b, Shifted(signals), prices, MinLen(|signals|, |prices|))
  }

  /** A unit order the engine places: a side and the bar's price. */
  datatype UnitOrder = UnitOrder(side: string, price: real)

  /** Reference: the orders implied by the signals, each signal at bar t-1 becoming an order at bar t's price. */
  function Orders(signals: seq<real>, prices: seq<real>, n: nat): (os: seq<UnitOrder>)
    requires n <= |signals| && n <= |prices|
    ensures |os| <= n
  {
    if n <= 1 then []
    else
      var s := signals[n - 2];
      Orders(signals, prices, n - 1)
        + (if s == 1.0 then [UnitOrder("buy", prices[n - 1])]
           else if s == -1.0 then [UnitOrder("sell", prices[n - 1])]
           else [])
  }

  /** Placing unit orders one after the other, stopping at the first error. */
  function Place(b: Broker, os: seq<UnitOrder>): Result<Broker, BrokerError> {
    if |os| == 0 then Ok(b)
    else
      match Place(b, os[..|os| - 1])
      case Err(e) => Err(e)
      case Ok(b') => MarketOrder(b', os[|os| - 1].side, Some(1.0), os[|os| - 1].price)
  }

  lemma {:induction false} PlaceAppend(b: Broker, os: seq<UnitOrder>, more: seq<UnitOrder>)
    requires |more| <= 1
    ensures Place(b, os + more) == (match Place(b, os) case Err(e) => Err(e) case Ok(b') => Place(b', more))
  {
    if |more| == 1 {
      assert (os + more)[..|os|] == os;
      assert more[..0] == [];
    } else {
      assert os + more == os;
    }
  }

  /**
   * The engine is exactly the delayed order stream: bar t trades on the signal of
   * bar t-1, the first bar never trades, and signals other than 1 and -1 place nothing.
   */
  lemma {:induction false} RunPlacesDelayedOrders(b: Broker, signals: seq<real>, prices: seq<real>, n: nat)
    requires n <= |signals| && n <= |prices|
    ensures RunTo(b, Shifted(signals), prices, n) == Place(b, Orders(signals, prices, n))
  {
    var d := Shifted(signals);
    if n == 1 {
      assert d[0].None?;
      assert Orders(signals, prices, 0) == [];
    } else if n > 1 {
      RunPlacesDelayedOrders(b, signals, prices, n - 1);
      var s := signals[n - 2];
      var more := if s == 1.0 then [UnitOrder("buy", prices[n - 1])]
                  else if s == -1.0 then [UnitOrder("sell", prices[n - 1])] else [];
      PlaceAppend(b, Orders(signals, prices, n - 1), more);
      assert d[n - 1] == Some(s);
      if more != [] {
        assert Place(b, Orders(signals, prices, n - 1) + more)
            == (match Place(b, Orders(signals, prices, n - 1)) case Err(e) => Err(e) case Ok(b') => Place(b', more));
      }
    }
  }

  predicate NoTrades(signals: seq<real>) {
    forall t :: 0 <= t < |signals| ==> signals[t] != 1.0 && signals[t] != -1.0
  }

  lemma {:induction false} NoOrders(signals: seq<real>, prices: seq<real>, n: nat)
    requires n <= |signals| && n <= |prices| && NoTrades(signals)
    ensures Orders(signals, prices, n) == []
  {
    if n > 1 {
      NoOrders(signals, prices, n - 1);
    }
  }

  /** Signals that are all 0 (or all invalid, such as -999) leave the broker's cash and position unchanged. */
  lemma QuietSignalsNoChange(b: Broker, signals: seq<real>, prices: seq<real>)
    requires NoTrades(signals)
    ensures Run(b, signals, prices) == Ok(b)
  {
    var n := MinLen(|signals|, |prices|);
    RunPlacesDelayedOrders(b, signals, prices, n);
    NoOrders(signals, prices, n);
  }

  /** A single 1 at bar i (and nothing else tradeable) buys one unit at bar i+1's price. */
  lemma {:induction false} OneBuyOrders(signals: seq<real>, prices: seq<real>, i: nat, n: nat)
    requires n <= |signals| && n <= |prices| && i + 1 < n
    requires signals[i] == 1.0
    requires forall t :: 0 <= t < |signals| && t != i ==> signals[t] != 1.0 && signals[t] != -1.0
    ensures Orders(signals, prices, n) == [UnitOrder("buy", prices[i + 1])]
  {
    if n == i + 2 {
      assert signals[..i] == signals[..i];
      OrdersBefore(signals, prices, i, n - 1);
    } else {
      OneBuyOrders(signals, prices, i, n - 1);
    }
  }

  lemma {:induction false} OrdersBefore(signals: seq<real>, prices: seq<real>, i: nat, n: nat)
    requires n <= |signals| && n <= |prices| && n <= i + 1
    requires forall t :: 0 <= t < i && t < |signals| ==> signals[t] != 1.0 && signals[t] != -1.0
    ensures Orders(signals, prices, n) == []
  {
    if n > 1 {
      OrdersBefore(signals, prices, i, n - 1);
    }
  }

  /** With a lone buy signal at bar i, the run ends holding one more unit bought at bar i+1's price. */
  lemma DelayedSingleBuy(b: Broker, signals: seq<real>, prices: seq<real>, i: nat)
    requires i + 1 < |signals| && i + 1 < |prices|
    requires signals[i] == 1.0
    requires forall t :: 0 <= t < |signals| && t != i ==> signals[t] != 1.0 && signals[t] != -1.0
    requires b.cash >= prices[i + 1]
    ensures Run(b, signals, prices) == Ok(Broker(b.cash - prices[i + 1], b.position + 1))
  {
    var n := MinLen(|signals|, |prices|);
    RunPlacesDelayedOrders(b, signals, prices, n);
    OneBuyOrders(signals, prices, i, n);
    var os := [UnitOrder("buy", prices[i + 1])];
    assert os[..0] == [];
    WholeQuantity(1);
  }
}
