/**
 * Assignment 6's pattern-demo strategies: per-symbol bounded price histories,
 * a breakout strategy and a mean-reversion strategy emitting orders of 100.
 */
module PatternStrategies {
  import opened Wrappers
  import opened Series

  /** An emitted signal `{"action", "symbol", "quantity"}`. */
  datatype Order = Order(action: Action, symbol: string, quantity: int)

  const Quantity := 100

  /** Python raises on a division by zero or on `max`/`min` of an empty list. */
  datatype Fault = ZeroDivision | EmptyWindow

  /** `price_history`: one bounded deque per symbol. */
  type Histories = map<string, seq<real>>

  function History(h: Histories, symbol: string): seq<real> {
    if symbol in h then h[symbol] else []
  }

  /** Append a tick's price to its symbol's deque of `maxlen = lookback`; other symbols are untouched. */
  function Record(h: Histories, symbol: string, price: real, lookback: nat): (r: Histories)
    ensures History(r, symbol) == Last(History(h, symbol) + [price], lookback)
    ensures |History(r, symbol)| <= lookback
    ensures forall x :: x != symbol ==> History(r, x) == History(h, x)
  {
    h[symbol := Last(History(h, symbol) + [price], lookback)]
  }

  /** `(p - m) / m > t`: the relative move from `m` to `p` exceeds `t`. */
  predicate RisesBy(p: real, m: real, t: real)
    requires m != 0.0
  {
    (p - m) / m > t
  }

  /** `(p - m) / m < -t`: the relative move from `m` to `p` is a fall of more than `t`. */
  predicate FallsBy(p: real, m: real, t: real)
    requires m != 0.0
  {
    (p - m) / m < -t
  }

  lemma MulLess(a: real, b: real, m: real)
    requires a < b && m > 0.0
    ensures a * m < b * m
  {
    assert (b - a) * m > 0.0;
  }

  lemma MulLessEq(a: real, b: real, m: real)
    requires a <= b && m > 0.0
    ensures a * m <= b * m
  {
    assert (b - a) * m >= 0.0;
  }

  /** For a positive base the relative tests are plain price bands. */
  lemma Bands(p: real, m: real, t: real)
    requires m > 0.0
    ensures RisesBy(p, m, t) <==> p > m * (1.0 + t)
    ensures FallsBy(p, m, t) <==> p < m * (1.0 - t)
  {
    var q := (p - m) / m;
    assert q * m == p - m;
    if q > t {
      MulLess(t, q, m);
    } else {
      MulLessEq(q, t, m);
    }
    if q < -t {
      MulLess(q, -t, m);
    } else {
      MulLessEq(-t, q, m);
    }
  }

  /** The breakout test against a window of prices, emitting at most one order. */
  function BreakoutSignal(window: seq<real>, price: real, threshold: real, symbol: string): (r: Result<seq<Order>, Fault>)
    ensures |window| == 0 ==> r == Err(EmptyWindow)
    ensures r.Ok? ==> |r.value| <= 1 && forall o :: o in r.value ==> o.symbol == symbol && o.quantity == Quantity
    ensures r == Ok([Order(Buy, symbol, Quantity)]) <==>
      |window| > 0 && Max(window) != 0.0 && RisesBy(price, Max(window), threshold)
    ensures r == Ok([Order(Sell, symbol, Quantity)]) <==>
      |window| > 0 && Max(window) != 0.0 && !RisesBy(price, Max(window), threshold)
      && Min(window) != 0.0 && FallsBy(price, Min(window), threshold)
  {
    if |window| == 0 then Err(EmptyWindow)
    else
      var hi := Max(window);
      if hi == 0.0 then Err(ZeroDivision)
      else if RisesBy(price, hi, threshold) then Ok([Order(Buy, symbol, Quantity)])
      else
        var lo := Min(window);
        if lo == 0.0 then Err(ZeroDivision)
        else if FallsBy(price, lo, threshold) then Ok([Order(Sell, symbol, Quantity)])
        else Ok([])
  }

  /** `BreakoutStrategy.generate_signals` as written: the window already holds the current price. */
  function BreakoutAsWritten(h: Histories, lookback: nat, threshold: real, symbol: string, price: real)
    : (r: (Histories, Result<seq<Order>, Fault>))
    ensures r.0 == Record(h, symbol, price, lookback)
    ensures var w := Last(History(h, symbol) + [price], lookback);
      r.1 == if |w| < lookback then Ok([]) else BreakoutSignal(w, price, threshold, symbol)
  {
    var h' := Record(h, symbol, price, lookback);
    var window := Last(History(h, symbol) + [price], lookback);
    if |window| < lookback then (h', Ok([]))
    else (h', BreakoutSignal(window, price, threshold, symbol))
  }

  predicate AllPositive(xs: seq<real>) {
    forall i :: 0 <= i < |xs| ==> xs[i] > 0.0
  }

  lemma LastPositive(xs: seq<real>, n: nat)
    requires AllPositive(xs)
    ensures AllPositive(Last(xs, n))
  {
    var w := Last(xs, n);
    forall i | 0 <= i < |w|
      ensures w[i] > 0.0
    {
      assert w[i] == xs[|xs| - |w| + i];
    }
  }

  lemma ExtremesPositive(w: seq<real>)
    requires |w| > 0 && AllPositive(w)
    ensures Max(w) > 0.0 && Min(w) > 0.0
  {
    var i :| 0 <= i < |w| && w[i] == Max(w);
    var j :| 0 <= j < |w| && w[j] == Min(w);
  }

  /** A window of positive prices that contains `p` is never broken out of by `p`. */
  lemma NoBreakoutInside(w: seq<real>, p: real, t: real)
    requires |w| > 0 && AllPositive(w) && p in w && t >= 0.0
    ensures Max(w) > 0.0 && Min(w) > 0.0
    ensures !RisesBy(p, Max(w), t) && !FallsBy(p, Min(w), t)
  {
    var hi, lo := Max(w), Min(w);
    ExtremesPositive(w);
    Bands(p, hi, t);
    Bands(p, lo, t);
    MulLessEq(0.0, t, hi);
    MulLessEq(0.0, t, lo);
  }

  /** The window after a tick of positive price is positive and holds that price. */
  lemma WindowPositive(history: seq<real>, price: real, lookback: nat)
    requires price > 0.0 && AllPositive(history) && lookback >= 1
    ensures var w := Last(history + [price], lookback);
      |w| > 0 && w[|w| - 1] == price && Min(w) > 0.0
  {
    var all := history + [price];
    assert AllPositive(all);
    LastPositive(all, lookback);
    ExtremesPositive(Last(all, lookback));
  }

  /**
   * As written, the breakout can never fire: the current price is in the window,
   * so it is at most the maximum and at least the minimum.
   */
  lemma BreakoutNeverFires(h: Histories, lookback: nat, threshold: real, symbol: string, price: real)
    requires price > 0.0 && AllPositive(History(h, symbol)) && threshold >= 0.0
    ensures BreakoutAsWritten(h, lookback, threshold, symbol, price).1 in {Ok([]), Err(EmptyWindow)}
  {
    if lookback >= 1 {
      WindowPositive(History(h, symbol), price, lookback);
      var w := Last(History(h, symbol) + [price], lookback);
      NoBreakoutInside(w, price, threshold);
    }
  }

  /** The Assignment 6 test: window [100, 101, 102], tick 106, threshold 0.03 expects BUY; as written nothing is emitted. */
  lemma BreakoutTestFailsAsWritten()
    ensures BreakoutAsWritten(map["TSLA" := [100.0, 101.0, 102.0]], 3, 0.03, "TSLA", 106.0).1 == Ok([])
  {
    var h := map["TSLA" := [100.0, 101.0, 102.0]];
    assert History(h, "TSLA") == [100.0, 101.0, 102.0];
    BreakoutNeverFires(h, 3, 0.03, "TSLA", 106.0);
  }

  /** The evidently intended breakout: the current price is measured against the window before it. */
  function Breakout(h: Histories, lookback: nat, threshold: real, symbol: string, price: real)
    : (r: (Histories, Result<seq<Order>, Fault>))
    ensures r.0 == Record(h, symbol, price, lookback)
    ensures |History(h, symbol)| < lookback ==> r.1 == Ok([])
    ensures |History(h, symbol)| >= lookback ==> r.1 == BreakoutSignal(History(h, symbol), price, threshold, symbol)
  {
    var prior := History(h, symbol);
    var h' := Record(h, symbol, price, lookback);
    if |prior| < lookback then (h', Ok([]))
    else (h', BreakoutSignal(prior, price, threshold, symbol))
  }

  /** The corrected strategy on the Assignment 6 test: 106 after [100, 101, 102] buys, 90 sells. */
  lemma BreakoutTestPasses()
    ensures Breakout(map["TSLA" := [100.0, 101.0, 102.0]], 3, 0.03, "TSLA", 106.0).1 == Ok([Order(Buy, "TSLA", Quantity)])
    ensures Breakout(map["TSLA" := [100.0, 101.0, 102.0]], 3, 0.03, "TSLA", 90.0).1 == Ok([Order(Sell, "TSLA", Quantity)])
  {
    var h := map["TSLA" := [100.0, 101.0, 102.0]];
    var w := History(h, "TSLA");
    assert w == [100.0, 101.0, 102.0];
    assert Max(w) == 102.0 by {
      assert w[2] == 102.0;
    }
    assert Min(w) == 100.0 by {
      assert w[0] == 100.0;
    }
    assert RisesBy(106.0, 102.0, 0.03);
    assert !RisesBy(90.0, 102.0, 0.03) && FallsBy(90.0, 100.0, 0.03);
  }

  /** The mean-reversion test against a full window: far above its mean sells, far below buys. */
  function ReversionSignal(window: seq<real>, price: real, threshold: real, symbol: string): (r: Result<seq<Order>, Fault>)
    ensures r.Ok? ==> |r.value| <= 1 && forall o :: o in r.value ==> o.symbol == symbol && o.quantity == Quantity
    ensures r == Ok([Order(Sell, symbol, Quantity)]) <==>
      |window| > 0 && Mean(window) != 0.0 && RisesBy(price, Mean(window), threshold)
    ensures r == Ok([Order(Buy, symbol, Quantity)]) <==>
      |window| > 0 && Mean(window) != 0.0 && !RisesBy(price, Mean(window), threshold)
      && FallsBy(price, Mean(window), threshold)
    ensures r.Err? <==> |window| == 0 || Mean(window) == 0.0
  {
    if |window| == 0 then Err(ZeroDivision)
    else
      var avg := Mean(window);
      if avg == 0.0 then Err(ZeroDivision)
      else if RisesBy(price, avg, threshold) then Ok([Order(Sell, symbol, Quantity)])
      else if FallsBy(price, avg, threshold) then Ok([Order(Buy, symbol, Quantity)])
      else Ok([])
  }

  /** `MeanReversionStrategy.generate_signals`: the window includes the current price. */
  function MeanReversion(h: Histories, lookback: nat, threshold: real, symbol: string, price: real)
    : (r: (Histories, Result<seq<Order>, Fault>))
    ensures r.0 == Record(h, symbol, price, lookback)
    ensures var w := Last(History(h, symbol) + [price], lookback);
      r.1 == if |w| < lookback then Ok([]) else ReversionSignal(w, price, threshold, symbol)
  {
    var h' := Record(h, symbol, price, lookback);
    var window := Last(History(h, symbol) + [price], lookback);
    if |window| < lookback then (h', Ok([]))
    else (h', ReversionSignal(window, price, threshold, symbol))
  }

  lemma SumOfThree(a: real, b: real, c: real)
    ensures Sum([a, b, c]) == a + b + c
  {
    assert Sum([a]) == a by { assert [a][..0] == []; }
    assert Sum([a, b]) == a + b by { assert [a, b][..1] == [a]; }
    assert [a, b, c][..2] == [a, b];
  }

  /** The Assignment 6 test cases: 95 after [100, 101, 102] buys, 105 sells. */
  lemma MeanReversionTestCases()
    ensures MeanReversion(map["AAPL" := [100.0, 101.0, 102.0]], 3, 0.02, "AAPL", 95.0).1 == Ok([Order(Buy, "AAPL", Quantity)])
    ensures MeanReversion(map["AAPL" := [100.0, 101.0, 102.0]], 3, 0.02, "AAPL", 105.0).1 == Ok([Order(Sell, "AAPL", Quantity)])
  {
    var h := map["AAPL" := [100.0, 101.0, 102.0]];
    assert History(h, "AAPL") == [100.0, 101.0, 102.0];
    assert History(h, "AAPL") + [95.0] == [100.0, 101.0, 102.0, 95.0];
    assert History(h, "AAPL") + [105.0] == [100.0, 101.0, 102.0, 105.0];
    assert Last([100.0, 101.0, 102.0, 95.0], 3) == [101.0, 102.0, 95.0];
    assert Last([100.0, 101.0, 102.0, 105.0], 3) == [101.0, 102.0, 105.0];
    SumOfThree(101.0, 102.0, 95.0);
    SumOfThree(101.0, 102.0, 105.0);
    assert Mean([101.0, 102.0, 95.0]) == 298.0 / 3.0;
    assert Mean([101.0, 102.0, 105.0]) == 308.0 / 3.0;
    assert !RisesBy(95.0, 298.0 / 3.0, 0.02) && FallsBy(95.0, 298.0 / 3.0, 0.02);
    assert RisesBy(105.0, 308.0 / 3.0, 0.02);
    assert MeanReversion(h, 3, 0.02, "AAPL", 95.0).1 == ReversionSignal([101.0, 102.0, 95.0], 95.0, 0.02, "AAPL");
    assert MeanReversion(h, 3, 0.02, "AAPL", 105.0).1 == ReversionSignal([101.0, 102.0, 105.0], 105.0, 0.02, "AAPL");
  }
}
