/**
 * Assignment 2's MACD strategy: per symbol, the last 26 prices give
 * MACD = EMA(12) - EMA(26); the last 9 MACD values give the signal line
 * EMA(9); a crossing of MACD over the signal line buys, a crossing under sells.
 */
module Macd {
  import opened Wrappers
  import opened Series

  /** `_calculate_ema`: 0.0 for no prices, otherwise the fold. */
  function Ema(prices: seq<real>, span: nat): real
    requires span >= 1
  {
    if |prices| == 0 then 0.0 else Smooth(prices, Alpha(span))
  }

  /** An EMA of prices lies between their minimum and maximum. */
  lemma EmaBetweenExtremes(prices: seq<real>, span: nat)
    requires |prices| > 0 && span >= 1
    ensures Min(prices) <= Ema(prices, span) <= Max(prices)
  {
    SmoothWithin(prices, Alpha(span), Min(prices), Max(prices));
  }

  /** A symbol's price history, MACD values, signal-line values and previous pair. */
  datatype SymbolState = SymbolState(history: seq<real>, macds: seq<real>, signalLine: seq<real>,
                                     prevMacd: Option<real>, prevSignal: Option<real>)

  const Fresh := SymbolState([], [], [], None, None)

  /** The crossing rule, given the previous and current MACD and signal values. */
  function Cross(prevMacd: real, prevSignal: real, macd: real, signal: real): (a: Action)
    ensures a == Buy <==> prevMacd <= prevSignal && macd > signal
    ensures a == Sell <==> prevMacd >= prevSignal && macd < signal && !(prevMacd <= prevSignal && macd > signal)
  {
    if prevMacd <= prevSignal && macd > signal then Buy
    else if prevMacd >= prevSignal && macd < signal then Sell
    else Hold
  }

  /** One tick of one symbol. */
  function SymbolStep(s: SymbolState, price: real): (r: (SymbolState, Action))
    ensures r.0.history == Last(s.history + [price], 26)
    ensures |r.0.history| < 26 ==> r.0.macds == s.macds && r.1 == Hold
    ensures |r.0.history| == 26 ==> r.0.macds == Last(s.macds + [Ema(r.0.history, 12) - Ema(r.0.history, 26)], 9)
    ensures |r.0.history| == 26 && |r.0.macds| < 9 ==> r.1 == Hold && r.0.prevMacd == s.prevMacd && r.0.prevSignal == s.prevSignal
    ensures |r.0.history| == 26 && |r.0.macds| == 9 ==>
      r.0.prevMacd == Some(r.0.macds[8]) && r.0.prevSignal == Some(Ema(r.0.macds, 9))
      && r.1 == (if s.prevMacd.Some? && s.prevSignal.Some?
                 then Cross(s.prevMacd.value, s.prevSignal.value, r.0.macds[8], Ema(r.0.macds, 9)) else Hold)
  {
    var history := Last(s.history + [price], 26);
    if |history| < 26 then (s.(history := history), Hold)
    else
      var macd := Ema(history, 12) - Ema(history, 26);
      var macds := Last(s.macds + [macd], 9);
      if |macds| < 9 then (s.(history := history, macds := macds), Hold)
      else
        var signal := Ema(macds, 9);
        var next := SymbolState(history, macds, Last(s.signalLine + [signal], 9), Some(macd), Some(signal));
        if s.prevMacd.Some? && s.prevSignal.Some? then (next, Cross(s.prevMacd.value, s.prevSignal.value, macd, signal))
        else (next, Hold)
  }

  function SymbolRun(s: SymbolState, ps: seq<real>): (r: (SymbolState, seq<Action>))
    ensures |r.1| == |ps|
  {
    if |ps| == 0 then (s, [])
    else
      var before := SymbolRun(s, ps[..|ps| - 1]);
      var step := SymbolStep(before.0, ps[|ps| - 1]);
      (step.0, before.1 + [step.1])
  }

  function Min2(a: int, b: int): int {
    if a < b then a else b
  }

  /** The shape of a symbol's state after `n` ticks. */
  predicate Shape(s: SymbolState, n: nat) {
    |s.history| == Min2(n, 26)
    && |s.macds| == (if n < 26 then 0 else Min2(9, n - 25))
    && (s.prevMacd.Some? <==> n >= 34) && (s.prevSignal.Some? <==> n >= 34)
  }

  lemma StepShape(s: SymbolState, n: nat, p: real)
    requires Shape(s, n)
    ensures Shape(SymbolStep(s, p).0, n + 1)
    ensures n < 34 ==> SymbolStep(s, p).1 == Hold
  {
  }

  /**
   * After the ticks `ps` of a symbol: the state has the shape of `|ps|` ticks, the
   * history is the last 26 prices, and every tick before the 35th was HOLD.
   */
  predicate WarmedUp(r: (SymbolState, seq<Action>), ps: seq<real>) {
    Shape(r.0, |ps|) && r.0.history == Last(ps, 26) && |r.1| == |ps|
    && forall k :: 0 <= k < |ps| && k < 34 ==> r.1[k] == Hold
  }

  /**
   * After `n` ticks of a symbol: the history is its last 26 prices, there are
   * min(9, n - 25) MACD values once 26 prices were seen, and the previous pair is
   * set exactly from the 34th tick on; so every tick before the 35th is HOLD.
   */
  lemma {:induction false} SymbolWarmup(ps: seq<real>)
    ensures WarmedUp(SymbolRun(Fresh, ps), ps)
    decreases |ps|
  {
    if |ps| > 0 {
      var init, p := ps[..|ps| - 1], ps[|ps| - 1];
      assert init + [p] == ps;
      SymbolWarmup(init);
      var before := SymbolRun(Fresh, init);
      var step := SymbolStep(before.0, p);
      assert SymbolRun(Fresh, ps) == (step.0, before.1 + [step.1]);
      StepShape(before.0, |init|, p);
      WarmupStep(init, p, before.0, before.1, step.0, step.1);
    }
  }

  lemma WarmupStep(init: seq<real>, p: real, before: SymbolState, outs: seq<Action>, after: SymbolState, a: Action)
    requires WarmedUp((before, outs), init)
    requires Shape(after, |init| + 1) && after.history == Last(before.history + [p], 26)
    requires |init| < 34 ==> a == Hold
    ensures WarmedUp((after, outs + [a]), init + [p])
  {
    LastAppend(init, p, 26);
    forall k | 0 <= k <= |init| && k < 34
      ensures (outs + [a])[k] == Hold
    {
      if k < |init| {
        assert (outs + [a])[k] == outs[k];
      }
    }
  }

  /** Per-symbol states; a symbol first seen gets a fresh state. */
  type Strategy = map<string, SymbolState>

  function StateOf(m: Strategy, symbol: string): SymbolState {
    if symbol in m then m[symbol] else Fresh
  }

  /** `generate_signals(tick)`: only the tick's symbol's state moves. */
  function MacdStep(m: Strategy, symbol: string, price: real): (r: (Strategy, Action))
    ensures symbol in r.0 && r.0[symbol] == SymbolStep(StateOf(m, symbol), price).0
    ensures r.1 == SymbolStep(StateOf(m, symbol), price).1
    ensures forall x :: x != symbol ==> (x in r.0 <==> x in m) && (x in m ==> r.0[x] == m[x])
  {
    var step := SymbolStep(StateOf(m, symbol), price);
    (Put(m, symbol, step.0), step.1)
  }

  /** Storing one symbol's state leaves every other symbol's entry as it was. */
  function Put(m: Strategy, symbol: string, s: SymbolState): (r: Strategy)
    ensures symbol in r && r[symbol] == s
    ensures forall x :: x != symbol ==> (x in r <==> x in m) && (x in m ==> r[x] == m[x])
  {
    m[symbol := s]
  }

  datatype Tick = Tick(symbol: string, price: real)

  function MacdRun(m: Strategy, ticks: seq<Tick>): Strategy {
    if |ticks| == 0 then m
    else MacdStep(MacdRun(m, ticks[..|ticks| - 1]), ticks[|ticks| - 1].symbol, ticks[|ticks| - 1].price).0
  }

  /** The prices of one symbol's ticks, in order. */
  function PricesOf(ticks: seq<Tick>, symbol: string): seq<real> {
    if |ticks| == 0 then []
    else PricesOf(ticks[..|ticks| - 1], symbol) + (if ticks[|ticks| - 1].symbol == symbol then [ticks[|ticks| - 1].price] else [])
  }

  /** Symbols are independent: a symbol's state after a mixed stream is its state after its own ticks alone. */
  lemma {:induction false} SymbolsIndependent(m: Strategy, ticks: seq<Tick>, symbol: string)
    ensures StateOf(MacdRun(m, ticks), symbol) == SymbolRun(StateOf(m, symbol), PricesOf(ticks, symbol)).0
    decreases |ticks|
  {
    if |ticks| > 0 {
      var init := ticks[..|ticks| - 1];
      var t := ticks[|ticks| - 1];
      SymbolsIndependent(m, init, symbol);
      var prev := PricesOf(init, symbol);
      if t.symbol == symbol {
        assert (prev + [t.price])[..|prev|] == prev;
      } else {
        assert prev + [] == prev;
      }
    }
  }
}
