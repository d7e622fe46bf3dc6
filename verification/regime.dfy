/**
 * The project's regime layer: the regime detector's weighted scoring over the
 * indicator engine, the three regime strategies (trend, reversal, breakout) and the
 * router that dispatches on the detected regime.
 */
module Regimes {
  import opened Wrappers
  import opened Series
  import opened Indicators

  datatype Regime = Breakout | Reversal | Trend | Neutral

  /** Python truthiness of an optional number: present and non-zero. */
  predicate Truthy(x: Option<real>) {
    x.Some? && x.value != 0.0
  }

  const AtrHistoryLen: nat := 50

  /** `RegimeDetector`: the values seen at the previous detection and the bounded ATR history. */
  datatype Detector = Detector(prevEma9: Option<real>, prevEma21: Option<real>, prevAtr: Option<real>,
                               atrHistory: seq<real>)

  const NewDetector := Detector(None, None, None, [])

  /**
   * The detector and the engine it is handed belong together: previous EMAs are saved
   * in pairs, and an ATR was recorded only if the engine has one. Otherwise Python
   * compares None with a number and raises.
   */
  predicate Compatible(d: Detector, e: Engine) {
    (d.prevEma9.Some? ==> d.prevEma21.Some?)
    && ((|d.atrHistory| > 0 || Truthy(d.prevAtr)) ==> e.atr14.Some?)
  }

  /** The criteria one detection evaluates. */
  datatype Assessment = Assessment(
    atrExploding: bool, rangeBreak: bool, spreadWidening: bool,
    emaBull: bool, emaBear: bool, atrRising: bool, notBreakoutVol: bool, directional: bool,
    crossBull: bool, crossBear: bool, swingBreak: bool, atrSpike: bool, atrDrop: bool)

  /** The ATR history after this detection: the ATR is appended when truthy, keeping the last 50. */
  function NextHistory(d: Detector, e: Engine): (h: seq<real>)
    ensures |d.atrHistory| <= AtrHistoryLen ==> |h| <= AtrHistoryLen
    ensures Truthy(e.atr14) ==> h == Last(d.atrHistory + [e.atr14.value], AtrHistoryLen)
    ensures !Truthy(e.atr14) ==> h == d.atrHistory
  {
    if Truthy(e.atr14) then Last(d.atrHistory + [e.atr14.value], AtrHistoryLen) else d.atrHistory
  }

  function AtrMean(h: seq<real>): Option<real> {
    if |h| > 0 then Some(Mean(h)) else None
  }

  /** `prices[-5]` when at least five prices are buffered, otherwise the current price. */
  function PriceAgo5(e: Engine, price: real): real {
    if |e.prices| >= 5 then e.prices[|e.prices| - 5] else price
  }

  function Assess(d: Detector, price: real, e: Engine): Assessment
    requires e.ema9.Some? && e.ema21.Some? && e.ema50.Some? && Compatible(d, e)
  {
    var h := NextHistory(d, e);
    var mean := AtrMean(h);
    assert Truthy(mean) ==> e.atr14.Some?;
    var e9, e21, e50 := e.ema9.value, e.ema21.value, e.ema50.value;
    var high, low := HighN(e, 20), LowN(e, 20);
    Assessment(
      atrExploding := Truthy(mean) && e.atr14.value > mean.value * 1.5,
      rangeBreak := (Truthy(high) && price > high.value) || (Truthy(low) && price > low.value),
      spreadWidening := d.prevEma9.Some? && Abs(e9 - e21) > Abs(d.prevEma9.value - d.prevEma21.value),
      emaBull := e9 > e21 > e50,
      emaBear := e9 < e21 < e50,
      atrRising := Truthy(d.prevAtr) && e.atr14.value > d.prevAtr.value,
      notBreakoutVol := Truthy(mean) && e.atr14.value < mean.value * 1.5,
      directional := price > PriceAgo5(e, price) || price < PriceAgo5(e, price),
      crossBull := Truthy(d.prevEma9) && Truthy(d.prevEma21) && d.prevEma9.value < d.prevEma21.value && e9 > e21,
      crossBear := Truthy(d.prevEma9) && Truthy(d.prevEma21) && d.prevEma9.value > d.prevEma21.value && e9 < e21,
      swingBreak := (Truthy(high) && price > high.value) || (Truthy(low) && price < low.value),
      atrSpike := Truthy(mean) && e.atr14.value > mean.value * 1.3,
      atrDrop := Truthy(d.prevAtr) && e.atr14.value < d.prevAtr.value)
  }

  function Points(b: bool, w: int): int {
    if b then w else 0
  }

  function BreakoutScore(a: Assessment): int {
    Points(a.atrExploding, 3) + Points(a.rangeBreak, 3) + Points(a.spreadWidening, 2)
  }

  function TrendScore(a: Assessment): int {
    Points(a.emaBull || a.emaBear, 4) + Points(a.atrRising && a.notBreakoutVol, 2) + Points(a.directional, 1)
  }

  function ReversalScore(a: Assessment): int {
    Points(a.crossBull || a.crossBear, 3) + Points(a.swingBreak, 2) + Points(a.atrSpike && a.atrDrop, 2)
  }

  /** Two of the three breakout criteria: any two weigh at least 3 + 2 = 5, one alone at most 3. */
  predicate BreakoutCase(a: Assessment) {
    (a.atrExploding && a.rangeBreak) || (a.atrExploding && a.spreadWidening) || (a.rangeBreak && a.spreadWidening)
  }

  /** An EMA cross (3) with a swing break or an ATR spike-and-drop (2); without a cross the score is at most 4. */
  predicate ReversalCase(a: Assessment) {
    (a.crossBull || a.crossBear) && (a.swingBreak || (a.atrSpike && a.atrDrop))
  }

  /** Strictly ordered EMAs (4) with rising ATR below breakout volatility (2) or a move against five bars ago (1). */
  predicate TrendCase(a: Assessment) {
    (a.emaBull || a.emaBear) && ((a.atrRising && a.notBreakoutVol) || a.directional)
  }

  /**
   * The weighted scores against 5 with priority BREAKOUT over REVERSAL over TREND,
   * otherwise NEUTRAL. In terms of the criteria: BREAKOUT exactly when two breakout
   * criteria hold; REVERSAL exactly when not that but an EMA cross confirmed by a
   * swing break or an ATR spike-and-drop; TREND exactly when neither but the EMAs are
   * aligned and the move is confirmed.
   */
  function Classify(a: Assessment): (r: Regime)
    ensures r == Breakout <==> BreakoutCase(a)
    ensures r == Reversal <==> !BreakoutCase(a) && ReversalCase(a)
    ensures r == Trend <==> !BreakoutCase(a) && !ReversalCase(a) && TrendCase(a)
    ensures r == Neutral <==> !BreakoutCase(a) && !ReversalCase(a) && !TrendCase(a)
  {
    if BreakoutScore(a) >= 5 then Breakout
    else if ReversalScore(a) >= 5 then Reversal
    else if TrendScore(a) >= 5 then Trend
    else Neutral
  }

  /** `detect`: None (and no state change) until all three EMAs exist; otherwise a regime, remembering this tick's values. */
  function Detect(d: Detector, price: real, e: Engine): (r: (Detector, Option<Regime>))
    requires Compatible(d, e)
    ensures r.1.None? <==> e.ema9.None? || e.ema21.None? || e.ema50.None?
    ensures r.1.None? ==> r.0 == d
    ensures r.1.Some? ==> r.0.prevEma9 == e.ema9 && r.0.prevEma21 == e.ema21 && r.0.prevAtr == e.atr14
    ensures r.1.Some? ==> r.0.atrHistory == NextHistory(d, e)
    ensures r.1.Some? ==> r.1.value == Classify(Assess(d, price, e))
  {
    if e.ema9.None? || e.ema21.None? || e.ema50.None? then (d, None)
    else (Detector(e.ema9, e.ema21, e.atr14, NextHistory(d, e)), Some(Classify(Assess(d, price, e))))
  }

  /** Feeding the engine and detector together keeps them compatible, and the ATR history within 50. */
  lemma PipelineCompatible(d: Detector, e: Engine, price: real)
    requires Compatible(d, e) && |d.atrHistory| <= AtrHistoryLen
    requires e.lastPrice.Some? ==> e.ema9.Some? && e.ema21.Some? && e.ema50.Some?
    requires e.atr14.Some? ==> e.lastPrice.Some?
    ensures var e' := OnPrice(e, price);
      var d' := Detect(d, price, e').0;
      Compatible(d', e') && |d'.atrHistory| <= AtrHistoryLen
      && (e'.lastPrice.Some? ==> e'.ema9.Some? && e'.ema21.Some? && e'.ema50.Some?)
      && (e'.atr14.Some? ==> e'.lastPrice.Some?)
  {
    var e' := OnPrice(e, price);
    assert e.atr14.Some? ==> e'.atr14.Some?;
  }

  // ---- Regime strategies ----

  /** `TrendStrategy.generate_signal`: only BUY, on either alignment, when the price is on the EMA9 side of the trend. */
  function TrendStrategy(price: real, e: Engine): (r: Option<Action>)
    ensures r != Some(Sell) && r != Some(Hold)
    ensures r == Some(Buy) <==> (Truthy(e.ema9) && Truthy(e.ema21) && Truthy(e.ema50)
      && ((e.ema9.value > e.ema21.value > e.ema50.value && price >= e.ema9.value)
          || (e.ema9.value < e.ema21.value < e.ema50.value && price <= e.ema9.value)))
  {
    if !Truthy(e.ema9) || !Truthy(e.ema21) || !Truthy(e.ema50) then None
    else
      var e9, e21, e50 := e.ema9.value, e.ema21.value, e.ema50.value;
      if e9 > e21 > e50 && price >= e9 then Some(Buy)
      else if e9 < e21 < e50 && price <= e9 then Some(Buy)
      else None
  }

  /** `ReversalStrategy.generate_signal`: only BUY, on an EMA9/EMA21 cross confirmed by a 20-bar range break. */
  function ReversalStrategy(price: real, e: Engine, prevEma9: real, prevEma21: real): (r: Option<Action>)
    ensures r != Some(Sell) && r != Some(Hold)
    ensures r == Some(Buy) <==> (Truthy(e.ema9) && Truthy(e.ema21) && |e.prices| >= 20
      && ((prevEma9 < prevEma21 && e.ema9.value > e.ema21.value && price > HighN(e, 20).value)
          || (prevEma9 > prevEma21 && e.ema9.value < e.ema21.value && price < LowN(e, 20).value)))
  {
    var high, low := HighN(e, 20), LowN(e, 20);
    if !Truthy(e.ema9) || !Truthy(e.ema21) || high.None? || low.None? then None
    else
      var e9, e21 := e.ema9.value, e.ema21.value;
      if prevEma9 < prevEma21 && e9 > e21 && price > high.value then Some(Buy)
      else if prevEma9 > prevEma21 && e9 < e21 && price < low.value then Some(Buy)
      else None
  }

  /**
   * `BreakoutStrategy.generate_signal`. The engine has no `atr14_history_mean`
   * attribute, so the mean it compares against is a parameter here.
   */
  function BreakoutStrategy(price: real, e: Engine, atrHistoryMean: real): (r: Option<Action>)
    ensures r != Some(Hold)
    ensures r == Some(Buy) <==> (|e.prices| >= 20 && e.atr14.Some?
      && price > HighN(e, 20).value && e.atr14.value > atrHistoryMean * 1.3)
    ensures r == Some(Sell) <==> (|e.prices| >= 20 && e.atr14.Some?
      && !(price > HighN(e, 20).value) && price < LowN(e, 20).value && e.atr14.value > atrHistoryMean * 1.3)
  {
    var high, low := HighN(e, 20), LowN(e, 20);
    if high.None? || low.None? then None
    else if e.atr14.None? then None
    else if price > high.value && e.atr14.value > atrHistoryMean * 1.3 then Some(Buy)
    else if price < low.value && e.atr14.value > atrHistoryMean * 1.3 then Some(Sell)
    else None
  }

  /**
   * In the per-symbol pipeline the engine has already buffered the current price, so
   * it can never lie outside the 20-bar range: the breakout and reversal strategies
   * then never signal.
   */
  lemma FreshPriceNeverBreaks(e: Engine, price: real, prevEma9: real, prevEma21: real, atrHistoryMean: real)
    requires e.maxlen >= 1
    ensures BreakoutStrategy(price, OnPrice(e, price), atrHistoryMean).None?
    ensures ReversalStrategy(price, OnPrice(e, price), prevEma9, prevEma21).None?
  {
    FreshPriceInsideRange(e, price, 20);
  }

  // ---- Router ----

  /** The ways the router as written fails in Python. */
  datatype RouteFault = UnexpectedKeyword | NoPriceAttribute

  /**
   * `StrategyRouter.route` as written: the bare price is passed where the strategies
   * expect a market data point, so any path that reads `mdp.price` fails, and the
   * reversal call passes a `price=` keyword the strategy does not accept.
   */
  function RouteAsWritten(regime: Option<Regime>, price: real, e: Engine, atrHistoryMean: real)
    : (r: Result<Option<Action>, RouteFault>)
    ensures regime == Some(Reversal) ==> r == Err(UnexpectedKeyword)
    ensures regime == Some(Breakout) ==> (r.Err? <==> |e.prices| >= 20 && e.atr14.Some?)
    ensures regime == Some(Trend) ==> (r.Err? <==> (Truthy(e.ema9) && Truthy(e.ema21) && Truthy(e.ema50)
      && (e.ema9.value > e.ema21.value > e.ema50.value || e.ema9.value < e.ema21.value < e.ema50.value)))
    ensures r.Ok? ==> r.value.None?
  {
    match regime
    case Some(Breakout) =>
      if HighN(e, 20).None? || LowN(e, 20).None? || e.atr14.None? then Ok(None) else Err(NoPriceAttribute)
    case Some(Trend) =>
      if !Truthy(e.ema9) || !Truthy(e.ema21) || !Truthy(e.ema50) then Ok(None)
      else if e.ema9.value > e.ema21.value > e.ema50.value then Err(NoPriceAttribute)
      else if e.ema9.value < e.ema21.value < e.ema50.value then Err(NoPriceAttribute)
      else Ok(None)
    case Some(Reversal) => Err(UnexpectedKeyword)
    case _ => Ok(None)
  }

  /** As written the router never produces a signal: every path either returns None or raises. */
  lemma RouterNeverSignalsAsWritten(regime: Option<Regime>, price: real, e: Engine, atrHistoryMean: real)
    ensures RouteAsWritten(regime, price, e, atrHistoryMean) != Ok(Some(Buy))
    ensures RouteAsWritten(regime, price, e, atrHistoryMean) != Ok(Some(Sell))
  {
  }

  /** The evidently intended router: each regime's strategy sees the tick's price and the engine. */
  function Route(regime: Option<Regime>, price: real, e: Engine, prevEma9: real, prevEma21: real, atrHistoryMean: real)
    : (r: Option<Action>)
    ensures regime in {None, Some(Neutral)} ==> r.None?
    ensures r == Some(Sell) ==> regime == Some(Breakout)
    ensures r.Some? && regime != Some(Breakout) ==> r == Some(Buy)
  {
    match regime
    case Some(Breakout) => BreakoutStrategy(price, e, atrHistoryMean)
    case Some(Trend) => TrendStrategy(price, e)
    case Some(Reversal) => ReversalStrategy(price, e, prevEma9, prevEma21)
    case _ => None
  }

  /**
   * Where the router as written raises, the corrected router signals: an uptrend
   * with the price above EMA9 buys.
   */
  lemma RouterSignalsWhenCorrected()
    ensures var e := Engine(DefaultMaxlen, [10.0], Some(10.0), Some(12.0), Some(11.0), Some(10.0), None);
      RouteAsWritten(Some(Trend), 12.5, e, 0.0) == Err(NoPriceAttribute)
      && Route(Some(Trend), 12.5, e, 0.0, 0.0, 0.0) == Some(Buy)
  {
  }

  /**
   * The corrected router hands a detected regime to that regime's strategy, passing
   * the previous EMAs through unchanged to the reversal strategy.
   */
  lemma RouteDispatches(regime: Option<Regime>, price: real, e: Engine, prevEma9: real, prevEma21: real, atrHistoryMean: real)
    ensures regime == Some(Trend) ==> Route(regime, price, e, prevEma9, prevEma21, atrHistoryMean) == TrendStrategy(price, e)
    ensures regime == Some(Reversal) ==>
      Route(regime, price, e, prevEma9, prevEma21, atrHistoryMean) == ReversalStrategy(price, e, prevEma9, prevEma21)
    ensures regime == Some(Breakout) ==>
      Route(regime, price, e, prevEma9, prevEma21, atrHistoryMean) == BreakoutStrategy(price, e, atrHistoryMean)
  {
  }
}
