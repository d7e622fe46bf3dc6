/**
 * The project's per-symbol indicator engine: a bounded price buffer, three EMAs
 * (periods 9, 21, 50) seeded with the first price, and an ATR that smooths the
 * absolute price changes with an EMA of period 14.
 */
module Indicators {
  import opened Wrappers
  import opened Series

  const DefaultMaxlen: nat := 200

  datatype Engine = Engine(maxlen: nat, prices: seq<real>, lastPrice: Option<real>,
                           ema9: Option<real>, ema21: Option<real>, ema50: Option<real>,
                           atr14: Option<real>)

  function NewEngine(maxlen: nat): (e: Engine)
    ensures e.prices == [] && e.lastPrice.None? && e.atr14.None?
    ensures e.ema9.None? && e.ema21.None? && e.ema50.None?
  {
    Engine(maxlen, [], None, None, None, None, None)
  }

  /** `_update_ema`: the first price seeds the average, later ones move it by `k = 2 / (period + 1)`. */
  function EmaUpdate(prev: Option<real>, price: real, period: nat): (r: real)
    requires period >= 1
    ensures prev.None? ==> r == price
    ensures prev.Some? ==> (if price <= prev.value then price <= r <= prev.value else prev.value <= r <= price)
  {
    var k := Alpha(period);
    if prev.None? then price
    else
      StepBetween(k, price, prev.value);
      price * k + prev.value * (1.0 - k)
  }

  /** One smoothing step lands between the new price and the previous average. */
  lemma StepBetween(k: real, price: real, prev: real)
    requires 0.0 < k <= 1.0
    ensures var r := price * k + prev * (1.0 - k);
      if price <= prev then price <= r <= prev else prev <= r <= price
  {
    assert price * k + prev * (1.0 - k) == k * price + (1.0 - k) * prev;
    if price <= prev {
      Convex(k, price, prev, price, prev);
    } else {
      Convex(k, price, prev, prev, price);
    }
  }

  function Abs(x: real): (r: real)
    ensures r >= 0.0 && (r == x || r == -x)
  {
    if x < 0.0 then -x else x
  }

  /** `_update_atr`: the first price only seeds `last_price`; the next true range seeds the ATR. */
  function AtrUpdate(e: Engine, price: real): (r: (Option<real>, Option<real>))
    ensures r.0 == Some(price)
    ensures e.lastPrice.None? ==> r.1 == e.atr14
    ensures e.lastPrice.Some? && e.atr14.None? ==> r.1 == Some(Abs(price - e.lastPrice.value))
  {
    if e.lastPrice.None? then (Some(price), e.atr14)
    else
      var tr := Abs(price - e.lastPrice.value);
      if e.atr14.None? then (Some(price), Some(tr))
      else (Some(price), Some(EmaUpdate(e.atr14, tr, 14)))
  }

  /** `on_price`: buffer, EMAs, then ATR. */
  function OnPrice(e: Engine, price: real): (r: Engine)
    ensures r.maxlen == e.maxlen
    ensures r.prices == Last(e.prices + [price], e.maxlen)
    ensures r.ema9.Some? && r.ema21.Some? && r.ema50.Some?
  {
    var atr := AtrUpdate(e, price);
    e.(prices := Last(e.prices + [price], e.maxlen),
       ema9 := Some(EmaUpdate(e.ema9, price, 9)),
       ema21 := Some(EmaUpdate(e.ema21, price, 21)),
       ema50 := Some(EmaUpdate(e.ema50, price, 50)),
       lastPrice := atr.0, atr14 := atr.1)
  }

  function Feed(e: Engine, ps: seq<real>): Engine {
    if |ps| == 0 then e else OnPrice(Feed(e, ps[..|ps| - 1]), ps[|ps| - 1])
  }

  /** The absolute changes between consecutive prices: the true ranges the ATR smooths. */
  function Ranges(ps: seq<real>): (r: seq<real>)
    ensures |r| == if |ps| < 2 then 0 else |ps| - 1
    ensures forall i :: 0 <= i < |r| ==> r[i] >= 0.0
  {
    if |ps| < 2 then [] else Ranges(ps[..|ps| - 1]) + [Abs(ps[|ps| - 1] - ps[|ps| - 2])]
  }

  /** The EMA of a non-empty price series as the engine computes it, tick by tick. */
  function EmaOf(ps: seq<real>, period: nat): Option<real>
    requires period >= 1
  {
    if |ps| == 0 then None else Some(Smooth(ps, Alpha(period)))
  }

  /** One more price extends each of the engine's folds by one step. */
  lemma EmaStep(ps: seq<real>, p: real, period: nat)
    requires period >= 1
    ensures EmaOf(ps + [p], period) == Some(EmaUpdate(EmaOf(ps, period), p, period))
  {
    var xs := ps + [p];
    assert xs[..|xs| - 1] == ps;
    if |ps| > 0 {
      var k := Alpha(period);
      assert Smooth(xs, k) == k * p + (1.0 - k) * Smooth(ps, k);
      assert k * p + (1.0 - k) * Smooth(ps, k) == p * k + Smooth(ps, k) * (1.0 - k);
      assert EmaUpdate(Some(Smooth(ps, k)), p, period) == p * k + Smooth(ps, k) * (1.0 - k);
    }
  }

  /** After a fresh engine sees `ps`, the buffer holds the last `maxlen` of them and `last_price` the latest. */
  lemma {:induction false} FeedBuffer(maxlen: nat, ps: seq<real>)
    ensures var e := Feed(NewEngine(maxlen), ps);
      e.maxlen == maxlen && e.prices == Last(ps, maxlen)
      && e.lastPrice == (if |ps| == 0 then None else Some(ps[|ps| - 1]))
    decreases |ps|
  {
    if |ps| > 0 {
      var init, p := ps[..|ps| - 1], ps[|ps| - 1];
      assert init + [p] == ps;
      FeedBuffer(maxlen, init);
      LastKeep(init, p, maxlen);
    }
  }

  /** After a fresh engine sees `ps`, each EMA is the exponential fold of all of them with its period. */
  lemma {:induction false} FeedEmas(maxlen: nat, ps: seq<real>)
    ensures var e := Feed(NewEngine(maxlen), ps);
      e.ema9 == EmaOf(ps, 9) && e.ema21 == EmaOf(ps, 21) && e.ema50 == EmaOf(ps, 50)
    decreases |ps|
  {
    if |ps| > 0 {
      var init, p := ps[..|ps| - 1], ps[|ps| - 1];
      assert init + [p] == ps;
      FeedEmas(maxlen, init);
      EmaStep(init, p, 9);
      EmaStep(init, p, 21);
      EmaStep(init, p, 50);
    }
  }

  /** One price extends the true ranges by the new absolute change, and the ATR fold by one step. */
  lemma AtrStep(e: Engine, ps: seq<real>, p: real)
    requires e.lastPrice == (if |ps| == 0 then None else Some(ps[|ps| - 1]))
    requires e.atr14 == EmaOf(Ranges(ps), 14)
    ensures OnPrice(e, p).atr14 == EmaOf(Ranges(ps + [p]), 14)
  {
    var xs := ps + [p];
    assert xs[..|xs| - 1] == ps;
    OnPriceAtr(e, p);
    if |ps| >= 1 {
      var q := ps[|ps| - 1];
      assert xs[|xs| - 2] == q;
      assert Ranges(xs) == Ranges(ps) + [Abs(p - q)];
      EmaStep(Ranges(ps), Abs(p - q), 14);
      AtrIsEma(e, p);
    }
  }

  lemma OnPriceAtr(e: Engine, p: real)
    ensures OnPrice(e, p).atr14 == AtrUpdate(e, p).1
  {
  }

  /** Once a price was seen, the ATR update is the period-14 EMA step on the new true range, seeding when unset. */
  lemma AtrIsEma(e: Engine, p: real)
    requires e.lastPrice.Some?
    ensures AtrUpdate(e, p).1 == Some(EmaUpdate(e.atr14, Abs(p - e.lastPrice.value), 14))
  {
  }

  /** The ATR is None until two prices were seen, then the period-14 fold of the true ranges. */
  lemma {:induction false} FeedAtr(maxlen: nat, ps: seq<real>)
    ensures Feed(NewEngine(maxlen), ps).atr14 == EmaOf(Ranges(ps), 14)
    decreases |ps|
  {
    if |ps| > 0 {
      var init, p := ps[..|ps| - 1], ps[|ps| - 1];
      assert init + [p] == ps;
      FeedAtr(maxlen, init);
      FeedBuffer(maxlen, init);
      AtrStep(Feed(NewEngine(maxlen), init), init, p);
    }
  }

  lemma LastKeep(xs: seq<real>, x: real, n: nat)
    ensures Last(Last(xs, n) + [x], n) == Last(xs + [x], n)
  {
    if n >= 1 {
      LastAppend(xs, x, n);
    }
  }

  /** Each EMA stays between the lowest and highest price seen, being a convex combination of them. */
  lemma EmaWithinRange(maxlen: nat, ps: seq<real>)
    requires |ps| > 0
    ensures var e := Feed(NewEngine(maxlen), ps);
      Min(ps) <= e.ema9.value <= Max(ps) && Min(ps) <= e.ema21.value <= Max(ps)
      && Min(ps) <= e.ema50.value <= Max(ps)
  {
    FeedEmas(maxlen, ps);
    SmoothWithin(ps, Alpha(9), Min(ps), Max(ps));
    SmoothWithin(ps, Alpha(21), Min(ps), Max(ps));
    SmoothWithin(ps, Alpha(50), Min(ps), Max(ps));
  }

  /** The ATR is None before the second price and never negative afterwards. */
  lemma AtrNonNegative(maxlen: nat, ps: seq<real>)
    ensures var e := Feed(NewEngine(maxlen), ps);
      (e.atr14.None? <==> |ps| < 2) && (e.atr14.Some? ==> e.atr14.value >= 0.0)
  {
    FeedAtr(maxlen, ps);
    var rs := Ranges(ps);
    if |rs| > 0 {
      assert Within(rs, 0.0, Max(rs));
      SmoothWithin(rs, Alpha(14), 0.0, Max(rs));
    }
  }

  /** `high_n`: None with fewer than `n` buffered prices, else the highest of the last `n`. */
  function HighN(e: Engine, n: nat): (r: Option<real>)
    requires n >= 1
    ensures r.None? <==> |e.prices| < n
    ensures r.Some? ==> (r.value in e.prices[|e.prices| - n..]
      && forall i :: |e.prices| - n <= i < |e.prices| ==> e.prices[i] <= r.value)
  {
    if |e.prices| < n then None
    else
      var w := e.prices[|e.prices| - n..];
      assert forall i :: |e.prices| - n <= i < |e.prices| ==> e.prices[i] == w[i - (|e.prices| - n)];
      Some(Max(w))
  }

  /** `low_n`: None with fewer than `n` buffered prices, else the lowest of the last `n`. */
  function LowN(e: Engine, n: nat): (r: Option<real>)
    requires n >= 1
    ensures r.None? <==> |e.prices| < n
    ensures r.Some? ==> (r.value in e.prices[|e.prices| - n..]
      && forall i :: |e.prices| - n <= i < |e.prices| ==> r.value <= e.prices[i])
  {
    if |e.prices| < n then None
    else
      var w := e.prices[|e.prices| - n..];
      assert forall i :: |e.prices| - n <= i < |e.prices| ==> e.prices[i] == w[i - (|e.prices| - n)];
      Some(Min(w))
  }

  /** Right after `on_price(p)` the newest buffered price is `p`, so `p` never exceeds `high_n` nor undercuts `low_n`. */
  lemma FreshPriceInsideRange(e: Engine, p: real, n: nat)
    requires n >= 1 && e.maxlen >= 1
    ensures var e' := OnPrice(e, p);
      (HighN(e', n).Some? ==> p <= HighN(e', n).value) && (LowN(e', n).Some? ==> LowN(e', n).value <= p)
  {
    var e' := OnPrice(e, p);
    assert e'.prices[|e'.prices| - 1] == p;
  }
}
