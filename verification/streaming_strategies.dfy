/**
 * The trading system's streaming bar strategies: the moving-average crossover with
 * a long/flat position flag, and rate-of-change momentum. Each keeps bounded
 * deques of recent closes and emits at most one signal per bar; an emitted signal
 * is also appended to the strategy's history. Timestamps, the symbol and the
 * formatted reason text are not modelled.
 */
module StreamingStrategies {
  import opened Wrappers
  import opened Series

  datatype Signal = Signal(kind: Action, price: real)

  /** `deque(maxlen=cap).append(p)`: the oldest price drops out once the deque is full. */
  function Push(dq: seq<real>, cap: nat, p: real): (r: seq<real>)
    requires |dq| <= cap
    ensures r == Last(dq + [p], cap)
  {
    if |dq| == cap then (if cap == 0 then dq else dq[1..] + [p]) else dq + [p]
  }

  lemma PushLast(h: seq<real>, cap: nat, p: real)
    ensures Push(Last(h, cap), cap, p) == Last(h + [p], cap)
  {
    if |h| >= cap && cap > 0 {
      assert Last(h + [p], cap) == Last(h, cap)[1..] + [p];
    }
  }

  /** Emitted signals alternate BUY, SELL, BUY, ..., starting with BUY. */
  predicate Alternates(signals: seq<Signal>) {
    forall i :: 0 <= i < |signals| ==> signals[i].kind == if i % 2 == 0 then Buy else Sell
  }

  /** The position flag is 1 exactly after an odd number of signals: long after each BUY, flat after each SELL. */
  predicate PositionMatches(position: int, signals: seq<Signal>) {
    Alternates(signals) && position == |signals| % 2
  }

  /** A BUY while flat or a SELL while long keeps the history alternating and flips the flag. */
  lemma RecordKeepsAlternation(position: int, signals: seq<Signal>, sig: Signal)
    requires PositionMatches(position, signals)
    requires sig.kind == if position == 0 then Buy else Sell
    ensures PositionMatches(1 - position, signals + [sig])
  {
  }

  /**
   * The crossing rule shared by both strategies: BUY on a switch to "above" while
   * flat; SELL on `sellNow` while long; nothing on the first observation.
   */
  function Decide(prev: Option<bool>, above: bool, sellNow: bool, position: int): (r: Option<Action>)
    ensures r == Some(Buy) <==> prev == Some(false) && above && position == 0
    ensures r == Some(Sell) <==> prev.Some? && !(!prev.value && above && position == 0) && sellNow && position == 1
    ensures r.None? || r == Some(Buy) || r == Some(Sell)
  {
    if prev.None? then None
    else if !prev.value && above && position == 0 then Some(Buy)
    else if sellNow && position == 1 then Some(Sell)
    else None
  }

  // ---- MAStrategy ----

  datatype Crossover = Crossover(shortW: nat, longW: nat, dqLong: seq<real>, dqShort: seq<real>,
                                 longSum: real, shortSum: real, position: int, prevAbove: Option<bool>,
                                 signals: seq<Signal>)

  /** The constructor: a short window not below the long one is refused. */
  function NewCrossover(shortW: nat, longW: nat): (r: Result<Crossover, string>)
    requires shortW >= 1
    ensures r.Err? <==> shortW >= longW
    ensures r.Err? ==> r.error == "short_window must be < long_window"
    ensures r.Ok? ==> CrossoverInv(r.value) && r.value.dqLong == [] && r.value.position == 0
  {
    if shortW >= longW then Err("short_window must be < long_window")
    else Ok(Crossover(shortW, longW, [], [], 0.0, 0.0, 0, None, []))
  }

  predicate CrossoverInv(st: Crossover) {
    1 <= st.shortW < st.longW && |st.dqLong| <= st.longW && |st.dqShort| <= st.shortW
    && st.longSum == Sum(st.dqLong) && st.shortSum == Sum(st.dqShort)
    && st.dqShort == Last(st.dqLong, st.shortW)
    && PositionMatches(st.position, st.signals)
    && (st.prevAbove.Some? ==> |st.dqLong| == st.longW)
  }

  /** The window updates of `on_new_bar`: drop the oldest close from a full deque, then add the new one. */
  function Slide(dq: seq<real>, sum: real, cap: nat, p: real): (r: (seq<real>, real))
    requires |dq| <= cap && sum == Sum(dq) && cap >= 1
    ensures r.0 == Push(dq, cap, p) && r.1 == Sum(r.0)
  {
    if |dq| == cap then
      SumDropLast(dq, p);
      (dq[1..] + [p], sum - dq[0] + p)
    else
      SumAppend(dq, p);
      (dq + [p], sum + p)
  }

  lemma SumDropLast(xs: seq<real>, p: real)
    requires |xs| > 0
    ensures Sum(xs[1..] + [p]) == Sum(xs) - xs[0] + p
  {
    SumDropFirst(xs);
    SumAppend(xs[1..], p);
  }

  /** Short above long, given full windows. */
  function Above(st: Crossover): bool
    requires st.shortW >= 1 && st.longW >= 1
  {
    st.shortSum / st.shortW as real > st.longSum / st.longW as real
  }

  /** Both deques after a bar: each drops its oldest close when full and takes the new one. */
  function SlideBoth(st: Crossover, p: real): (r: Crossover)
    requires CrossoverInv(st)
    ensures r.dqLong == Push(st.dqLong, st.longW, p)
    ensures |r.dqLong| <= r.longW && |r.dqShort| <= r.shortW
    ensures r.longSum == Sum(r.dqLong) && r.shortSum == Sum(r.dqShort) && r.dqShort == Last(r.dqLong, r.shortW)
    ensures r.shortW == st.shortW && r.longW == st.longW && r.position == st.position
    ensures r.signals == st.signals && r.prevAbove == st.prevAbove
  {
    var long := Slide(st.dqLong, st.longSum, st.longW, p);
    var short := Slide(st.dqShort, st.shortSum, st.shortW, p);
    PushLast(st.dqLong, st.shortW, p);
    LastNested(st.dqLong + [p], st.shortW, st.longW);
    st.(dqLong := long.0, longSum := long.1, dqShort := short.0, shortSum := short.1)
  }

  /**
   * One `on_new_bar` call with the bar's close `p`: nothing until both windows are
   * full; the first full bar only records whether short is above long; afterwards
   * the crossing rule decides, SELL firing when short is no longer above long.
   */
  function CrossoverStep(st: Crossover, p: real): (r: (Crossover, Option<Signal>))
    requires CrossoverInv(st)
    ensures CrossoverInv(r.0)
    ensures r.0.dqLong == Push(st.dqLong, st.longW, p)
    ensures r.0.shortW == st.shortW && r.0.longW == st.longW
    ensures |st.dqLong| < st.longW ==> r.1.None?
  {
    var st1 := SlideBoth(st, p);
    if |st1.dqLong| < st.longW || |st1.dqShort| < st.shortW then (st1, None)
    else
      var above := Above(st1);
      match Decide(st.prevAbove, above, st.prevAbove == Some(true) && !above, st.position)
      case None => (st1.(prevAbove := Some(above)), None)
      case Some(kind) =>
        var sig := Signal(kind, p);
        RecordKeepsAlternation(st.position, st.signals, sig);
        (st1.(prevAbove := Some(above), position := 1 - st.position, signals := st.signals + [sig]), Some(sig))
  }

  /** What a bar emits: a BUY exactly on a switch to short above long while flat, a SELL exactly on a switch back while long; the history records it. */
  lemma CrossoverSignals(st: Crossover, p: real)
    requires CrossoverInv(st)
    ensures var r := CrossoverStep(st, p);
      var full := |r.0.dqLong| == st.longW;
      (r.1 == Some(Signal(Buy, p)) <==> full && st.prevAbove == Some(false) && Above(r.0) && st.position == 0)
      && (r.1 == Some(Signal(Sell, p)) <==> full && st.prevAbove == Some(true) && !Above(r.0) && st.position == 1)
      && (r.1.Some? ==> r.0.signals == st.signals + [r.1.value] && r.1.value.price == p)
      && (r.1.None? ==> r.0.signals == st.signals && r.0.position == st.position)
  {
    var st1 := SlideBoth(st, p);
    var r := CrossoverStep(st, p);
    if |st1.dqLong| < st.longW || |st1.dqShort| < st.shortW {
      assert r == (st1, None);
    } else {
      var above := Above(st1);
      var d := Decide(st.prevAbove, above, st.prevAbove == Some(true) && !above, st.position);
      if d.None? {
        assert r == (st1.(prevAbove := Some(above)), None);
      } else {
        var sig := Signal(d.value, p);
        assert r == (st1.(prevAbove := Some(above), position := 1 - st.position, signals := st.signals + [sig]), Some(sig));
      }
      assert Above(r.0) == above;
    }
  }

  function CrossoverRun(st: Crossover, closes: seq<real>): (r: (Crossover, seq<Option<Signal>>))
    requires CrossoverInv(st)
    ensures CrossoverInv(r.0) && |r.1| == |closes|
    ensures r.0.shortW == st.shortW && r.0.longW == st.longW
  {
    if |closes| == 0 then (st, [])
    else
      var before := CrossoverRun(st, closes[..|closes| - 1]);
      var step := CrossoverStep(before.0, closes[|closes| - 1]);
      (step.0, before.1 + [step.1])
  }

  /** One more close extends the run by one step. */
  lemma CrossoverRunLast(st: Crossover, closes: seq<real>)
    requires CrossoverInv(st) && |closes| > 0
    ensures var before := CrossoverRun(st, closes[..|closes| - 1]);
      var step := CrossoverStep(before.0, closes[|closes| - 1]);
      CrossoverRun(st, closes) == (step.0, before.1 + [step.1])
  {
  }

  /**
   * From construction, the long deque holds the last `long_window` closes and
   * nothing is emitted on the first `long_window` bars.
   */
  lemma {:induction false} CrossoverRunFacts(st: Crossover, closes: seq<real>)
    requires CrossoverInv(st) && st.dqLong == [] && st.prevAbove.None?
    ensures CrossoverRun(st, closes).0.dqLong == Last(closes, st.longW)
    ensures forall k :: 0 <= k < |closes| && k < st.longW ==> CrossoverRun(st, closes).1[k].None?
    decreases |closes|
  {
    if |closes| > 0 {
      var init, p := closes[..|closes| - 1], closes[|closes| - 1];
      assert init + [p] == closes;
      CrossoverRunFacts(st, init);
      var before := CrossoverRun(st, init);
      CrossoverRunLast(st, closes);
      CrossoverExtend(st.longW, init, p, before.0, before.1);
    }
  }

  /** One more bar keeps the long deque on the last closes and the quiet start. */
  lemma CrossoverExtend(l: nat, init: seq<real>, p: real, before: Crossover, outs: seq<Option<Signal>>)
    requires CrossoverInv(before) && before.longW == l && before.dqLong == Last(init, l) && |outs| == |init|
    requires forall k :: 0 <= k < |init| && k < l ==> outs[k].None?
    ensures CrossoverStep(before, p).0.dqLong == Last(init + [p], l)
    ensures forall k :: 0 <= k <= |init| && k < l ==> (outs + [CrossoverStep(before, p).1])[k].None?
  {
    PushLast(init, l, p);
    QuietAppend(outs, CrossoverStep(before, p).1, l);
  }

  /** A run of outputs silent on its first `l` entries stays so when one more output, silent if still within those `l`, is appended. */
  lemma QuietAppend(outs: seq<Option<Signal>>, o: Option<Signal>, l: nat)
    requires forall k :: 0 <= k < |outs| && k < l ==> outs[k].None?
    requires |outs| < l ==> o.None?
    ensures forall k :: 0 <= k <= |outs| && k < l ==> (outs + [o])[k].None?
  {
    forall k | 0 <= k <= |outs| && k < l
      ensures (outs + [o])[k].None?
    {
      if k < |outs| {
        assert (outs + [o])[k] == outs[k];
      }
    }
  }

  // ---- MomentumStrategy ----

  datatype Momentum = Momentum(window: nat, threshold: real, dq: seq<real>, position: int,
                               prevAbove: Option<bool>, signals: seq<Signal>)

  /** The constructor: a window below 1 is refused. */
  function NewMomentum(window: int, threshold: real): (r: Result<Momentum, string>)
    ensures r.Err? <==> window < 1
    ensures r.Err? ==> r.error == "momentum_window must be >= 1"
    ensures r.Ok? ==> MomentumInv(r.value) && r.value.dq == [] && r.value.prevAbove.None?
  {
    if window < 1 then Err("momentum_window must be >= 1")
    else Ok(Momentum(window, threshold, [], 0, None, []))
  }

  predicate MomentumInv(st: Momentum) {
    st.window >= 1 && |st.dq| <= st.window + 1 && PositionMatches(st.position, st.signals)
  }

  /** The rate of change over the window: (price - price_n) / price_n. */
  function RateOfChange(priceN: real, price: real): real
    requires priceN != 0.0
  {
    (price - priceN) / priceN
  }

  /**
   * One `on_new_bar` call with the bar's close `p`: nothing until `window + 1`
   * closes are held or while the oldest of them is 0; the first computed momentum
   * only records whether it is above the threshold; afterwards BUY on a cross
   * above the threshold while flat, SELL whenever momentum is below -threshold
   * while long.
   */
  function MomentumStep(st: Momentum, p: real): (r: (Momentum, Option<Signal>))
    requires MomentumInv(st)
    ensures MomentumInv(r.0)
    ensures r.0.dq == Last(st.dq + [p], st.window + 1)
    ensures r.0.window == st.window && r.0.threshold == st.threshold
    ensures |st.dq| < st.window && st.prevAbove.None? ==> r.1.None? && r.0.prevAbove.None?
  {
    var dq := Push(st.dq, st.window + 1, p);
    var st1 := st.(dq := dq);
    if |dq| <= st.window || dq[0] == 0.0 then (st1, None)
    else
      var momentum := RateOfChange(dq[0], p);
      var above := momentum > st.threshold;
      match Decide(st.prevAbove, above, momentum < -st.threshold, st.position)
      case None => (st1.(prevAbove := Some(above)), None)
      case Some(kind) =>
        var sig := Signal(kind, p);
        RecordKeepsAlternation(st.position, st.signals, sig);
        (st1.(prevAbove := Some(above), position := 1 - st.position, signals := st.signals + [sig]), Some(sig))
  }

  /** What a bar emits, in terms of the momentum over the window. */
  lemma MomentumSignals(st: Momentum, p: real)
    requires MomentumInv(st)
    ensures var r := MomentumStep(st, p);
      var ready := |r.0.dq| == st.window + 1 && r.0.dq[0] != 0.0;
      (r.1 == Some(Signal(Buy, p)) <==>
         ready && st.prevAbove == Some(false) && RateOfChange(r.0.dq[0], p) > st.threshold && st.position == 0)
      && (r.1 == Some(Signal(Sell, p)) <==>
         ready && st.prevAbove.Some? && RateOfChange(r.0.dq[0], p) < -st.threshold && st.position == 1)
      && (r.1.Some? ==> r.0.signals == st.signals + [r.1.value])
      && (r.1.None? ==> r.0.signals == st.signals && r.0.position == st.position)
  {
  }

  function MomentumRun(st: Momentum, closes: seq<real>): (r: (Momentum, seq<Option<Signal>>))
    requires MomentumInv(st)
    ensures MomentumInv(r.0) && |r.1| == |closes|
    ensures r.0.window == st.window
  {
    if |closes| == 0 then (st, [])
    else
      var before := MomentumRun(st, closes[..|closes| - 1]);
      var step := MomentumStep(before.0, closes[|closes| - 1]);
      (step.0, before.1 + [step.1])
  }

  lemma MomentumRunLast(st: Momentum, closes: seq<real>)
    requires MomentumInv(st) && |closes| > 0
    ensures var before := MomentumRun(st, closes[..|closes| - 1]);
      var step := MomentumStep(before.0, closes[|closes| - 1]);
      MomentumRun(st, closes) == (step.0, before.1 + [step.1])
  {
  }

  /**
   * The state of a momentum run over `closes` from construction: the deque holds the
   * last `window + 1` closes, no relation is recorded before `window` closes, and
   * nothing is emitted on the first `window` bars.
   */
  predicate QuietStart(r: (Momentum, seq<Option<Signal>>), closes: seq<real>, w: nat) {
    r.0.dq == Last(closes, w + 1)
    && (|closes| < w ==> r.0.prevAbove.None?)
    && |r.1| == |closes|
    && forall k :: 0 <= k < |closes| && k < w ==> r.1[k].None?
  }

  /** One more bar keeps the deque on the last closes and the quiet start. */
  lemma MomentumExtend(w: nat, init: seq<real>, p: real, before: Momentum, outs: seq<Option<Signal>>)
    requires MomentumInv(before) && before.window == w && QuietStart((before, outs), init, w)
    ensures QuietStart((MomentumStep(before, p).0, outs + [MomentumStep(before, p).1]), init + [p], w)
  {
    var step := MomentumStep(before, p);
    QuietStartStep(init, p, w, before, outs, step.0, step.1);
  }

  lemma QuietStartStep(init: seq<real>, p: real, w: nat, before: Momentum, outs: seq<Option<Signal>>,
                       after: Momentum, o: Option<Signal>)
    requires QuietStart((before, outs), init, w)
    requires after.dq == Last(before.dq + [p], w + 1)
    requires |before.dq| < w && before.prevAbove.None? ==> o.None? && after.prevAbove.None?
    ensures QuietStart((after, outs + [o]), init + [p], w)
  {
    LastAppend(init, p, w + 1);
    QuietAppend(outs, o, w);
  }

  /** From construction, the deque holds the last `window + 1` closes and nothing is emitted on the first `window` bars. */
  lemma {:induction false} MomentumQuietStart(st: Momentum, closes: seq<real>)
    requires MomentumInv(st) && st.dq == [] && st.prevAbove.None?
    ensures QuietStart(MomentumRun(st, closes), closes, st.window)
    decreases |closes|
  {
    if |closes| > 0 {
      var init, p := closes[..|closes| - 1], closes[|closes| - 1];
      assert init + [p] == closes;
      MomentumQuietStart(st, init);
      var before := MomentumRun(st, init);
      MomentumRunLast(st, closes);
      MomentumExtend(st.window, init, p, before.0, before.1);
    }
  }
}
