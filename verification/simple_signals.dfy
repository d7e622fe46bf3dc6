/**
 * The small tick strategies of the early assignments: Assignment 1's two-step
 * momentum and Assignment 2's buy-and-hold benchmark.
 */
module SimpleSignals {
  import opened Wrappers
  import opened Series

  // ---- Momentum (Assignment 1) ----

  /** The previous price, the previous difference and the number of calls so far. */
  datatype TickMomentum = TickMomentum(prevPrice: Option<real>, prevDiff: Option<real>, iter: nat)

  const NewTickMomentum := TickMomentum(None, None, 0)

  predicate TickMomentumInv(st: TickMomentum) {
    (st.iter == 0 <==> st.prevPrice.None?) && (st.iter <= 1 <==> st.prevDiff.None?)
  }

  /** One call of `generate_signals`: two rises in a row sell, two falls in a row buy. */
  function TickMomentumStep(st: TickMomentum, p: real): (r: (TickMomentum, Action))
    requires TickMomentumInv(st)
    ensures TickMomentumInv(r.0) && r.0.prevPrice == Some(p)
  {
    if st.iter == 0 then (TickMomentum(Some(p), None, 1), Hold)
    else if st.iter == 1 then (TickMomentum(Some(p), Some(p - st.prevPrice.value), 2), Hold)
    else
      var diff := p - st.prevPrice.value;
      var next := TickMomentum(Some(p), Some(diff), st.iter + 1);
      if diff > 0.0 && st.prevDiff.value > 0.0 then (next, Sell)
      else if diff < 0.0 && st.prevDiff.value < 0.0 then (next, Buy)
      else (next, Hold)
  }

  /** The signal promised for tick `k` of a stream: HOLD on the first two, then by the signs of the last two differences. */
  function MomentumAt(ps: seq<real>, k: nat): Action
    requires k < |ps|
  {
    if k < 2 then Hold
    else
      var d1, d2 := ps[k - 1] - ps[k - 2], ps[k] - ps[k - 1];
      if d2 > 0.0 && d1 > 0.0 then Sell else if d2 < 0.0 && d1 < 0.0 then Buy else Hold
  }

  function TickMomentumRun(st: TickMomentum, ps: seq<real>): (r: (TickMomentum, seq<Action>))
    requires TickMomentumInv(st)
    ensures TickMomentumInv(r.0) && |r.1| == |ps|
  {
    if |ps| == 0 then (st, [])
    else
      var before := TickMomentumRun(st, ps[..|ps| - 1]);
      var step := TickMomentumStep(before.0, ps[|ps| - 1]);
      (step.0, before.1 + [step.1])
  }

  /**
   * From a fresh strategy: after every call the previous price is the current one,
   * from the second call the previous difference is the latest difference, and the
   * signals are exactly the promised ones.
   */
  lemma {:induction false} TickMomentumSignals(ps: seq<real>)
    ensures var r := TickMomentumRun(NewTickMomentum, ps);
      r.0.iter == |ps|
      && (|ps| >= 1 ==> r.0.prevPrice == Some(ps[|ps| - 1]))
      && (|ps| >= 2 ==> r.0.prevDiff == Some(ps[|ps| - 1] - ps[|ps| - 2]))
      && forall k :: 0 <= k < |ps| ==> r.1[k] == MomentumAt(ps, k)
    decreases |ps|
  {
    if |ps| > 0 {
      var init, p := ps[..|ps| - 1], ps[|ps| - 1];
      assert init + [p] == ps;
      TickMomentumSignals(init);
      var before := TickMomentumRun(NewTickMomentum, init);
      var step := TickMomentumStep(before.0, p);
      assert TickMomentumRun(NewTickMomentum, ps) == (step.0, before.1 + [step.1]);
      forall k | 0 <= k < |ps|
        ensures (before.1 + [step.1])[k] == MomentumAt(ps, k)
      {
        if k < |init| {
          assert (before.1 + [step.1])[k] == before.1[k];
          assert MomentumAt(init, k) == MomentumAt(ps, k);
        } else {
          assert (before.1 + [step.1])[k] == step.1;
        }
      }
    }
  }

  // ---- BenchmarkStrategy (Assignment 2) ----

  datatype Benchmark = Benchmark(isFirstDay: bool)

  const NewBenchmark := Benchmark(true)

  /** BUY on the first call, HOLD on every later one. */
  function BenchmarkStep(st: Benchmark): (r: (Benchmark, Action))
    ensures !r.0.isFirstDay
    ensures r.1 == Buy <==> st.isFirstDay
    ensures r.1 != Sell
  {
    if st.isFirstDay then (Benchmark(false), Buy) else (st, Hold)
  }

  function BenchmarkRun(st: Benchmark, n: nat): (r: (Benchmark, seq<Action>))
    ensures |r.1| == n
  {
    if n == 0 then (st, [])
    else
      var before := BenchmarkRun(st, n - 1);
      var step := BenchmarkStep(before.0);
      (step.0, before.1 + [step.1])
  }

  function CountBuys(acts: seq<Action>): nat {
    if |acts| == 0 then 0 else CountBuys(acts[..|acts| - 1]) + (if acts[|acts| - 1] == Buy then 1 else 0)
  }

  /** Over any number of ticks from a fresh benchmark: BUY first, HOLD after, so exactly one BUY and never a SELL. */
  lemma {:induction false} BenchmarkBuysOnce(n: nat)
    requires n >= 1
    ensures var acts := BenchmarkRun(NewBenchmark, n).1;
      acts[0] == Buy && (forall k :: 1 <= k < n ==> acts[k] == Hold) && CountBuys(acts) == 1
    ensures !BenchmarkRun(NewBenchmark, n).0.isFirstDay
    decreases n
  {
    if n > 1 {
      BenchmarkBuysOnce(n - 1);
      var before := BenchmarkRun(NewBenchmark, n - 1);
      var step := BenchmarkStep(before.0);
      var acts := before.1 + [step.1];
      assert acts[..n - 1] == before.1;
      forall k | 1 <= k < n
        ensures acts[k] == Hold
      {
        if k < n - 1 {
          assert acts[k] == before.1[k];
        }
      }
    } else {
      var acts := BenchmarkRun(NewBenchmark, 1).1;
      assert acts == [Buy];
      assert acts[..0] == [];
    }
  }
}
