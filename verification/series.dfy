/** Sums, windows and extremes of price series, plus the trading signal vocabulary. */
module Series {

  /** The three actions the strategies emit. */
  datatype Action = Buy | Sell | Hold

  /** BUY when the first average is above the second, SELL when below, HOLD on equality. */
  function Crossover(shortAvg: real, longAvg: real): (a: Action)
    ensures a == Buy <==> shortAvg > longAvg
    ensures a == Sell <==> shortAvg < longAvg
  {
    if shortAvg > longAvg then Buy else if shortAvg < longAvg then Sell else Hold
  }

  /** Sum of a series, accumulated from the front as a running total would be. */
  function Sum(xs: seq<real>): real {
    if |xs| == 0 then 0.0 else Sum(xs[..|xs| - 1]) + xs[|xs| - 1]
  }

  lemma SumAppend(xs: seq<real>, x: real)
    ensures Sum(xs + [x]) == Sum(xs) + x
  {
    assert (xs + [x])[..|xs|] == xs;
  }

  lemma {:induction false} SumDropFirst(xs: seq<real>)
    requires |xs| > 0
    ensures Sum(xs) == xs[0] + Sum(xs[1..])
    decreases |xs|
  {
    if |xs| > 1 {
      SumDropFirst(xs[..|xs| - 1]);
      assert xs[..|xs| - 1][1..] == xs[1..][..|xs[1..]| - 1];
      assert xs[..|xs| - 1][0] == xs[0];
    } else {
      assert xs[..0] == [] && xs[1..] == [];
    }
  }

  /** The last `n` elements of a series, or all of it when it is shorter. */
  function Last<T>(xs: seq<T>, n: nat): (w: seq<T>)
    ensures |w| == if |xs| < n then |xs| else n
    ensures w == xs[if |xs| < n then 0 else |xs| - n..]
  {
    if |xs| <= n then xs else xs[|xs| - n..]
  }

  /** The last `s` of the last `l >= s` elements are the last `s` elements. */
  lemma LastNested<T>(xs: seq<T>, s: nat, l: nat)
    requires s <= l
    ensures Last(Last(xs, l), s) == Last(xs, s)
  {
  }

  lemma LastAppend<T>(xs: seq<T>, x: T, n: nat)
    requires n >= 1
    ensures Last(xs + [x], n) == Last(Last(xs, n) + [x], n)
  {
  }

  /** Arithmetic mean of a non-empty series. */
  function Mean(xs: seq<real>): real
    requires |xs| > 0
  {
    Sum(xs) / |xs| as real
  }

  function Max(xs: seq<real>): (m: real)
    requires |xs| > 0
    ensures m in xs
    ensures forall i :: 0 <= i < |xs| ==> xs[i] <= m
  {
    if |xs| == 1 then xs[0]
    else var m := Max(xs[..|xs| - 1]); if xs[|xs| - 1] > m then xs[|xs| - 1] else m
  }

  function Min(xs: seq<real>): (m: real)
    requires |xs| > 0
    ensures m in xs
    ensures forall i :: 0 <= i < |xs| ==> m <= xs[i]
  {
    if |xs| == 1 then xs[0]
    else var m := Min(xs[..|xs| - 1]); if xs[|xs| - 1] < m then xs[|xs| - 1] else m
  }

  /** Every element of the series lies in [lo, hi]. */
  predicate Within(xs: seq<real>, lo: real, hi: real) {
    forall i :: 0 <= i < |xs| ==> lo <= xs[i] <= hi
  }

  lemma {:induction false} SumWithin(xs: seq<real>, lo: real, hi: real)
    requires Within(xs, lo, hi)
    ensures |xs| as real * lo <= Sum(xs) <= |xs| as real * hi
    decreases |xs|
  {
    if |xs| > 0 {
      var init := xs[..|xs| - 1];
      assert Within(init, lo, hi) by {
        assert forall i :: 0 <= i < |init| ==> init[i] == xs[i];
      }
      SumWithin(init, lo, hi);
      var n := |init| as real;
      assert |xs| as real * lo == n * lo + lo;
      assert |xs| as real * hi == n * hi + hi;
    }
  }

  lemma MeanBounds(xs: seq<real>, lo: real, hi: real)
    requires |xs| > 0 && Within(xs, lo, hi)
    ensures lo <= Mean(xs) <= hi
  {
    SumWithin(xs, lo, hi);
    DivideBounds(Sum(xs), |xs| as real, lo, hi);
  }

  lemma MeanWithin(xs: seq<real>)
    requires |xs| > 0
    ensures Min(xs) <= Mean(xs) <= Max(xs)
  {
    MeanBounds(xs, Min(xs), Max(xs));
  }

  lemma DivideBounds(s: real, n: real, lo: real, hi: real)
    requires n > 0.0 && n * lo <= s <= n * hi
    ensures lo <= s / n <= hi
  {
    assert s / n * n == s;
  }

  // ---- Exponential smoothing ----

  /** The smoothing factor 2 / (span + 1). */
  function Alpha(span: nat): (a: real)
    requires span >= 1
    ensures 0.0 < a <= 1.0
  {
    2.0 / (span + 1) as real
  }

  /** The left fold `ema = alpha * price + (1 - alpha) * ema` started at the first price. */
  function Smooth(xs: seq<real>, alpha: real): real
    requires |xs| > 0
  {
    if |xs| == 1 then xs[0] else alpha * xs[|xs| - 1] + (1.0 - alpha) * Smooth(xs[..|xs| - 1], alpha)
  }

  lemma MulNonneg(a: real, b: real)
    requires a >= 0.0 && b >= 0.0
    ensures a * b >= 0.0
  {
  }

  lemma Convex(alpha: real, x: real, y: real, lo: real, hi: real)
    requires 0.0 < alpha <= 1.0 && lo <= x <= hi && lo <= y <= hi
    ensures lo <= alpha * x + (1.0 - alpha) * y <= hi
  {
    MulNonneg(alpha, x - lo);
    MulNonneg(1.0 - alpha, y - lo);
    MulNonneg(alpha, hi - x);
    MulNonneg(1.0 - alpha, hi - y);
    assert alpha * x + (1.0 - alpha) * y - lo == alpha * (x - lo) + (1.0 - alpha) * (y - lo);
    assert hi - (alpha * x + (1.0 - alpha) * y) == alpha * (hi - x) + (1.0 - alpha) * (hi - y);
  }

  /** The fold is a convex combination of the prices, so it stays within any bounds they respect. */
  lemma {:induction false} SmoothWithin(xs: seq<real>, alpha: real, lo: real, hi: real)
    requires |xs| > 0 && 0.0 < alpha <= 1.0 && Within(xs, lo, hi)
    ensures lo <= Smooth(xs, alpha) <= hi
    decreases |xs|
  {
    if |xs| > 1 {
      SmoothWithin(xs[..|xs| - 1], alpha, lo, hi);
      Convex(alpha, xs[|xs| - 1], Smooth(xs[..|xs| - 1], alpha), lo, hi);
    }
  }
}
