/**
 * The moving-average crossover strategies of Assignments 1, 2, 3 and 8. Each is a
 * state record with a step function taking one tick's price to a new state and a
 * signal. All of them promise the same thing, stated once in `Reference`: HOLD
 * until `l` earlier prices exist, then the crossover of the mean of the last `s`
 * earlier prices against the mean of the last `l`, the current price not yet
 * included.
 */
module MovingAverages {
  import opened Series

  /** The signal for a tick, given every earlier price of the stream. */
  function Reference(history: seq<real>, s: nat, l: nat): Action
    requires 1 <= s <= l
  {
    if |history| < l then Hold
    else Crossover(Sum(Last(history, s)) / s as real, Sum(Last(history, l)) / l as real)
  }

  /** The signals `acts` are the reference signals of the stream `ps`, tick by tick. */
  predicate Follows(acts: seq<Action>, ps: seq<real>, s: nat, l: nat)
    requires 1 <= s <= l
  {
    |acts| == |ps| && forall k :: 0 <= k < |ps| ==> acts[k] == Reference(ps[..k], s, l)
  }

  lemma FollowsAppend(acts: seq<Action>, ps: seq<real>, s: nat, l: nat, p: real)
    requires 1 <= s <= l && Follows(acts, ps, s, l)
    ensures Follows(acts + [Reference(ps, s, l)], ps + [p], s, l)
  {
    var ps' := ps + [p];
    forall k | 0 <= k < |ps'|
      ensures (acts + [Reference(ps, s, l)])[k] == Reference(ps'[..k], s, l)
    {
      assert ps'[..k] == if k < |ps| then ps[..k] else ps;
    }
  }

  lemma SliceAppend(xs: seq<real>, p: real, k: nat)
    requires k <= |xs|
    ensures (xs + [p])[k..] == xs[k..] + [p]
  {
  }

  lemma LastOfLast(h: seq<real>, s: nat, l: nat)
    requires s <= l <= |h|
    ensures Last(h, l)[l - s..] == Last(h, s)
  {
  }

  lemma {:induction false} SumDropLast(xs: seq<real>, p: real)
    requires |xs| > 0
    ensures Sum(xs[1..] + [p]) == Sum(xs) - xs[0] + p
  {
    SumDropFirst(xs);
    SumAppend(xs[1..], p);
  }

  // ---- NaiveMovingAverageStrategy (Assignment 3) ----

  /** The price list and its size; after warm-up neither changes again. */
  datatype Naive = Naive(prices: seq<real>, size: nat, short: nat, long: nat)

  function NewNaive(s: nat, l: nat): Naive {
    Naive([], 0, s, l)
  }

  predicate NaiveInv(st: Naive) {
    1 <= st.short <= st.long && st.size == |st.prices| <= st.long
  }

  /** One call of `generate_signals`: store the price during warm-up, otherwise average the stored list. */
  function NaiveStep(st: Naive, p: real): (r: (Naive, Action))
    requires NaiveInv(st)
    ensures NaiveInv(r.0)
    ensures r.0.prices == if st.size < st.long then st.prices + [p] else st.prices
    ensures r.0.short == st.short && r.0.long == st.long
  {
    if st.size < st.long then (st.(prices := st.prices + [p], size := st.size + 1), Hold)
    else
      var shortAvg := Sum(st.prices[st.size - st.short..]) / st.short as real;
      var longAvg := Sum(st.prices[st.size - st.long..]) / st.long as real;
      (st, Crossover(shortAvg, longAvg))
  }

  /** The states and signals over a stream of prices, in order. */
  function NaiveRun(st: Naive, ps: seq<real>): (r: (Naive, seq<Action>))
    requires NaiveInv(st)
    ensures NaiveInv(r.0) && |r.1| == |ps|
    ensures r.0.short == st.short && r.0.long == st.long
  {
    if |ps| == 0 then (st, [])
    else
      var before := NaiveRun(st, ps[..|ps| - 1]);
      var step := NaiveStep(before.0, ps[|ps| - 1]);
      (step.0, before.1 + [step.1])
  }

  /** HOLD for the first `l` ticks, then forever the reference signal of the first `l` prices. */
  predicate NaiveFollows(acts: seq<Action>, ps: seq<real>, s: nat, l: nat)
    requires 1 <= s <= l
  {
    |acts| == |ps| && forall k :: 0 <= k < |ps| ==> acts[k] == if k < l then Hold else Reference(ps[..l], s, l)
  }

  lemma NaiveFollowsAppend(acts: seq<Action>, ps: seq<real>, s: nat, l: nat, p: real, a: Action)
    requires 1 <= s <= l && NaiveFollows(acts, ps, s, l)
    requires a == if |ps| < l then Hold else Reference(ps[..l], s, l)
    ensures NaiveFollows(acts + [a], ps + [p], s, l)
  {
    if |ps| >= l {
      assert (ps + [p])[..l] == ps[..l];
    }
  }

  lemma NaiveRunLast(st: Naive, ps: seq<real>)
    requires NaiveInv(st) && |ps| > 0
    ensures var before := NaiveRun(st, ps[..|ps| - 1]);
      var step := NaiveStep(before.0, ps[|ps| - 1]);
      NaiveRun(st, ps) == (step.0, before.1 + [step.1])
  {
  }

  /**
   * The naive strategy stores only its first `l` prices: it holds for `l` ticks and
   * then repeats, on every later tick, the reference signal of those first prices.
   */
  lemma {:induction false} NaiveSignals(s: nat, l: nat, ps: seq<real>)
    requires 1 <= s <= l
    ensures NaiveRun(NewNaive(s, l), ps).0.prices == ps[..if |ps| < l then |ps| else l]
    ensures NaiveFollows(NaiveRun(NewNaive(s, l), ps).1, ps, s, l)
    decreases |ps|
  {
    if |ps| > 0 {
      var init, p := ps[..|ps| - 1], ps[|ps| - 1];
      assert init + [p] == ps;
      NaiveSignals(s, l, init);
      var before := NaiveRun(NewNaive(s, l), init);
      NaiveRunLast(NewNaive(s, l), ps);
      NaiveExtend(s, l, init, p, before.0, before.1);
    }
  }

  /** One more tick keeps the stored prefix and the signal pattern of `NaiveSignals`. */
  lemma NaiveExtend(s: nat, l: nat, init: seq<real>, p: real, st: Naive, acts: seq<Action>)
    requires 1 <= s <= l && NaiveInv(st) && st.short == s && st.long == l
    requires st.prices == init[..if |init| < l then |init| else l]
    requires NaiveFollows(acts, init, s, l)
    ensures NaiveStep(st, p).0.prices == (init + [p])[..if |init| + 1 < l then |init| + 1 else l]
    ensures NaiveFollows(acts + [NaiveStep(st, p).1], init + [p], s, l)
  {
    var ps := init + [p];
    var m := if |init| < l then |init| else l;
    assert init[..m] == ps[..m];
    if |init| < l {
      assert ps[..m] + [p] == ps[..m + 1];
    }
    NaiveStepMatches(st, init[..m], p);
    NaiveFollowsAppend(acts, init, s, l, p, NaiveStep(st, p).1);
  }

  /** A step of the naive strategy signals the reference signal of its stored list. */
  lemma NaiveStepMatches(st: Naive, h: seq<real>, p: real)
    requires NaiveInv(st) && st.prices == h
    ensures NaiveStep(st, p).1 == Reference(h, st.short, st.long)
    ensures st.size == st.long ==> NaiveStep(st, p).0 == st
  {
    if st.size == st.long {
      var shortSum, longSum := Sum(h[|h| - st.short..]), Sum(h[|h| - st.long..]);
      assert Last(h, st.short) == h[|h| - st.short..];
      assert Last(h, st.long) == h[|h| - st.long..];
      assert NaiveStep(st, p).1 == Crossover(shortSum / st.short as real, longSum / st.long as real);
    }
  }

  // ---- WindowedMovingAverageStrategy (Assignment 3; copied in Assignment 8) ----

  /** Two deques with their running sums; `size` counts warm-up ticks. */
  datatype Windowed = Windowed(dqLong: seq<real>, dqShort: seq<real>, size: nat, short: nat, long: nat,
                               shortSum: real, longSum: real)

  function NewWindowed(s: nat, l: nat): Windowed {
    Windowed([], [], 0, s, l, 0.0, 0.0)
  }

  /** Where the short deque starts inside the long one: the last `s` of the `l` warm-up slots. */
  function ShortStart(dq: seq<real>, s: nat, l: nat): nat {
    if l <= s then 0 else if l - s > |dq| then |dq| else l - s
  }

  /** The running sums equal their deques' sums, the long deque holds at most `l` prices and the short deque is its tail from `ShortStart`. */
  predicate WindowedInv(st: Windowed) {
    1 <= st.short && 1 <= st.long && st.size == |st.dqLong| <= st.long
    && st.longSum == Sum(st.dqLong) && st.shortSum == Sum(st.dqShort)
    && st.dqShort == st.dqLong[ShortStart(st.dqLong, st.short, st.long)..]
  }

  /** A warm-up tick: the price joins the long deque, and the short deque once within the last `s` warm-up slots. */
  function WindowedWarm(st: Windowed, p: real): Windowed {
    var inShort := st.size >= st.long - st.short;
    Windowed(st.dqLong + [p], if inShort then st.dqShort + [p] else st.dqShort, st.size + 1, st.short, st.long,
             if inShort then st.shortSum + p else st.shortSum, st.longSum + p)
  }

  /** A later tick: both deques drop their oldest price and take the new one. */
  function WindowedSlide(st: Windowed, p: real): Windowed
    requires |st.dqLong| > 0 && |st.dqShort| > 0
  {
    Windowed(st.dqLong[1..] + [p], st.dqShort[1..] + [p], st.size, st.short, st.long,
             st.shortSum - st.dqShort[0] + p, st.longSum - st.dqLong[0] + p)
  }

  lemma WarmKeepsInv(st: Windowed, p: real)
    requires WindowedInv(st) && st.size < st.long
    ensures WindowedInv(WindowedWarm(st, p))
  {
    var r := WindowedWarm(st, p);
    SumAppend(st.dqLong, p);
    assert r.longSum == Sum(r.dqLong);
    WarmShortTail(st, p);
    assert r.shortSum == Sum(r.dqShort) by {
      SumAppend(st.dqShort, p);
    }
  }

  /** After a warm-up tick the short deque is still the long one's tail from `ShortStart`. */
  lemma WarmShortTail(st: Windowed, p: real)
    requires WindowedInv(st) && st.size < st.long
    ensures WindowedWarm(st, p).dqShort == (st.dqLong + [p])[ShortStart(st.dqLong + [p], st.short, st.long)..]
  {
    var dq := st.dqLong + [p];
    if st.long <= st.short {
      assert st.dqShort == st.dqLong;
    } else {
      var k := st.long - st.short;
      if st.size >= k {
        assert ShortStart(st.dqLong, st.short, st.long) == k;
        SliceAppend(st.dqLong, p, k);
      } else {
        assert st.dqShort == [];
        assert ShortStart(dq, st.short, st.long) == |dq|;
      }
    }
  }

  lemma SlideKeepsInv(st: Windowed, p: real)
    requires WindowedInv(st) && st.size == st.long
    ensures 0 < |st.dqShort| <= st.short
    ensures WindowedInv(WindowedSlide(st, p))
  {
    SumDropLast(st.dqLong, p);
    SumDropLast(st.dqShort, p);
    var start := ShortStart(st.dqLong, st.short, st.long);
    assert (st.dqLong[1..] + [p])[start..] == st.dqShort[1..] + [p];
  }

  /** One call of `generate_signals`. */
  function WindowedStep(st: Windowed, p: real): (r: (Windowed, Action))
    requires WindowedInv(st)
    ensures WindowedInv(r.0)
    ensures r.0.short == st.short && r.0.long == st.long
    ensures st.size == st.long ==> r.0.size == st.long && r.0.dqLong == st.dqLong[1..] + [p]
    ensures st.size < st.long ==> r.0.dqLong == st.dqLong + [p] && r.1 == Hold
  {
    if st.size < st.long then
      WarmKeepsInv(st, p);
      (WindowedWarm(st, p), Hold)
    else
      SlideKeepsInv(st, p);
      var shortAvg := st.shortSum / st.short as real;
      var longAvg := st.longSum / st.long as real;
      // The short deque never exceeds `s` after the slide, so the source's extra `popleft` cannot fire.
      if |st.dqShort[1..] + [p]| > st.short then assert false; (st, Hold)
      else (WindowedSlide(st, p), Crossover(shortAvg, longAvg))
  }

  function WindowedRun(st: Windowed, ps: seq<real>): (r: (Windowed, seq<Action>))
    requires WindowedInv(st)
    ensures WindowedInv(r.0) && |r.1| == |ps|
    ensures r.0.short == st.short && r.0.long == st.long
  {
    if |ps| == 0 then (st, [])
    else
      var before := WindowedRun(st, ps[..|ps| - 1]);
      var step := WindowedStep(before.0, ps[|ps| - 1]);
      (step.0, before.1 + [step.1])
  }

  /** After warm-up the deques hold exactly `l` and `s` prices, the short one being the long one's tail. */
  lemma WindowedFull(st: Windowed)
    requires WindowedInv(st) && st.size == st.long && st.short <= st.long
    ensures |st.dqLong| == st.long && |st.dqShort| == st.short
    ensures st.dqShort == Last(st.dqLong, st.short)
  {
  }

  /** One tick keeps the long deque equal to the last `l` prices and signals the reference signal. */
  lemma WindowedStepMatches(st: Windowed, h: seq<real>, p: real)
    requires WindowedInv(st) && st.short <= st.long && st.dqLong == Last(h, st.long)
    ensures WindowedStep(st, p).1 == Reference(h, st.short, st.long)
    ensures WindowedStep(st, p).0.dqLong == Last(h + [p], st.long)
  {
    if |h| >= st.long {
      WindowedFullStepMatches(st, h, p);
    }
  }

  /** The tick after warm-up: the sums are those of the last `s` and `l` prices, and the deque slides by one. */
  lemma WindowedFullStepMatches(st: Windowed, h: seq<real>, p: real)
    requires WindowedInv(st) && st.short <= st.long && st.dqLong == Last(h, st.long) && |h| >= st.long
    ensures WindowedStep(st, p).1 == Reference(h, st.short, st.long)
    ensures WindowedStep(st, p).0.dqLong == Last(h + [p], st.long)
  {
    LastOfLast(h, st.short, st.long);
    WindowedFull(st);
    assert Last(h + [p], st.long) == st.dqLong[1..] + [p];
    WindowedFullSignal(st, p);
    assert Reference(h, st.short, st.long) == Crossover(Sum(Last(h, st.short)) / st.short as real, Sum(Last(h, st.long)) / st.long as real);
  }

  /** After warm-up a tick compares the running averages. */
  lemma WindowedFullSignal(st: Windowed, p: real)
    requires WindowedInv(st) && st.size == st.long
    ensures WindowedStep(st, p).1 == Crossover(st.shortSum / st.short as real, st.longSum / st.long as real)
  {
    SlideKeepsInv(st, p);
  }

  /**
   * The windowed strategy keeps the reference's promise on every tick: its running
   * sums track exactly the last `s` and `l` earlier prices.
   */
  lemma {:induction false} WindowedMatchesReference(s: nat, l: nat, ps: seq<real>)
    requires 1 <= s <= l
    ensures WindowedRun(NewWindowed(s, l), ps).0.dqLong == Last(ps, l)
    ensures Follows(WindowedRun(NewWindowed(s, l), ps).1, ps, s, l)
    decreases |ps|
  {
    if |ps| > 0 {
      var init, p := ps[..|ps| - 1], ps[|ps| - 1];
      assert init + [p] == ps;
      WindowedMatchesReference(s, l, init);
      var before := WindowedRun(NewWindowed(s, l), init);
      var step := WindowedStep(before.0, p);
      WindowedStepMatches(before.0, init, p);
      FollowsAppend(before.1, init, s, l, p);
      assert WindowedRun(NewWindowed(s, l), ps) == (step.0, before.1 + [step.1]);
    }
  }

  // ---- MAC (Assignment 1; copied in Assignment 2) ----

  /** One deque of the last `l` prices; the short sum covers its slots from `l - s`. */
  datatype Mac = Mac(dq: seq<real>, size: nat, short: nat, long: nat, shortSum: real, longSum: real)

  function NewMac(s: nat, l: nat): Mac {
    Mac([], 0, s, l, 0.0, 0.0)
  }

  predicate MacInv(st: Mac) {
    1 <= st.short <= st.long && st.size == |st.dq| <= st.long
    && st.longSum == Sum(st.dq) && st.shortSum == Sum(st.dq[ShortStart(st.dq, st.short, st.long)..])
  }

  /** One call of `generate_signals`: after warm-up the short sum drops `dq[l - s]` and the long sum `dq[0]`. */
  function MacStep(st: Mac, p: real): (r: (Mac, Action))
    requires MacInv(st)
    ensures MacInv(r.0)
    ensures r.0.short == st.short && r.0.long == st.long
    ensures st.size == st.long ==> r.0.size == st.long && r.0.dq == st.dq[1..] + [p]
    ensures st.size < st.long ==> r.0.dq == st.dq + [p] && r.1 == Hold
  {
    if st.size < st.long then
      var shortSum := if st.size >= st.long - st.short then st.shortSum + p else st.shortSum;
      SumAppend(st.dq, p);
      MacWarmupShort(st, p);
      (Mac(st.dq + [p], st.size + 1, st.short, st.long, shortSum, st.longSum + p), Hold)
    else
      var shortAvg := st.shortSum / st.short as real;
      var longAvg := st.longSum / st.long as real;
      MacSlideKeepsInv(st, p);
      (MacSlide(st, p), Crossover(shortAvg, longAvg))
  }

  /** A tick after warm-up: the short sum drops `dq[l - s]`, the long sum `dq[0]`, and the deque slides. */
  function MacSlide(st: Mac, p: real): Mac
    requires MacInv(st) && st.size == st.long
  {
    var k := st.long - st.short;
    Mac(st.dq[1..] + [p], st.size, st.short, st.long, st.shortSum - st.dq[k] + p, st.longSum - st.dq[0] + p)
  }

  lemma MacSlideKeepsInv(st: Mac, p: real)
    requires MacInv(st) && st.size == st.long
    ensures MacInv(MacSlide(st, p))
  {
    var k := st.long - st.short;
    var r := MacSlide(st, p);
    assert ShortStart(st.dq, st.short, st.long) == k && ShortStart(r.dq, st.short, st.long) == k;
    assert r.longSum == Sum(r.dq) by {
      SumDropLast(st.dq, p);
    }
    assert r.shortSum == Sum(r.dq[k..]) by {
      SumDropLast(st.dq[k..], p);
      assert st.dq[k..][1..] + [p] == r.dq[k..];
    }
  }

  lemma MacWarmupShort(st: Mac, p: real)
    requires MacInv(st) && st.size < st.long
    ensures Sum((st.dq + [p])[ShortStart(st.dq + [p], st.short, st.long)..])
      == if st.size >= st.long - st.short then st.shortSum + p else st.shortSum
  {
    var k := st.long - st.short;
    if st.size >= k {
      SumAppend(st.dq[k..], p);
      assert (st.dq + [p])[k..] == st.dq[k..] + [p];
    } else {
      assert ShortStart(st.dq + [p], st.short, st.long) == |st.dq| + 1;
      assert st.dq[ShortStart(st.dq, st.short, st.long)..] == [];
    }
  }

  function MacRun(st: Mac, ps: seq<real>): (r: (Mac, seq<Action>))
    requires MacInv(st)
    ensures MacInv(r.0) && |r.1| == |ps|
    ensures r.0.short == st.short && r.0.long == st.long
  {
    if |ps| == 0 then (st, [])
    else
      var before := MacRun(st, ps[..|ps| - 1]);
      var step := MacStep(before.0, ps[|ps| - 1]);
      (step.0, before.1 + [step.1])
  }

  lemma MacStepMatches(st: Mac, h: seq<real>, p: real)
    requires MacInv(st) && st.dq == Last(h, st.long)
    ensures MacStep(st, p).1 == Reference(h, st.short, st.long)
    ensures MacStep(st, p).0.dq == Last(h + [p], st.long)
  {
    if |h| >= st.long {
      LastOfLast(h, st.short, st.long);
      assert Last(h + [p], st.long) == st.dq[1..] + [p];
    }
  }

  /** MAC keeps the reference's promise on every tick, so it signals exactly as the windowed strategy does. */
  lemma {:induction false} MacMatchesReference(s: nat, l: nat, ps: seq<real>)
    requires 1 <= s <= l
    ensures MacRun(NewMac(s, l), ps).0.dq == Last(ps, l)
    ensures Follows(MacRun(NewMac(s, l), ps).1, ps, s, l)
    decreases |ps|
  {
    if |ps| > 0 {
      var init, p := ps[..|ps| - 1], ps[|ps| - 1];
      assert init + [p] == ps;
      MacMatchesReference(s, l, init);
      var before := MacRun(NewMac(s, l), init);
      var step := MacStep(before.0, p);
      MacStepMatches(before.0, init, p);
      FollowsAppend(before.1, init, s, l, p);
      assert MacRun(NewMac(s, l), ps) == (step.0, before.1 + [step.1]);
    }
  }

  /** The strategies agree tick by tick: whatever the stream, MAC and the windowed strategy emit the same signals. */
  lemma MacAgreesWithWindowed(s: nat, l: nat, ps: seq<real>)
    requires 1 <= s <= l
    ensures MacRun(NewMac(s, l), ps).1 == WindowedRun(NewWindowed(s, l), ps).1
  {
    MacMatchesReference(s, l, ps);
    WindowedMatchesReference(s, l, ps);
  }

  lemma SumOfFive(a: real, b: real, c: real, d: real, e: real)
    ensures Sum([a, b, c, d, e]) == a + b + c + d + e
  {
    assert Sum([a]) == a by { assert [a][..0] == []; }
    assert Sum([a, b]) == a + b by { assert [a, b][..1] == [a]; }
    assert Sum([a, b, c]) == a + b + c by { assert [a, b, c][..2] == [a, b]; }
    assert Sum([a, b, c, d]) == a + b + c + d by { assert [a, b, c, d][..3] == [a, b, c]; }
    assert [a, b, c, d, e][..4] == [a, b, c, d];
  }

  lemma ReferenceExamples()
    ensures Reference([10.0, 20.0, 30.0, 40.0, 100.0], 2, 5) == Buy
    ensures Reference([100.0, 100.0, 40.0, 30.0, 20.0], 2, 5) == Sell
  {
    var up: seq<real> := [10.0, 20.0, 30.0, 40.0, 100.0];
    var down: seq<real> := [100.0, 100.0, 40.0, 30.0, 20.0];
    assert Last(up, 2) == [40.0, 100.0] && Last(up, 5) == up;
    assert Sum([40.0, 100.0]) == 140.0 by { assert [40.0, 100.0][..1] == [40.0]; assert [40.0][..0] == []; }
    SumOfFive(10.0, 20.0, 30.0, 40.0, 100.0);
    assert Last(down, 2) == [30.0, 20.0] && Last(down, 5) == down;
    assert Sum([30.0, 20.0]) == 50.0 by { assert [30.0, 20.0][..1] == [30.0]; assert [30.0][..0] == []; }
    SumOfFive(100.0, 100.0, 40.0, 30.0, 20.0);
  }

  /** Windows (2, 5): the sixth tick of 10, 20, 30, 40, 100, 100 is BUY for both Assignment 3 strategies. */
  lemma SixthTickBuys()
    ensures NaiveRun(NewNaive(2, 5), [10.0, 20.0, 30.0, 40.0, 100.0, 100.0]).1[5] == Buy
    ensures WindowedRun(NewWindowed(2, 5), [10.0, 20.0, 30.0, 40.0, 100.0, 100.0]).1[5] == Buy
  {
    var up: seq<real> := [10.0, 20.0, 30.0, 40.0, 100.0, 100.0];
    ReferenceExamples();
    assert up[..5] == [10.0, 20.0, 30.0, 40.0, 100.0];
    NaiveSignals(2, 5, up);
    WindowedMatchesReference(2, 5, up);
  }

  /** The reversed stream gives SELL on the sixth tick for both. */
  lemma SixthTickSells()
    ensures NaiveRun(NewNaive(2, 5), [100.0, 100.0, 40.0, 30.0, 20.0, 10.0]).1[5] == Sell
    ensures WindowedRun(NewWindowed(2, 5), [100.0, 100.0, 40.0, 30.0, 20.0, 10.0]).1[5] == Sell
  {
    var down: seq<real> := [100.0, 100.0, 40.0, 30.0, 20.0, 10.0];
    ReferenceExamples();
    assert down[..5] == [100.0, 100.0, 40.0, 30.0, 20.0];
    NaiveSignals(2, 5, down);
    WindowedMatchesReference(2, 5, down);
  }

  /**
   * The windowed strategy does not validate its windows: equal windows are accepted, and
   * since both averages are then over the same prices it holds on every tick.
   */
  lemma EqualWindowsAlwaysHold(s: nat, ps: seq<real>)
    requires 1 <= s
    ensures WindowedInv(NewWindowed(s, s))
    ensures forall k :: 0 <= k < |ps| ==> WindowedRun(NewWindowed(s, s), ps).1[k] == Hold
  {
    WindowedMatchesReference(s, s, ps);
  }
}
