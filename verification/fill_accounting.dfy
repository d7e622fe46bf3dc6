/**
 * The project backtester's position accounting: how a fill moves cash, position,
 * average entry price and realized profit, and how a closing fill records a
 * completed trade. Also the two small helpers of its command line: output-label
 * sanitising and the strategy-name table.
 */
module FillAccounting {
  import opened Wrappers
  import opened Text

  /** A completed (closed) trade; times are opaque instants. */
  datatype TradeRecord = TradeRecord(entryTime: int, exitTime: int, qty: int,
                                     entryPrice: real, exitPrice: real, pnl: real)

  /** The backtester's accounting fields. */
  datatype Account = Account(cash: real, position: int, avgEntry: real, realized: real,
                             openSince: Option<int>, trades: seq<TradeRecord>)

  /** The profit of the completed trades, summed. */
  function PnlSum(trades: seq<TradeRecord>): real {
    if |trades| == 0 then 0.0 else PnlSum(trades[..|trades| - 1]) + trades[|trades| - 1].pnl
  }

  /**
   * The accounting invariant: a long-only position, cash plus the position at its
   * average entry equal to the starting capital plus the realized profit, and the
   * realized profit equal to the completed trades' profits.
   */
  predicate Balanced(a: Account, initialCapital: real) {
    a.position >= 0
    && a.cash + a.position as real * a.avgEntry == initialCapital + a.realized
    && a.realized == PnlSum(a.trades)
  }

  /** `_reset_state` (and the constructor): all capital in cash, flat, nothing realized. */
  function ResetState(initialCapital: real): (a: Account)
    ensures Balanced(a, initialCapital)
    ensures a.cash == initialCapital && a.position == 0 && a.trades == [] && a.openSince.None?
  {
    Account(initialCapital, 0, 0.0, 0.0, None, [])
  }

  function Min(a: int, b: int): int {
    if a <= b then a else b
  }

  /** A BUY fill: the position grows, cash pays for it, and the entry price becomes the quantity-weighted average. */
  function BuyFill(a: Account, t: int, qty: int, price: real): (r: Account)
    requires qty > 0
    ensures r.position == a.position + qty && r.cash == a.cash - qty as real * price
    ensures r.position > 0 ==> r.position as real * r.avgEntry == a.position as real * a.avgEntry + qty as real * price
    ensures r.position <= 0 ==> r.avgEntry == a.avgEntry
    ensures r.openSince == if a.position == 0 then Some(t) else a.openSince
    ensures r.realized == a.realized && r.trades == a.trades
  {
    var total := a.position + qty;
    var avg := if total > 0 then (a.avgEntry * a.position as real + price * qty as real) / total as real else a.avgEntry;
    Account(a.cash - qty as real * price, total, avg, a.realized,
            if a.position == 0 then Some(t) else a.openSince, a.trades)
  }

  /**
   * A SELL fill closes `min(qty, position)`: cash receives the proceeds, the gain
   * over the average entry is realized and recorded as one completed trade, and a
   * return to flat resets the entry price and open time. Nothing to close: no change.
   */
  function SellFill(a: Account, t: int, qty: int, price: real): (r: Account)
    ensures var close := Min(qty, a.position);
      && (close == 0 ==> r == a)
      && (close != 0 ==>
            r.position == a.position - close
            && r.cash == a.cash + close as real * price
            && r.realized == a.realized + (price - a.avgEntry) * close as real
            && r.trades == a.trades + [TradeRecord(a.openSince.GetOr(t), t, close, a.avgEntry, price,
                                                   (price - a.avgEntry) * close as real)]
            && (r.position == 0 ==> r.avgEntry == 0.0 && r.openSince.None?)
            && (r.position != 0 ==> r.avgEntry == a.avgEntry && r.openSince == a.openSince))
  {
    var close := Min(qty, a.position);
    if close == 0 then a
    else
      var pnl := (price - a.avgEntry) * close as real;
      var trade := TradeRecord(a.openSince.GetOr(t), t, close, a.avgEntry, price, pnl);
      var pos := a.position - close;
      Account(a.cash + close as real * price, pos, if pos == 0 then 0.0 else a.avgEntry,
              a.realized + pnl, if pos == 0 then None else a.openSince, a.trades + [trade])
  }

  /** `_handle_fill`: a non-positive quantity is ignored; "BUY" buys and any other side sells. */
  function HandleFill(a: Account, t: int, side: string, qty: int, price: real): (r: Account)
    ensures qty <= 0 ==> r == a
    ensures qty > 0 && side == "BUY" ==> r == BuyFill(a, t, qty, price)
    ensures qty > 0 && side != "BUY" ==> r == SellFill(a, t, qty, price)
  {
    if qty <= 0 then a
    else if side == "BUY" then BuyFill(a, t, qty, price)
    else SellFill(a, t, qty, price)
  }

  lemma PnlSumAppend(trades: seq<TradeRecord>, x: TradeRecord)
    ensures PnlSum(trades + [x]) == PnlSum(trades) + x.pnl
  {
    assert (trades + [x])[..|trades|] == trades;
  }

  /** Every fill keeps the accounting invariant; in particular a SELL never makes the position negative. */
  lemma FillKeepsBalance(a: Account, initialCapital: real, t: int, side: string, qty: int, price: real)
    requires Balanced(a, initialCapital)
    ensures Balanced(HandleFill(a, t, side, qty, price), initialCapital)
  {
    if qty > 0 && side != "BUY" {
      var close := Min(qty, a.position);
      if close != 0 {
        var r := SellFill(a, t, qty, price);
        PnlSumAppend(a.trades, r.trades[|r.trades| - 1]);
        assert r.trades[..|a.trades|] == a.trades;
        if r.position != 0 {
          assert r.position as real * r.avgEntry == a.position as real * a.avgEntry - close as real * a.avgEntry;
        }
      }
    }
  }

  /** One fill reported by the execution path. */
  datatype Fill = Fill(time: int, side: string, qty: int, price: real)

  function ApplyFills(a: Account, fills: seq<Fill>): Account {
    if |fills| == 0 then a
    else
      var f := fills[|fills| - 1];
      HandleFill(ApplyFills(a, fills[..|fills| - 1]), f.time, f.side, f.qty, f.price)
  }

  /**
   * After a reset and any sequence of fills the invariant holds: the position is
   * never short, cash plus the position at cost equals the capital plus realized
   * profit, and realized profit is the sum over the completed trades.
   */
  lemma {:induction false} FillsKeepBalance(initialCapital: real, fills: seq<Fill>)
    ensures Balanced(ApplyFills(ResetState(initialCapital), fills), initialCapital)
  {
    if |fills| > 0 {
      FillsKeepBalance(initialCapital, fills[..|fills| - 1]);
      var f := fills[|fills| - 1];
      FillKeepsBalance(ApplyFills(ResetState(initialCapital), fills[..|fills| - 1]), initialCapital,
                       f.time, f.side, f.qty, f.price);
    }
  }

  /**
   * A round trip from flat: buying `qty` at `p1` and selling as much at `p2` returns
   * to flat with `(p2 - p1) * qty` realized and recorded as one trade opened at the buy.
   */
  lemma RoundTrip(a: Account, t1: int, t2: int, qty: int, p1: real, p2: real)
    requires a.position == 0 && qty > 0
    ensures var r := HandleFill(HandleFill(a, t1, "BUY", qty, p1), t2, "SELL", qty, p2);
      r.position == 0 && r.openSince.None? && r.avgEntry == 0.0
      && r.cash == a.cash + (p2 - p1) * qty as real
      && r.realized == a.realized + (p2 - p1) * qty as real
      && r.trades == a.trades + [TradeRecord(t1, t2, qty, p1, p2, (p2 - p1) * qty as real)]
  {
    var b := BuyFill(a, t1, qty, p1);
    assert b.avgEntry == p1 by {
      assert b.position as real * b.avgEntry == qty as real * p1;
    }
    assert Min(qty, b.position) == qty;
  }

  // ---- Command-line helpers ----

  /** The character step of `_sanitize_label`: ASCII letters and digits are lower-cased, everything else becomes `_`. */
  function LabelChar(c: char): char {
    if IsAsciiAlnum(c) then LowerChar(c) else '_'
  }

  /** `str.split("_")`: the pieces between underscores, empty ones included. */
  function Split(s: string): (parts: seq<string>)
    ensures |parts| >= 1
    ensures forall i, j :: 0 <= i < |parts| && 0 <= j < |parts[i]| ==> parts[i][j] != '_'
  {
    if |s| == 0 then [""]
    else
      var rest := Split(s[1..]);
      if s[0] == '_' then [""] + rest
      else
        var parts := [[s[0]] + rest[0]] + rest[1..];
        assert forall i :: 1 <= i < |parts| ==> parts[i] == rest[i];
        parts
  }

  /** `"_".join(parts)`. */
  function Join(parts: seq<string>): string {
    if |parts| == 0 then ""
    else if |parts| == 1 then parts[0]
    else parts[0] + "_" + Join(parts[1..])
  }

  /** `filter(None, parts)`: the non-empty pieces. */
  function NonEmpty(parts: seq<string>): (r: seq<string>)
    ensures forall i :: 0 <= i < |r| ==> r[i] != "" && r[i] in parts
  {
    if |parts| == 0 then []
    else if parts[0] == "" then NonEmpty(parts[1..])
    else [parts[0]] + NonEmpty(parts[1..])
  }

  /** `_sanitize_label`: lower-case alphanumeric words joined by single underscores, or "strategy". */
  function SanitizeLabel(name: string): (r: string)
  {
    var mapped := seq(|name|, i requires 0 <= i < |name| => LabelChar(name[i]));
    var joined := Join(NonEmpty(Split(mapped)));
    if joined == "" then "strategy" else joined
  }

  /** A label `_sanitize_label` leaves as it is. */
  predicate CleanLabel(s: string) {
    |s| > 0 && s[0] != '_' && s[|s| - 1] != '_'
    && (forall i :: 0 <= i < |s| ==> IsAsciiLower(s[i]) || IsDigit(s[i]) || s[i] == '_')
    && (forall i :: 0 <= i < |s| - 1 ==> !(s[i] == '_' && s[i + 1] == '_'))
  }

  lemma {:induction false} JoinSplit(s: string)
    ensures Join(Split(s)) == s
  {
    if |s| > 0 {
      JoinSplit(s[1..]);
      var rest := Split(s[1..]);
      if s[0] == '_' {
        assert Join([""] + rest) == "" + "_" + Join(rest);
      } else if |rest| == 1 {
        assert Split(s) == [[s[0]] + rest[0]];
      } else {
        var parts := [[s[0]] + rest[0]] + rest[1..];
        assert parts[1..] == rest[1..];
        assert Join(rest) == rest[0] + "_" + Join(rest[1..]);
      }
    }
  }

  /** No doubled and no trailing underscore: every piece after the first is non-empty, and the first is empty only for a leading underscore. */
  lemma {:induction false} SplitPiecesNonEmpty(s: string)
    requires |s| == 0 || s[|s| - 1] != '_'
    requires forall i :: 0 <= i < |s| - 1 ==> !(s[i] == '_' && s[i + 1] == '_')
    ensures forall i :: 1 <= i < |Split(s)| ==> Split(s)[i] != ""
    ensures |s| > 0 && s[0] != '_' ==> Split(s)[0] != ""
  {
    if |s| > 0 {
      var t := s[1..];
      assert forall i :: 0 <= i < |t| ==> t[i] == s[i + 1];
      SplitPiecesNonEmpty(t);
      var rest := Split(t);
      if s[0] == '_' {
        assert |t| > 0 && t[0] != '_';
        assert Split(s) == [""] + rest;
      } else {
        assert Split(s) == [[s[0]] + rest[0]] + rest[1..];
      }
    }
  }

  lemma {:induction false} NonEmptyKeeps(parts: seq<string>)
    requires forall i :: 0 <= i < |parts| ==> parts[i] != ""
    ensures NonEmpty(parts) == parts
  {
    if |parts| > 0 {
      NonEmptyKeeps(parts[1..]);
    }
  }

  /** Words free of underscores, joined by single underscores, make a clean label. */
  lemma {:induction false} JoinClean(parts: seq<string>)
    requires |parts| > 0
    requires forall i :: 0 <= i < |parts| ==> parts[i] != ""
    requires forall i, j :: 0 <= i < |parts| && 0 <= j < |parts[i]| ==> IsAsciiLower(parts[i][j]) || IsDigit(parts[i][j])
    ensures CleanLabel(Join(parts))
  {
    if |parts| > 1 {
      JoinClean(parts[1..]);
      var h, tl := parts[0], Join(parts[1..]);
      var s := h + "_" + tl;
      assert Join(parts) == s;
      assert forall i :: 0 <= i < |h| ==> s[i] == h[i];
      assert s[|h|] == '_';
      assert forall i :: |h| < i < |s| ==> s[i] == tl[i - |h| - 1];
      assert forall i :: 0 <= i < |s| ==> IsAsciiLower(s[i]) || IsDigit(s[i]) || s[i] == '_' by {
        forall i | 0 <= i < |s|
          ensures IsAsciiLower(s[i]) || IsDigit(s[i]) || s[i] == '_'
        {
          if i < |h| {
            assert s[i] == parts[0][i];
          }
        }
      }
      forall i | 0 <= i < |s| - 1
        ensures !(s[i] == '_' && s[i + 1] == '_')
      {
        if i < |h| - 1 {
          assert s[i + 1] == parts[0][i + 1];
        } else if i == |h| - 1 {
          assert s[i] == parts[0][i];
        }
      }
      assert s[0] == parts[0][0];
    } else {
      assert Join(parts) == parts[0];
      assert forall i :: 0 <= i < |parts[0]| ==> IsAsciiLower(parts[0][i]) || IsDigit(parts[0][i]);
    }
  }

  /** Every label comes out clean: non-empty, lower-case letters, digits and single inner underscores. */
  lemma SanitizeClean(name: string)
    ensures CleanLabel(SanitizeLabel(name))
  {
    var mapped := seq(|name|, i requires 0 <= i < |name| => LabelChar(name[i]));
    var parts := NonEmpty(Split(mapped));
    assert forall i :: 0 <= i < |mapped| ==> IsAsciiLower(mapped[i]) || IsDigit(mapped[i]) || mapped[i] == '_';
    SplitChars(mapped);
    if |parts| > 0 {
      JoinClean(parts);
    } else {
      var st := "strategy";
      assert forall i :: 0 <= i < |st| ==> IsAsciiLower(st[i]);
    }
  }

  /** The pieces of a string of letters, digits and underscores are letters and digits. */
  lemma SplitChars(s: string)
    requires forall i :: 0 <= i < |s| ==> IsAsciiLower(s[i]) || IsDigit(s[i]) || s[i] == '_'
    ensures forall i, j :: 0 <= i < |Split(s)| && 0 <= j < |Split(s)[i]| ==> IsAsciiLower(Split(s)[i][j]) || IsDigit(Split(s)[i][j])
  {
    SplitFrom(s);
  }

  lemma {:induction false} SplitFrom(s: string)
    ensures forall i, j :: 0 <= i < |Split(s)| && 0 <= j < |Split(s)[i]| ==> Split(s)[i][j] in s
  {
    if |s| > 0 {
      SplitFrom(s[1..]);
      var rest := Split(s[1..]);
      assert forall c :: c in s[1..] ==> c in s;
      if s[0] != '_' {
        var parts := Split(s);
        assert parts == [[s[0]] + rest[0]] + rest[1..];
        forall i, j | 0 <= i < |parts| && 0 <= j < |parts[i]|
          ensures parts[i][j] in s
        {
          if i == 0 && j > 0 {
            assert parts[0][j] == rest[0][j - 1];
          } else if i > 0 {
            assert parts[i] == rest[i];
          }
        }
      } else {
        assert Split(s) == [""] + rest;
      }
    }
  }

  /** A clean label is left unchanged, so sanitising twice is sanitising once. */
  lemma SanitizeFixesClean(s: string)
    requires CleanLabel(s)
    ensures SanitizeLabel(s) == s
  {
    var mapped := seq(|s|, i requires 0 <= i < |s| => LabelChar(s[i]));
    assert mapped == s;
    SplitPiecesNonEmpty(s);
    NonEmptyKeeps(Split(s));
    JoinSplit(s);
  }

  lemma SanitizeIdempotent(name: string)
    ensures SanitizeLabel(SanitizeLabel(name)) == SanitizeLabel(name)
  {
    SanitizeClean(name);
    SanitizeFixesClean(SanitizeLabel(name));
  }

  /** The strategy classes a command-line name can select. */
  datatype StrategyKind = MovingAverage | Momentum | Statistical | Sentiment

  /** `_strategy_factory_from_name`'s fixed table, keyed by lower-case name. */
  const StrategyNames: map<string, StrategyKind> := map[
    "ma" := MovingAverage, "mastrategy" := MovingAverage,
    "momentum" := Momentum, "momentumstrategy" := Momentum,
    "zscore" := Statistical, "statistical" := Statistical, "statisticalsignalstrategy" := Statistical,
    "sentiment" := Sentiment, "sentimentstrategy" := Sentiment]

  /** `_strategy_factory_from_name`: the lower-cased name looked up, or a ValueError naming the original. */
  function StrategyFromName(name: string): (r: Result<StrategyKind, string>)
    ensures r.Ok? <==> Lower(name) in StrategyNames
    ensures r.Err? ==> r.error == "Unknown strategy '" + name + "'"
  {
    var key := Lower(name);
    if key in StrategyNames then Ok(StrategyNames[key]) else Err("Unknown strategy '" + name + "'")
  }

  lemma LowerIdempotent(s: string)
    ensures Lower(Lower(s)) == Lower(s)
  {
    assert forall i :: 0 <= i < |s| ==> LowerChar(LowerChar(s[i])) == LowerChar(s[i]);
  }

  /** Names that agree up to ASCII case select the same strategy; e.g. "MA", "Momentum" and "ZScore" resolve, "rsi" does not. */
  lemma StrategyNameCaseInsensitive(a: string, b: string)
    requires Lower(a) == Lower(b)
    ensures StrategyFromName(a).Ok? == StrategyFromName(b).Ok?
    ensures StrategyFromName(a).Ok? ==> StrategyFromName(a).value == StrategyFromName(b).value
    ensures StrategyFromName("MA") == Ok(MovingAverage) && StrategyFromName("ZScore") == Ok(Statistical)
    ensures StrategyFromName("rsi").Err?
  {
    assert Lower("MA") == "ma";
    assert Lower("ZScore") == "zscore";
    assert Lower("rsi") == "rsi";
  }
}
