/**
 * The trading system's pre-trade risk engine: an order passes when its size, the
 * position it would build in its symbol, and its notional value all stay within
 * fixed limits. Accepted orders are recorded per symbol. The engine is a
 * process-wide singleton; the registry below stands for the class attribute that
 * holds the one instance.
 */
module RiskLimits {
  import opened Wrappers
  import opened OrderIntake

  datatype RiskEngine = RiskEngine(
    maxOrderSize: int,
    maxPosition: int,
    cash: real,
    positions: map<string, seq<Order>>)

  /** The three rules, in the order `check` applies them. */
  datatype Rule = SizeRule | PositionRule | CashRule

  /** The orders recorded for a symbol; a symbol never seen has none. */
  function Recorded(e: RiskEngine, symbol: string): seq<Order> {
    if symbol in e.positions then e.positions[symbol] else []
  }

  /** Summed quantity of a list of orders; buys and sells both add. */
  function QtySum(os: seq<Order>): int {
    if |os| == 0 then 0 else QtySum(os[..|os| - 1]) + os[|os| - 1].qty
  }

  /** The current position in a symbol as the engine measures it. */
  function Position(e: RiskEngine, symbol: string): int {
    QtySum(Recorded(e, symbol))
  }

  /** The first rule an order breaks, if any. */
  function FirstBreach(e: RiskEngine, o: Order): (r: Option<Rule>)
    ensures r == Some(SizeRule) <==> o.qty > e.maxOrderSize
    ensures r == Some(PositionRule) <==>
      o.qty <= e.maxOrderSize && o.qty + Position(e, o.symbol) > e.maxPosition
    ensures r == Some(CashRule) <==>
      o.qty <= e.maxOrderSize && o.qty + Position(e, o.symbol) <= e.maxPosition
      && o.qty as real * o.price > e.cash
  {
    if o.qty > e.maxOrderSize then Some(SizeRule)
    else if o.qty + Position(e, o.symbol) > e.maxPosition then Some(PositionRule)
    else if o.qty as real * o.price > e.cash then Some(CashRule)
    else None
  }

  /** `check`: true when no rule fires. Logging is not modelled. */
  function Check(e: RiskEngine, o: Order): (ok: bool)
    ensures ok <==>
      o.qty <= e.maxOrderSize
      && o.qty + Position(e, o.symbol) <= e.maxPosition
      && o.qty as real * o.price <= e.cash
  {
    FirstBreach(e, o).None?
  }

  /** `update_position`: record the order under its symbol when it passes the check. */
  function UpdatePosition(e: RiskEngine, o: Order): (r: RiskEngine)
    ensures r.maxOrderSize == e.maxOrderSize && r.maxPosition == e.maxPosition && r.cash == e.cash
    ensures Check(e, o) ==> Recorded(r, o.symbol) == Recorded(e, o.symbol) + [o]
    ensures !Check(e, o) ==> r == e
    ensures forall sym :: sym != o.symbol ==> Recorded(r, sym) == Recorded(e, sym)
  {
    if Check(e, o) then e.(positions := e.positions[o.symbol := Recorded(e, o.symbol) + [o]])
    else e
  }

  /** Recording an order moves its symbol's position by exactly its quantity, and only when it passes. */
  lemma PositionAfterUpdate(e: RiskEngine, o: Order)
    ensures Position(UpdatePosition(e, o), o.symbol) ==
      Position(e, o.symbol) + (if Check(e, o) then o.qty else 0)
  {
    var before := Recorded(e, o.symbol);
    if Check(e, o) {
      assert (before + [o])[..|before|] == before;
    }
  }

  /** Every symbol's recorded position is within the position limit. */
  predicate WithinLimits(e: RiskEngine) {
    forall sym :: sym in e.positions ==> QtySum(e.positions[sym]) <= e.maxPosition
  }

  /** A fresh engine holds nothing; recording orders never breaks the position limit. */
  lemma UpdateKeepsLimits(e: RiskEngine, o: Order)
    requires WithinLimits(e)
    ensures WithinLimits(UpdatePosition(e, o))
  {
    var r := UpdatePosition(e, o);
    PositionAfterUpdate(e, o);
    forall sym | sym in r.positions
      ensures QtySum(r.positions[sym]) <= r.maxPosition
    {
      if sym != o.symbol {
        assert Recorded(r, sym) == Recorded(e, sym);
        assert sym in e.positions;
      } else {
        assert Position(r, sym) == QtySum(r.positions[sym]);
      }
    }
  }

  /** Defaults of the constructor. */
  const Fresh := RiskEngine(1000, 2000, 10000.0, map[])

  /** The class attribute holding the single instance, if one was made. */
  datatype Registry = Registry(instance: Option<RiskEngine>)

  /**
   * `RiskEngine(...)`: the first call builds an engine from its arguments; every
   * later call returns that same engine, with whatever it has recorded since, and
   * ignores its arguments.
   */
  function Construct(reg: Registry, maxOrderSize: int, maxPosition: int, cash: real): (r: (Registry, RiskEngine))
    ensures r.0.instance == Some(r.1)
    ensures reg.instance.Some? ==> r == (reg, reg.instance.value)
    ensures reg.instance.None? ==> r.1 == RiskEngine(maxOrderSize, maxPosition, cash, map[])
  {
    if reg.instance.Some? then (reg, reg.instance.value)
    else
      var e := RiskEngine(maxOrderSize, maxPosition, cash, map[]);
      (Registry(Some(e)), e)
  }

  /** Two constructions in a row give the same engine, whatever the second call's arguments. */
  lemma SingletonIgnoresLaterArguments(reg: Registry, a1: int, b1: int, c1: real, a2: int, b2: int, c2: real)
    ensures var first := Construct(reg, a1, b1, c1);
      Construct(first.0, a2, b2, c2) == (first.0, first.1)
  {
  }

  /** Limits and cash are written only at construction: any run of updates keeps them. */
  function UpdateAll(e: RiskEngine, os: seq<Order>): (r: RiskEngine)
    ensures r.maxOrderSize == e.maxOrderSize && r.maxPosition == e.maxPosition && r.cash == e.cash
    decreases |os|
  {
    if |os| == 0 then e else UpdateAll(UpdatePosition(e, os[0]), os[1..])
  }

  /** Starting within the limits, a run of updates stays within them. */
  lemma {:induction false} UpdateAllKeepsLimits(e: RiskEngine, os: seq<Order>)
    requires WithinLimits(e)
    ensures WithinLimits(UpdateAll(e, os))
    decreases |os|
  {
    if |os| > 0 {
      UpdateKeepsLimits(e, os[0]);
      UpdateAllKeepsLimits(UpdatePosition(e, os[0]), os[1..]);
    }
  }
}
