/**
 * The Assignment 9 risk engine: an order passes when it is within the maximum
 * order size and would not push its symbol's recorded quantity past the maximum
 * position. Only the first failing rule is logged.
 */
module PositionGuard {
  import opened Text
  import opened OrderState

  datatype Guard = Guard(maxOrderSize: int, maxPosition: int, positions: map<string, seq<Order>>)

  /** The constructor's defaults, with no positions. */
  const Default := Guard(1000, 2000, map[])

  function Held(g: Guard, symbol: string): seq<Order> {
    if symbol in g.positions then g.positions[symbol] else []
  }

  /** Summed quantity of the orders held for a symbol, whatever their side. */
  function Exposure(os: seq<Order>): int {
    if |os| == 0 then 0 else Exposure(os[..|os| - 1]) + os[|os| - 1].qty
  }

  function SizeMessage(g: Guard, o: Order): string {
    "Order quantity of " + IntToString(o.qty) + " exceeds max order size " + IntToString(g.maxOrderSize)
  }

  function PositionMessage(g: Guard, o: Order): string {
    "Order quantity of " + IntToString(o.qty) + " would exceed max position size " + IntToString(g.maxPosition)
  }

  /** `check`: the verdict and the log events it emits (at most one, for the first failure). */
  function Check(g: Guard, o: Order): (r: (bool, seq<Event>))
    ensures r.0 <==> o.qty <= g.maxOrderSize && o.qty + Exposure(Held(g, o.symbol)) <= g.maxPosition
    ensures r.0 ==> r.1 == []
    ensures o.qty > g.maxOrderSize ==> r.1 == [Event("OrderFailed", SizeMessage(g, o))]
    ensures o.qty <= g.maxOrderSize && !r.0 ==> r.1 == [Event("OrderFailed", PositionMessage(g, o))]
  {
    if o.qty > g.maxOrderSize then (false, [Event("OrderFailed", SizeMessage(g, o))])
    else if o.qty + Exposure(Held(g, o.symbol)) > g.maxPosition then (false, [Event("OrderFailed", PositionMessage(g, o))])
    else (true, [])
  }

  /** `update_position`: append the order to its symbol's list iff the check passes; the check's log events are emitted either way. */
  function UpdatePosition(g: Guard, o: Order): (r: (Guard, seq<Event>))
    ensures r.1 == Check(g, o).1
    ensures Check(g, o).0 ==> r.0.positions == g.positions[o.symbol := Held(g, o.symbol) + [o]]
    ensures !Check(g, o).0 ==> r.0 == g
    ensures r.0.maxOrderSize == g.maxOrderSize && r.0.maxPosition == g.maxPosition
  {
    var c := Check(g, o);
    if c.0 then (g.(positions := g.positions[o.symbol := Held(g, o.symbol) + [o]]), c.1) else (g, c.1)
  }

  /** Other symbols' lists are never touched, and the updated symbol's exposure grows by the quantity exactly when the order passes. */
  lemma UpdateTouchesOneSymbol(g: Guard, o: Order, other: string)
    requires other != o.symbol
    ensures Held(UpdatePosition(g, o).0, other) == Held(g, other)
    ensures Exposure(Held(UpdatePosition(g, o).0, o.symbol)) ==
      Exposure(Held(g, o.symbol)) + (if Check(g, o).0 then o.qty else 0)
  {
    var h := Held(g, o.symbol);
    assert (h + [o])[..|h|] == h;
  }

  lemma FifteenText()
    ensures IntToString(15) == "15"
  {
    assert DigitChar(1) == '1' && DigitChar(5) == '5';
    assert NatToString(1) == "1";
    assert NatToString(15) == NatToString(1) + [DigitChar(5)];
  }

  /** The cases of the engine's tests: an oversize order and a position overflow, with their log lines. */
  lemma OversizeExample()
    ensures Check(Guard(10, 2000, map[]), Create("AAPL", 15, "1")) ==
      (false, [Event("OrderFailed", "Order quantity of " + "15" + " exceeds max order size " + "10")])
  {
    FifteenText();
    assert DigitChar(1) == '1' && DigitChar(0) == '0';
    assert NatToString(1) == "1";
    assert NatToString(10) == NatToString(1) + [DigitChar(0)];
    assert IntToString(10) == "10";
    var g := Guard(10, 2000, map[]);
    var o := Create("AAPL", 15, "1");
    assert SizeMessage(g, o) == "Order quantity of " + "15" + " exceeds max order size " + "10";
    assert Check(g, o).0 == false;
  }

  lemma PositionOverflowExample()
    ensures var g := Guard(1000, 100, map["MSFT" := [Create("MSFT", 90, "1")]]);
      Check(g, Create("MSFT", 15, "1")) ==
        (false, [Event("OrderFailed", "Order quantity of " + "15" + " would exceed max position size " + "100")])
  {
    var g := Guard(1000, 100, map["MSFT" := [Create("MSFT", 90, "1")]]);
    var o := Create("MSFT", 15, "1");
    var h := Held(g, "MSFT");
    assert h[..0] == [];
    assert Exposure(h) == 90;
    FifteenText();
    assert DigitChar(1) == '1' && DigitChar(0) == '0';
    assert NatToString(1) == "1";
    assert NatToString(10) == NatToString(1) + [DigitChar(0)];
    assert NatToString(100) == NatToString(10) + [DigitChar(0)];
    assert IntToString(100) == "100";
    assert PositionMessage(g, o) == "Order quantity of " + "15" + " would exceed max position size " + "100";
    assert Check(g, o).0 == false;
  }

  /** A passing order is stored as its symbol's only entry; one that fails the size rule leaves no trace. */
  lemma UpdateExamples()
    ensures UpdatePosition(Default, Create("TSLA", 50, "1")).0.positions == map["TSLA" := [Create("TSLA", 50, "1")]]
    ensures "TSLA" !in UpdatePosition(Guard(5, 2000, map[]), Create("TSLA", 50, "1")).0.positions
  {
    var o := Create("TSLA", 50, "1");
    assert Held(Default, "TSLA") == [];
    assert Exposure([]) == 0;
    assert Check(Default, o).0;
    assert Held(Default, "TSLA") + [o] == [o];
  }
}
