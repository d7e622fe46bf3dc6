/**
 * The trading system's order manager: every frame is decoded and validated as in
 * the Assignment 8 server, then numbered, risk-checked, sent to the simulated
 * exchange, recorded and acknowledged. Decoding, validation, acknowledgement shape
 * and framing are shared with `AckServer` and `Framing`.
 */
module ExecutionDesk {
  import opened Wrappers
  import opened Framing
  import opened OrderIntake
  import opened AckServer
  import opened RiskLimits
  import opened MatchingEngine

  /** Server state: the id counter, the shared risk engine and the executed-order log. */
  datatype Desk = Desk(nextId: int, risk: RiskEngine, orders: seq<Order>)

  /** The server as `__init__` leaves it: counter at 1, a risk engine, no orders. */
  function Start(risk: RiskEngine): Desk {
    Desk(1, risk, [])
  }

  /** The order with a server id when it arrived without one, and the counter after numbering. */
  function Numbered(s: Desk, o: Order): (r: (Order, int))
    ensures r.0.id.Some? && r.0 == o.(id := r.0.id)
    ensures o.id.Some? ==> r == (o, s.nextId)
    ensures o.id.None? ==> r == (o.(id := Some(s.nextId)), s.nextId + 1)
  {
    if o.id.None? then (o.(id := Some(s.nextId)), s.nextId + 1) else (o, s.nextId)
  }

  /**
   * `_process_order_frame` once the frame is judged, with `d` the exchange's random
   * draws: a refused or aborted frame stops at validation; an accepted one is
   * numbered, and then either fails the risk check or is recorded, executed and
   * acknowledged.
   */
  function Handle(s: Desk, v: Verdict, d: Draw): (r: (Desk, FrameResult))
    requires v.Accept? ==> Drawable(d, v.order.qty)
    ensures v.Abort? ==> r == (s, Raised)
    ensures v.Refuse? ==> r == (s, Replied(v.ack))
    ensures v.Accept? ==>
      var (o, next) := Numbered(s, v.order);
      r.0.nextId == next
      && (!Check(s.risk, o) ==>
            r.1 == Replied(Ack(false, None, None)) && r.0.risk == s.risk && r.0.orders == s.orders)
      && (Check(s.risk, o) ==>
            r.1 == Replied(Ack(true, Some(o), None))
            && r.0.risk == UpdatePosition(s.risk, o)
            && r.0.orders == s.orders + (if d.cancel then [] else [o]))
  {
    match v
    case Abort => (s, Raised)
    case Refuse(a) => (s, Replied(a))
    case Accept(order) =>
      var n := Numbered(s, order);
      var o := n.0;
      if !Check(s.risk, o) then (s.(nextId := n.1), Replied(Ack(false, None, None)))
      else
        var risk := UpdatePosition(s.risk, o);
        var fill := Simulate(o.qty, d);
        var orders := if fill.status == Cancelled then s.orders else s.orders + [o];
        (Desk(n.1, risk, orders), Replied(Ack(true, Some(o), None)))
  }

  /** Every logged order is also recorded by the risk engine under its symbol. */
  predicate Accounted(s: Desk) {
    forall i :: 0 <= i < |s.orders| ==> s.orders[i] in Recorded(s.risk, s.orders[i].symbol)
  }

  /**
   * Handling a frame only appends to the order log, never lowers the counter, and
   * keeps every logged order accounted for by the risk engine. Since the risk
   * engine records an order before it is executed, a cancelled order still counts
   * toward its symbol's position.
   */
  lemma HandleKeepsLog(s: Desk, v: Verdict, d: Draw)
    requires v.Accept? ==> Drawable(d, v.order.qty)
    requires Accounted(s)
    ensures var r := Handle(s, v, d).0;
      s.orders <= r.orders && r.nextId >= s.nextId && Accounted(r)
      && (v.Accept? && Check(s.risk, Numbered(s, v.order).0) ==>
            Position(r.risk, v.order.symbol) == Position(s.risk, v.order.symbol) + v.order.qty)
  {
    if v.Accept? {
      var o := Numbered(s, v.order).0;
      var r := Handle(s, v, d).0;
      if Check(s.risk, o) {
        PositionAfterUpdate(s.risk, o);
        forall i | 0 <= i < |r.orders|
          ensures r.orders[i] in Recorded(r.risk, r.orders[i].symbol)
        {
          var x := r.orders[i];
          if i < |s.orders| {
            assert x == s.orders[i];
            if x.symbol != o.symbol {
              assert Recorded(r.risk, x.symbol) == Recorded(s.risk, x.symbol);
            } else {
              assert Recorded(r.risk, x.symbol) == Recorded(s.risk, x.symbol) + [o];
            }
          } else {
            assert x == o;
            assert Recorded(r.risk, o.symbol) == Recorded(s.risk, o.symbol) + [o];
            assert o == (Recorded(s.risk, o.symbol) + [o])[|Recorded(s.risk, o.symbol)|];
          }
        }
      }
    }
  }

  /** The draws supplied for a run of frames fit the orders they would execute. */
  predicate DrawsFit(frames: seq<seq<byte>>, judge: seq<byte> -> Verdict, draws: seq<Draw>) {
    |draws| == |frames|
    && forall i :: 0 <= i < |frames| ==> judge(frames[i]).Accept? ==> Drawable(draws[i], judge(frames[i]).order.qty)
  }

  /** The client loop: blank frames are skipped, the rest handled in order, an exception ends it (false). */
  function Serve(s: Desk, frames: seq<seq<byte>>, judge: seq<byte> -> Verdict, draws: seq<Draw>): (r: (Desk, seq<Ack>, bool))
    requires DrawsFit(frames, judge, draws)
    ensures |r.1| <= |Processed(frames)|
    ensures r.2 ==> |r.1| == |Processed(frames)|
    decreases |frames|
  {
    if |frames| == 0 then (s, [], true)
    else if IsBlank(frames[0]) then Serve(s, frames[1..], judge, draws[1..])
    else
      var step := Handle(s, judge(frames[0]), draws[0]);
      if step.1.Raised? then (step.0, [], false)
      else
        var rest := Serve(step.0, frames[1..], judge, draws[1..]);
        (rest.0, [step.1.ack] + rest.1, rest.2)
  }

  /** Over a whole connection the order log only grows and stays accounted for. */
  lemma {:induction false} ServeKeepsLog(s: Desk, frames: seq<seq<byte>>, judge: seq<byte> -> Verdict, draws: seq<Draw>)
    requires DrawsFit(frames, judge, draws)
    requires Accounted(s)
    ensures var r := Serve(s, frames, judge, draws).0;
      s.orders <= r.orders && r.nextId >= s.nextId && Accounted(r)
    decreases |frames|
  {
    if |frames| > 0 {
      if IsBlank(frames[0]) {
        ServeKeepsLog(s, frames[1..], judge, draws[1..]);
      } else {
        HandleKeepsLog(s, judge(frames[0]), draws[0]);
        var step := Handle(s, judge(frames[0]), draws[0]);
        if step.1.Replied? {
          ServeKeepsLog(step.0, frames[1..], judge, draws[1..]);
        }
      }
    }
  }

  /** Starting from an engine within its limits, no sequence of frames pushes a symbol past the position limit. */
  lemma {:induction false} ServeKeepsLimits(s: Desk, frames: seq<seq<byte>>, judge: seq<byte> -> Verdict, draws: seq<Draw>)
    requires DrawsFit(frames, judge, draws)
    requires WithinLimits(s.risk)
    ensures WithinLimits(Serve(s, frames, judge, draws).0.risk)
    decreases |frames|
  {
    if |frames| > 0 {
      if IsBlank(frames[0]) {
        ServeKeepsLimits(s, frames[1..], judge, draws[1..]);
      } else {
        var v := judge(frames[0]);
        var step := Handle(s, v, draws[0]);
        if v.Accept? {
          UpdateKeepsLimits(s.risk, Numbered(s, v.order).0);
        }
        if step.1.Replied? {
          ServeKeepsLimits(step.0, frames[1..], judge, draws[1..]);
        }
      }
    }
  }
}
