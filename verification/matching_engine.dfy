/**
 * The trading system's simulated exchange: an order is cancelled, partly filled or
 * filled at random. Randomness is modelled as a choice supplied by the caller;
 * only which outcomes are possible is modelled, not how likely they are.
 */
module MatchingEngine {

  datatype Status = Cancelled | Partial | Filled

  /** The response dict: a status, and a filled quantity unless cancelled. */
  datatype Execution = Execution(status: Status, qty: int)

  /**
   * The random draws of one call: whether the first `random()` fell below 0.1,
   * whether the second fell below 0.7, and the `randint(1, qty - 1)` pick.
   */
  datatype Draw = Draw(cancel: bool, partial: bool, pick: int)

  /** The pick is one `randint(1, qty - 1)` can return, whenever it is drawn. */
  predicate Drawable(d: Draw, qty: int) {
    !d.cancel && d.partial && qty > 1 ==> 1 <= d.pick <= qty - 1
  }

  /** `simulate_execution` for an order of quantity `qty` under the draws `d`; a cancel carries no quantity (0 here). */
  function Simulate(qty: int, d: Draw): (r: Execution)
    requires Drawable(d, qty)
    ensures r.status == Cancelled ==> r.qty == 0
    ensures r.status == Partial ==> qty > 1 && 1 <= r.qty <= qty - 1
    ensures r.status == Filled ==> r.qty == qty
    ensures d.cancel <==> r.status == Cancelled
  {
    if d.cancel then Execution(Cancelled, 0)
    else if d.partial && qty > 1 then Execution(Partial, d.pick)
    else Execution(Filled, qty)
  }

  /** The outcomes an order of quantity `qty` can receive. */
  predicate Possible(qty: int, x: Execution) {
    match x.status
    case Cancelled => x.qty == 0
    case Partial => qty > 1 && 1 <= x.qty <= qty - 1
    case Filled => x.qty == qty
  }

  /** Every possible outcome is produced by some draw, so the bounds above are tight. */
  lemma EveryPossibleOutcomeOccurs(qty: int, x: Execution)
    requires Possible(qty, x)
    ensures exists d :: Drawable(d, qty) && Simulate(qty, d) == x
  {
    var d := match x.status
      case Cancelled => Draw(true, false, 0)
      case Partial => Draw(false, true, x.qty)
      case Filled => Draw(false, false, 0);
    assert Drawable(d, qty) && Simulate(qty, d) == x;
  }

  /** An order of quantity one can only be cancelled or filled whole. */
  lemma SingleUnitNeverPartial(d: Draw)
    requires Drawable(d, 1)
    ensures Simulate(1, d).status != Partial
  {
  }
}
