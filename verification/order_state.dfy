/**
 * The Assignment 9 order: a symbol, quantity and side with a lifecycle state that
 * moves only along the allowed transitions. Log calls are modelled as the events
 * an operation emits.
 */
module OrderState {
  import opened Wrappers

  datatype State = New | Acked | Filled | Canceled | Rejected

  /** One `Logger.log(event_type, message)` call. */
  datatype Event = Event(kind: string, message: string)

  datatype Order = Order(symbol: string, qty: int, side: string, state: State)

  /** The exception a transition can raise. */
  datatype Failure = KeyError

  /** `Order(symbol, qty, side)`: every order starts out new. */
  function Create(symbol: string, qty: int, side: string): (o: Order)
    ensures o.state == New && o.symbol == symbol && o.qty == qty && o.side == side
  {
    Order(symbol, qty, side, New)
  }

  /** The member name, as `state.name` prints it. */
  function Name(s: State): string {
    match s
    case New => "NEW"
    case Acked => "ACKED"
    case Filled => "FILLED"
    case Canceled => "CANCELED"
    case Rejected => "REJECTED"
  }

  /** The class attribute `allowed`: targets by source state; terminal states have no entry. */
  function AllowedFrom(s: State): Option<set<State>> {
    match s
    case New => Some({Acked, Rejected})
    case Acked => Some({Filled, Canceled})
    case _ => None
  }

  /** The four transitions the lifecycle permits. */
  predicate Permitted(from: State, to: State) {
    (from == New && to == Acked) || (from == New && to == Rejected)
    || (from == Acked && to == Filled) || (from == Acked && to == Canceled)
  }

  /**
   * `transition(new_state)`: move when permitted; otherwise keep the state and log
   * "OrderTransFailed"; from a terminal state the lookup in `allowed` raises KeyError.
   */
  function Transition(o: Order, to: State): (r: Result<(Order, seq<Event>), Failure>)
    ensures (o.state == New || o.state == Acked) <==> r.Ok?
    ensures r.Ok? && Permitted(o.state, to) ==> r.value == (o.(state := to), [])
    ensures r.Ok? && !Permitted(o.state, to) ==>
      r.value.0 == o && r.value.1 == [Event("OrderTransFailed", "Cannot transition to OrderState." + Name(to) + " from " + Name(o.state))]
  {
    match AllowedFrom(o.state)
    case None => Err(KeyError)
    case Some(targets) =>
      if to in targets then Ok((o.(state := to), []))
      else Ok((o, [Event("OrderTransFailed", "Cannot transition to OrderState." + Name(to) + " from " + Name(o.state))]))
  }

  /** How far along its lifecycle a state is; every permitted move goes strictly forward. */
  function Stage(s: State): nat {
    match s
    case New => 0
    case Acked => 1
    case _ => 2
  }

  /** Calls of `transition` one after another, stopping at the first exception; the final order, the events, the successful moves. */
  function Run(o: Order, targets: seq<State>): (r: Result<(Order, seq<Event>, nat), Failure>)
    decreases |targets|
  {
    if |targets| == 0 then Ok((o, [], 0))
    else
      match Transition(o, targets[0])
      case Err(e) => Err(e)
      case Ok(step) =>
        match Run(step.0, targets[1..])
        case Err(e) => Err(e)
        case Ok(rest) => Ok((rest.0, step.1 + rest.1, (if step.0.state != o.state then 1 else 0) + rest.2))
  }

  /**
   * Along any run, the state never goes back, the number of successful moves is
   * bounded by how far the state advanced, and so at most two transitions ever
   * succeed and nothing returns to NEW.
   */
  lemma {:induction false} RunMovesForward(o: Order, targets: seq<State>)
    ensures var r := Run(o, targets);
      r.Ok? ==> Stage(o.state) <= Stage(r.value.0.state) && r.value.2 <= Stage(r.value.0.state) - Stage(o.state)
    decreases |targets|
  {
    if |targets| > 0 {
      var t := Transition(o, targets[0]);
      if t.Ok? {
        RunMovesForward(t.value.0, targets[1..]);
      }
    }
  }

  /** A new order makes at most two moves and, once it has moved, is never NEW again. */
  lemma AtMostTwoMoves(symbol: string, qty: int, side: string, targets: seq<State>)
    ensures var r := Run(Create(symbol, qty, side), targets);
      r.Ok? ==> r.value.2 <= 2 && (r.value.2 > 0 ==> r.value.0.state != New)
  {
    RunMovesForward(Create(symbol, qty, side), targets);
  }

  /** ACKED then FILLED is a valid path from NEW. */
  lemma AckThenFill()
    ensures Run(Create("AAPL", 10, "1"), [Acked, Filled]) == Ok((Order("AAPL", 10, "1", Filled), [], 2))
  {
    var o := Create("AAPL", 10, "1");
    var acked := o.(state := Acked);
    var filled := o.(state := Filled);
    assert Transition(o, Acked) == Ok((acked, []));
    assert Transition(acked, Filled) == Ok((filled, []));
    assert Run(filled, []) == Ok((filled, [], 0));
    var none: seq<Event> := [];
    assert [Filled][1..] == [] && [Filled][0] == Filled && none + none == none;
    assert Run(acked, [Filled]) == Ok((filled, [], 1));
    assert [Acked, Filled][1..] == [Filled];
  }

  /** CANCELED straight from NEW is refused: the state stays NEW and the failure is logged. */
  lemma CancelFromNewRefused()
    ensures Transition(Create("AAPL", 10, "1"), Canceled) ==
      Ok((Create("AAPL", 10, "1"), [Event("OrderTransFailed", "Cannot transition to OrderState.CANCELED from NEW")]))
  {
    assert !Permitted(New, Canceled);
    assert "Cannot transition to OrderState." + "CANCELED" + " from " + "NEW"
      == "Cannot transition to OrderState.CANCELED from NEW";
  }
}
