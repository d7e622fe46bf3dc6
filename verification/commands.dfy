/**
 * The command pattern demo: a portfolio of signed share counts, order commands that
 * can be executed and undone, an inverse command, and an invoker keeping a history
 * and a redo stack.
 */
module Commands {

  /** `Portfolio.positions`: shares held per symbol (may go negative). */
  type Positions = map<string, int>

  /** `get_position`: an unseen symbol holds 0. */
  function Get(p: Positions, symbol: string): int {
    if symbol in p then p[symbol] else 0
  }

  /** `Portfolio.buy`: add shares, creating the entry at 0 first. */
  function BuyShares(p: Positions, symbol: string, quantity: int): (r: Positions)
    ensures Get(r, symbol) == Get(p, symbol) + quantity
    ensures forall x :: x != symbol ==> Get(r, x) == Get(p, x)
  {
    p[symbol := Get(p, symbol) + quantity]
  }

  /** `Portfolio.sell`: subtract shares, creating the entry at 0 first. */
  function SellShares(p: Positions, symbol: string, quantity: int): (r: Positions)
    ensures Get(r, symbol) == Get(p, symbol) - quantity
    ensures forall x :: x != symbol ==> Get(r, x) == Get(p, x)
  {
    p[symbol := Get(p, symbol) - quantity]
  }

  /** The signal dictionary an order command carries. */
  datatype Signal = Signal(action: string, symbol: string, quantity: int)

  /** `ExecuteOrderCommand`, and `UndoOrderCommand` wrapping an execute command's signal. */
  datatype Command = ExecuteOrder(signal: Signal) | UndoOrder(original: Signal)

  /** The signed change a signal's execution makes to its symbol: BUY adds, SELL subtracts, any other action nothing. */
  function Effect(s: Signal): int {
    if s.action == "BUY" then s.quantity else if s.action == "SELL" then -s.quantity else 0
  }

  /** `ExecuteOrderCommand.execute`. */
  function ExecuteSignal(p: Positions, s: Signal): Positions {
    if s.action == "BUY" then BuyShares(p, s.symbol, s.quantity)
    else if s.action == "SELL" then SellShares(p, s.symbol, s.quantity)
    else p
  }

  /** `ExecuteOrderCommand.undo`: the reverse trade. */
  function UndoSignal(p: Positions, s: Signal): Positions {
    if s.action == "BUY" then SellShares(p, s.symbol, s.quantity)
    else if s.action == "SELL" then BuyShares(p, s.symbol, s.quantity)
    else p
  }

  /** A command's signed change to one symbol. */
  function Delta(c: Command, symbol: string): int {
    match c
    case ExecuteOrder(s) => if s.symbol == symbol then Effect(s) else 0
    case UndoOrder(s) => if s.symbol == symbol then -Effect(s) else 0
  }

  /** `execute()`: an undo command runs its original's undo. */
  function Execute(p: Positions, c: Command): (r: Positions)
    ensures forall x :: Get(r, x) == Get(p, x) + Delta(c, x)
  {
    match c
    case ExecuteOrder(s) => ExecuteSignal(p, s)
    case UndoOrder(s) => UndoSignal(p, s)
  }

  /** `undo()`: an undo command's undo re-executes its original. */
  function Undo(p: Positions, c: Command): (r: Positions)
    ensures forall x :: Get(r, x) == Get(p, x) - Delta(c, x)
  {
    match c
    case ExecuteOrder(s) => UndoSignal(p, s)
    case UndoOrder(s) => ExecuteSignal(p, s)
  }

  /** Undo after execute, and execute after undo, restore every symbol's position. */
  lemma UndoInvertsExecute(p: Positions, c: Command)
    ensures forall x :: Get(Undo(Execute(p, c), c), x) == Get(p, x)
    ensures forall x :: Get(Execute(Undo(p, c), c), x) == Get(p, x)
  {
  }

  /** The inverse command behaves as the original's undo, and its undo as the original's execution. */
  lemma UndoCommandIsInverse(p: Positions, s: Signal)
    ensures Execute(p, UndoOrder(s)) == Undo(p, ExecuteOrder(s))
    ensures Undo(p, UndoOrder(s)) == Execute(p, ExecuteOrder(s))
  {
  }

  /** `CommandInvoker`: commands done (most recent last) and commands undone (most recent last). */
  datatype Invoker = Invoker(history: seq<Command>, redo: seq<Command>)

  const NewInvoker := Invoker([], [])

  /** `execute_command`: run, push onto the history, clear the redo stack. */
  function ExecuteCommand(inv: Invoker, p: Positions, c: Command): (r: (Invoker, Positions))
    ensures r.0 == Invoker(inv.history + [c], [])
    ensures r.1 == Execute(p, c)
  {
    (Invoker(inv.history + [c], []), Execute(p, c))
  }

  /** `CommandInvoker.undo`: nothing to undo changes nothing; otherwise pop, undo and push onto the redo stack. */
  function UndoLast(inv: Invoker, p: Positions): (r: (Invoker, Positions))
    ensures |inv.history| == 0 ==> r == (inv, p)
    ensures |inv.history| > 0 ==>
      var c := inv.history[|inv.history| - 1];
      r.0 == Invoker(inv.history[..|inv.history| - 1], inv.redo + [c]) && r.1 == Undo(p, c)
  {
    if |inv.history| == 0 then (inv, p)
    else
      var c := inv.history[|inv.history| - 1];
      (Invoker(inv.history[..|inv.history| - 1], inv.redo + [c]), Undo(p, c))
  }

  /** `CommandInvoker.redo`: nothing to redo changes nothing; otherwise pop, execute and push onto the history. */
  function RedoLast(inv: Invoker, p: Positions): (r: (Invoker, Positions))
    ensures |inv.redo| == 0 ==> r == (inv, p)
    ensures |inv.redo| > 0 ==>
      var c := inv.redo[|inv.redo| - 1];
      r.0 == Invoker(inv.history + [c], inv.redo[..|inv.redo| - 1]) && r.1 == Execute(p, c)
  {
    if |inv.redo| == 0 then (inv, p)
    else
      var c := inv.redo[|inv.redo| - 1];
      (Invoker(inv.history + [c], inv.redo[..|inv.redo| - 1]), Execute(p, c))
  }

  /** The summed change the listed commands make to one symbol. */
  function NetDelta(cs: seq<Command>, symbol: string): int {
    if |cs| == 0 then 0 else NetDelta(cs[..|cs| - 1], symbol) + Delta(cs[|cs| - 1], symbol)
  }

  /** The invoker's invariant: every position is the starting position plus the effect of the commands in the history. */
  ghost predicate Replays(inv: Invoker, p: Positions, start: Positions) {
    forall x :: Get(p, x) == Get(start, x) + NetDelta(inv.history, x)
  }

  lemma NetDeltaAppend(cs: seq<Command>, c: Command, x: string)
    ensures NetDelta(cs + [c], x) == NetDelta(cs, x) + Delta(c, x)
  {
    assert (cs + [c])[..|cs|] == cs;
  }

  /** Executing, undoing and redoing all keep the positions equal to a replay of the history. */
  lemma InvokerReplays(inv: Invoker, p: Positions, start: Positions, c: Command)
    requires Replays(inv, p, start)
    ensures var r := ExecuteCommand(inv, p, c); Replays(r.0, r.1, start)
    ensures var r := UndoLast(inv, p); Replays(r.0, r.1, start)
    ensures var r := RedoLast(inv, p); Replays(r.0, r.1, start)
  {
    forall x {
      NetDeltaAppend(inv.history, c, x);
    }
    if |inv.history| > 0 {
      var init := inv.history[..|inv.history| - 1];
      var last := inv.history[|inv.history| - 1];
      assert init + [last] == inv.history;
      forall x {
        NetDeltaAppend(init, last, x);
      }
    }
    if |inv.redo| > 0 {
      forall x {
        NetDeltaAppend(inv.history, inv.redo[|inv.redo| - 1], x);
      }
    }
  }

  /** Undo straight after executing a command restores the history and every position, and leaves the command to redo. */
  lemma UndoAfterExecute(inv: Invoker, p: Positions, c: Command)
    ensures var e := ExecuteCommand(inv, p, c);
      var u := UndoLast(e.0, e.1);
      u.0 == Invoker(inv.history, [c]) && forall x :: Get(u.1, x) == Get(p, x)
  {
    assert (inv.history + [c])[..|inv.history|] == inv.history;
  }

  /** BUY 40 AAPL, undo, redo: positions 40, 0, 40. */
  lemma BuyUndoRedoExample()
    ensures var buy := ExecuteOrder(Signal("BUY", "AAPL", 40));
      var e := ExecuteCommand(NewInvoker, map[], buy);
      var u := UndoLast(e.0, e.1);
      var r := RedoLast(u.0, u.1);
      Get(e.1, "AAPL") == 40 && Get(u.1, "AAPL") == 0 && Get(r.1, "AAPL") == 40
  {
  }
}
