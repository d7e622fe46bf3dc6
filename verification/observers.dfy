/**
 * The observer pattern demo: a signal publisher keeps an ordered list of observers
 * without duplicates and hands every signal to each of them in attach order; a logger
 * observer records one line per signal, an alert observer records a line for large trades.
 */
module Observers {
  import opened Wrappers
  import opened Text

  /** A signal dict; each of its three keys may be absent. */
  datatype Signal = Signal(action: Option<string>, symbol: Option<string>, quantity: Option<int>)

  /** The concrete observers with the lists they accumulate. */
  datatype Observer =
    | Logger(logs: seq<string>)
    | Alert(threshold: int, alerts: seq<string>)

  /** `AlertObserver()` without an argument. */
  const DefaultThreshold: int := 500

  /** The `KeyError` a subscript on a missing key raises. */
  datatype KeyError = KeyError(key: string)

  /** Observers are compared by identity; an id stands for the object. */
  type Id = nat

  datatype Publisher = Publisher(observers: seq<Id>)

  predicate NoDuplicates(ids: seq<Id>) {
    forall i, j :: 0 <= i < j < |ids| ==> ids[i] != ids[j]
  }

  /** `attach`: appended only when not already present. */
  function Attach(p: Publisher, id: Id): (r: Publisher)
    ensures id in r.observers
    ensures forall x :: x in r.observers <==> x in p.observers || x == id
    ensures NoDuplicates(p.observers) ==> NoDuplicates(r.observers)
    ensures id in p.observers ==> r == p
    ensures id !in p.observers ==> |r.observers| == |p.observers| + 1 && r.observers[..|p.observers|] == p.observers
  {
    if id in p.observers then p else Publisher(p.observers + [id])
  }

  /** Where `list.remove` finds `id`: its first occurrence. */
  function IndexOf(ids: seq<Id>, id: Id): (k: nat)
    requires id in ids
    ensures k < |ids| && ids[k] == id && id !in ids[..k]
  {
    if ids[0] == id then 0
    else
      var k := IndexOf(ids[1..], id);
      assert ids[..k + 1] == [ids[0]] + ids[1..][..k];
      k + 1
  }

  /** `detach`: the first occurrence is removed if there is one, and everything else stays in order. */
  function Detach(p: Publisher, id: Id): (r: Publisher)
    ensures id !in p.observers ==> r == p
    ensures id in p.observers ==>
      exists k :: 0 <= k < |p.observers| && p.observers[k] == id && id !in p.observers[..k]
        && r.observers == p.observers[..k] + p.observers[k + 1..]
  {
    if id in p.observers then
      var k := IndexOf(p.observers, id);
      Publisher(p.observers[..k] + p.observers[k + 1..])
    else p
  }

  /** Without duplicates, a detached observer is gone and exactly the others remain. */
  lemma DetachRemoves(p: Publisher, id: Id)
    requires NoDuplicates(p.observers)
    ensures NoDuplicates(Detach(p, id).observers)
    ensures forall x :: x in Detach(p, id).observers <==> x in p.observers && x != id
  {
    if id in p.observers {
      var k := IndexOf(p.observers, id);
      RemoveAtMembers(p.observers, k);
      RemoveAtKeepsDistinct(p.observers, k);
    }
  }

  /** Removing the entry at `k` of a duplicate-free list leaves exactly the other entries. */
  lemma RemoveAtMembers(ids: seq<Id>, k: nat)
    requires NoDuplicates(ids) && k < |ids|
    ensures forall x :: x in ids[..k] + ids[k + 1..] <==> x in ids && x != ids[k]
  {
    var r := ids[..k] + ids[k + 1..];
    assert forall i :: 0 <= i < |r| ==> r[i] == ids[if i < k then i else i + 1];
    forall x | x in ids && x != ids[k]
      ensures x in r
    {
      var j :| 0 <= j < |ids| && ids[j] == x;
      assert r[if j < k then j else j - 1] == x;
    }
  }

  lemma RemoveAtKeepsDistinct(ids: seq<Id>, k: nat)
    requires NoDuplicates(ids) && k < |ids|
    ensures NoDuplicates(ids[..k] + ids[k + 1..])
  {
    var r := ids[..k] + ids[k + 1..];
    assert forall i :: 0 <= i < |r| ==> r[i] == ids[if i < k then i else i + 1];
  }

  /** Publisher operations as a caller would issue them. */
  datatype Op = AttachOp(id: Id) | DetachOp(id: Id)

  function Apply(p: Publisher, ops: seq<Op>): Publisher
    decreases |ops|
  {
    if |ops| == 0 then p
    else
      var q := Apply(p, ops[..|ops| - 1]);
      match ops[|ops| - 1]
      case AttachOp(id) => Attach(q, id)
      case DetachOp(id) => Detach(q, id)
  }

  /** Whatever sequence of attach and detach calls is made, the list never holds an observer twice. */
  lemma {:induction false} NeverDuplicated(ops: seq<Op>)
    ensures NoDuplicates(Apply(Publisher([]), ops).observers)
    decreases |ops|
  {
    if |ops| > 0 {
      NeverDuplicated(ops[..|ops| - 1]);
      var q := Apply(Publisher([]), ops[..|ops| - 1]);
      if ops[|ops| - 1].DetachOp? {
        DetachRemoves(q, ops[|ops| - 1].id);
      }
    }
  }

  /** The logger's line for a signal at time `now`; the keys are read in the order the f-string reads them. */
  function LogLine(s: Signal, now: string): Result<string, KeyError> {
    if s.action.None? then Err(KeyError("action"))
    else if s.quantity.None? then Err(KeyError("quantity"))
    else if s.symbol.None? then Err(KeyError("symbol"))
    else Ok("[" + now + "] SIGNAL: " + s.action.value + " " + IntToString(s.quantity.value) + " shares of " + s.symbol.value)
  }

  /** The alert's line for a trade of `quantity`. */
  function AlertLine(s: Signal, quantity: int): Result<string, KeyError> {
    if s.action.None? then Err(KeyError("action"))
    else if s.symbol.None? then Err(KeyError("symbol"))
    else Ok("Large Trade Alert: " + s.action.value + " " + IntToString(quantity) + " shares of " + s.symbol.value)
  }

  /** The quantity the alert observer compares: a missing one counts as 0. */
  function AlertQuantity(s: Signal): int {
    s.quantity.GetOr(0)
  }

  /** Whether an update of `o` with `s` raises. */
  predicate Raises(o: Observer, s: Signal) {
    match o
    case Logger(_) => s.action.None? || s.quantity.None? || s.symbol.None?
    case Alert(t, _) => AlertQuantity(s) > t && (s.action.None? || s.symbol.None?)
  }

  /** `update`: the logger appends exactly one line; the alert appends one exactly when the quantity exceeds its threshold. */
  function Update(o: Observer, s: Signal, now: string): (r: Result<Observer, KeyError>)
    ensures r.Err? <==> Raises(o, s)
    ensures r.Ok? ==> r.value.Logger? == o.Logger?
    ensures r.Ok? && o.Logger? ==> |r.value.logs| == |o.logs| + 1 && r.value.logs[..|o.logs|] == o.logs
    ensures r.Ok? && o.Alert? ==> r.value.Alert? && r.value.threshold == o.threshold
    ensures r.Ok? && o.Alert? && AlertQuantity(s) > o.threshold ==>
      |r.value.alerts| == |o.alerts| + 1 && r.value.alerts[..|o.alerts|] == o.alerts
    ensures r.Ok? && o.Alert? && AlertQuantity(s) <= o.threshold ==> r.value == o
  {
    match o
    case Logger(logs) =>
      (match LogLine(s, now)
       case Err(e) => Err(e)
       case Ok(line) => Ok(Logger(logs + [line])))
    case Alert(t, alerts) =>
      var q := AlertQuantity(s);
      if q > t then
        (match AlertLine(s, q)
         case Err(e) => Err(e)
         case Ok(line) => Ok(Alert(t, alerts + [line])))
      else Ok(o)
  }

  /** Whether the observer's kind and threshold are the same, so it raises on the same signals. */
  predicate SameKind(a: Observer, b: Observer) {
    a.Logger? == b.Logger? && (a.Alert? ==> b.Alert? && a.threshold == b.threshold)
  }

  /** What one `notify` did: the observers afterwards, the ones whose `update` was called, and the error it stopped on. */
  datatype Outcome = Outcome(registry: map<Id, Observer>, calls: seq<Id>, error: Option<KeyError>)

  /** `notify`: the loop over the list; an exception ends it and earlier updates stay done. */
  function NotifyFrom(ids: seq<Id>, reg: map<Id, Observer>, s: Signal, now: string): (r: Outcome)
    requires forall i :: 0 <= i < |ids| ==> ids[i] in reg
    ensures r.registry.Keys == reg.Keys
    decreases |ids|
  {
    if |ids| == 0 then Outcome(reg, [], None)
    else
      match Update(reg[ids[0]], s, now)
      case Err(e) => Outcome(reg, [ids[0]], Some(e))
      case Ok(o) =>
        var rest := NotifyFrom(ids[1..], reg[ids[0] := o], s, now);
        Outcome(rest.registry, [ids[0]] + rest.calls, rest.error)
  }

  /** An update never changes which signals an observer raises on. */
  lemma UpdateKeepsKind(o: Observer, s: Signal, now: string, x: Signal)
    requires Update(o, s, now).Ok?
    ensures Raises(Update(o, s, now).value, x) == Raises(o, x)
  {
  }

  /** `update` is called on a prefix of the list, in list order, and on all of it when nothing raised. */
  lemma {:induction false} NotifyCallsInOrder(ids: seq<Id>, reg: map<Id, Observer>, s: Signal, now: string)
    requires forall i :: 0 <= i < |ids| ==> ids[i] in reg
    ensures var r := NotifyFrom(ids, reg, s, now);
      |r.calls| <= |ids| && r.calls == ids[..|r.calls|] && (r.error.None? ==> r.calls == ids)
    decreases |ids|
  {
    if |ids| > 0 && Update(reg[ids[0]], s, now).Ok? {
      NotifyCallsInOrder(ids[1..], reg[ids[0] := Update(reg[ids[0]], s, now).value], s, now);
    }
  }

  /** Updating the first observer changes nobody's kind, so the rest raise exactly as before. */
  lemma RaisesAfterFirst(ids: seq<Id>, reg: map<Id, Observer>, s: Signal, now: string)
    requires |ids| > 0 && forall i :: 0 <= i < |ids| ==> ids[i] in reg
    requires Update(reg[ids[0]], s, now).Ok?
    ensures var reg' := reg[ids[0] := Update(reg[ids[0]], s, now).value];
      forall x :: x in reg ==> Raises(reg'[x], s) == Raises(reg[x], s)
  {
    var reg' := reg[ids[0] := Update(reg[ids[0]], s, now).value];
    forall x | x in reg
      ensures Raises(reg'[x], s) == Raises(reg[x], s)
    {
      if x == ids[0] {
        UpdateKeepsKind(reg[ids[0]], s, now, s);
      }
    }
  }

  /** The loop runs to the end exactly when no listed observer raises on the signal. */
  lemma {:induction false} NotifyErrorIffRaises(ids: seq<Id>, reg: map<Id, Observer>, s: Signal, now: string)
    requires forall i :: 0 <= i < |ids| ==> ids[i] in reg
    ensures NotifyFrom(ids, reg, s, now).error.None? <==> forall i :: 0 <= i < |ids| ==> !Raises(reg[ids[i]], s)
    decreases |ids|
  {
    if |ids| > 0 && Update(reg[ids[0]], s, now).Ok? {
      var reg' := reg[ids[0] := Update(reg[ids[0]], s, now).value];
      NotifyErrorIffRaises(ids[1..], reg', s, now);
      RaisesAfterFirst(ids, reg, s, now);
      assert forall i :: 0 <= i < |ids[1..]| ==> ids[1..][i] == ids[i + 1];
    }
  }

  /** When the loop stops early, it stops at the last observer it called, which is one that raises. */
  lemma {:induction false} NotifyStopsAtRaiser(ids: seq<Id>, reg: map<Id, Observer>, s: Signal, now: string)
    requires forall i :: 0 <= i < |ids| ==> ids[i] in reg
    ensures var r := NotifyFrom(ids, reg, s, now);
      r.error.Some? ==> |r.calls| > 0 && r.calls[|r.calls| - 1] in reg && Raises(reg[r.calls[|r.calls| - 1]], s)
    decreases |ids|
  {
    if |ids| > 0 && Update(reg[ids[0]], s, now).Ok? {
      var reg' := reg[ids[0] := Update(reg[ids[0]], s, now).value];
      NotifyStopsAtRaiser(ids[1..], reg', s, now);
      RaisesAfterFirst(ids, reg, s, now);
    }
  }

  /** Observers that are not attached are untouched by a notification. */
  lemma {:induction false} NotifyLeavesOthers(ids: seq<Id>, reg: map<Id, Observer>, s: Signal, now: string, x: Id)
    requires forall i :: 0 <= i < |ids| ==> ids[i] in reg
    requires x in reg && x !in ids
    ensures NotifyFrom(ids, reg, s, now).registry[x] == reg[x]
    decreases |ids|
  {
    if |ids| > 0 && Update(reg[ids[0]], s, now).Ok? {
      NotifyLeavesOthers(ids[1..], reg[ids[0] := Update(reg[ids[0]], s, now).value], s, now, x);
    }
  }

  function Notify(p: Publisher, reg: map<Id, Observer>, s: Signal, now: string): (r: Outcome)
    requires forall i :: 0 <= i < |p.observers| ==> p.observers[i] in reg
  {
    NotifyFrom(p.observers, reg, s, now)
  }

  /**
   * With no duplicates in the list and no observer raising, every attached observer is
   * updated exactly once (its state is one `update` applied to its old state) and the
   * rest are untouched.
   */
  lemma {:induction false} NotifyUpdatesEachOnce(ids: seq<Id>, reg: map<Id, Observer>, s: Signal, now: string)
    requires forall i :: 0 <= i < |ids| ==> ids[i] in reg
    requires NoDuplicates(ids)
    requires forall i :: 0 <= i < |ids| ==> !Raises(reg[ids[i]], s)
    ensures forall x :: x in ids ==> NotifyFrom(ids, reg, s, now).registry[x] == Update(reg[x], s, now).value
    decreases |ids|
  {
    if |ids| > 0 {
      var o := Update(reg[ids[0]], s, now).value;
      var reg' := reg[ids[0] := o];
      assert forall i :: 0 <= i < |ids[1..]| ==> ids[1..][i] != ids[0];
      assert forall i :: 0 <= i < |ids[1..]| ==> reg'[ids[1..][i]] == reg[ids[1..][i]];
      NotifyUpdatesEachOnce(ids[1..], reg', s, now);
      assert ids[0] !in ids[1..];
      NotifyLeavesOthers(ids[1..], reg', s, now, ids[0]);
    }
  }

  /** A signal with all three keys never raises, whichever observers are attached. */
  lemma CompleteSignalNeverRaises(o: Observer, s: Signal)
    requires s.action.Some? && s.symbol.Some? && s.quantity.Some?
    ensures !Raises(o, s)
  {
  }

  /** The alert line for the test's SELL of 100 TSLA. */
  lemma LargeTradeLine()
    ensures AlertLine(Signal(Some("SELL"), Some("TSLA"), Some(100)), 100) == Ok("Large Trade Alert: SELL 100 shares of TSLA")
  {
    assert IntToString(100) == "100" by {
      assert NatToString(1) == "1";
      assert NatToString(10) == NatToString(1) + [DigitChar(0)];
      assert NatToString(100) == NatToString(10) + [DigitChar(0)];
    }
    assert "Large Trade Alert: " + "SELL" + " " + "100" + " shares of " + "TSLA" == "Large Trade Alert: SELL 100 shares of TSLA";
  }

  /** Attaching ids 0 then 1 to a fresh publisher lists them in that order; detaching 0 leaves only 1. */
  lemma AttachDetachScenario()
    ensures Attach(Attach(Publisher([]), 0), 1) == Publisher([0, 1])
    ensures Detach(Publisher([0, 1]), 0) == Publisher([1])
  {
    assert IndexOf([0, 1], 0) == 0;
  }

  /** From the alert alone (id 1, threshold 50), the loop records the alert and finishes. */
  lemma AlertOnlyStep(reg: map<Id, Observer>, now: string)
    requires 1 in reg && reg[1] == Alert(50, [])
    ensures var r := NotifyFrom([1], reg, Signal(Some("SELL"), Some("TSLA"), Some(100)), now);
      r.error.None? && r.calls == [1]
      && r.registry == reg[1 := Alert(50, ["Large Trade Alert: SELL 100 shares of TSLA"])]
  {
    LargeTradeLine();
    assert [1][1..] == [];
  }

  /** One step of the loop: an observer that updates without raising is recorded and the rest follow. */
  lemma NotifyHead(ids: seq<Id>, reg: map<Id, Observer>, s: Signal, now: string, o: Observer)
    requires forall i :: 0 <= i < |ids| ==> ids[i] in reg
    requires |ids| > 0 && Update(reg[ids[0]], s, now) == Ok(o)
    ensures var r := NotifyFrom(ids, reg, s, now);
      var rest := NotifyFrom(ids[1..], reg[ids[0] := o], s, now);
      r.registry == rest.registry && r.calls == [ids[0]] + rest.calls && r.error == rest.error
  {
  }

  /** The logger (id 0) records one line for a complete signal and passes on to the alert. */
  lemma LoggerThenAlert(reg: map<Id, Observer>, s: Signal, now: string)
    requires reg == map[0 := Logger([]), 1 := Alert(50, [])]
    requires s == Signal(Some("SELL"), Some("TSLA"), Some(100))
    ensures var r := NotifyFrom([0, 1], reg, s, now);
      r.error.None? && r.calls == [0, 1]
      && r.registry[1] == Alert(50, ["Large Trade Alert: SELL 100 shares of TSLA"])
      && r.registry[0].Logger? && |r.registry[0].logs| == 1
  {
    var u0 := Update(Logger([]), s, now);
    CompleteSignalNeverRaises(Logger([]), s);
    assert u0.Ok? && u0.value.Logger? && |u0.value.logs| == 1;
    var reg1 := reg[0 := u0.value];
    AlertOnlyStep(reg1, now);
    assert [0, 1][1..] == [1];
    NotifyHead([0, 1], reg, s, now, u0.value);
  }

  /**
   * The observer test case: a logger (id 0) and an alert with threshold 50 (id 1) attached
   * in that order; a SELL of 100 TSLA reaches both, in order, and raises an alert; after
   * detaching the logger only the alert is left.
   */
  lemma ObserverScenario(now: string)
    ensures Attach(Attach(Publisher([]), 0), 1) == Publisher([0, 1])
    ensures var r := Notify(Publisher([0, 1]), map[0 := Logger([]), 1 := Alert(50, [])], Signal(Some("SELL"), Some("TSLA"), Some(100)), now);
      r.error.None? && r.calls == [0, 1]
      && r.registry[1] == Alert(50, ["Large Trade Alert: SELL 100 shares of TSLA"])
      && r.registry[0].Logger? && |r.registry[0].logs| == 1
    ensures Detach(Publisher([0, 1]), 0) == Publisher([1])
  {
    AttachDetachScenario();
    LoggerThenAlert(map[0 := Logger([]), 1 := Alert(50, [])], Signal(Some("SELL"), Some("TSLA"), Some(100)), now);
  }
}
