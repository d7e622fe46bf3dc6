/**
 * The composite pattern demo: a portfolio group holds positions and nested
 * sub-portfolios; its value and symbol list are computed over the whole tree. Also
 * the construction of such a tree from its nested-dictionary description.
 */
module PortfolioTree {
  import opened Wrappers
  import opened Series

  /** A leaf: `Position(symbol, quantity, price)`. */
  datatype Position = Position(symbol: string, quantity: real, price: real)

  function PositionValue(p: Position): real {
    p.quantity * p.price
  }

  /** A `PortfolioGroup`: its own positions, then its sub-portfolios, both in insertion order. */
  datatype Group = Group(name: string, owner: Option<string>, positions: seq<Position>, subs: seq<Group>)

  function Values(ps: seq<Position>): (r: seq<real>)
    ensures |r| == |ps|
    ensures forall i :: 0 <= i < |ps| ==> r[i] == PositionValue(ps[i])
  {
    seq(|ps|, i requires 0 <= i < |ps| => PositionValue(ps[i]))
  }

  /** `get_value`: own position values plus the sub-portfolios' values, recursively. */
  function Value(g: Group): real
    decreases g, 1
  {
    Sum(Values(g.positions)) + SubsValue(g)
  }

  /** The sub-portfolios' values, summed. */
  function SubsValue(g: Group): real
    decreases g, 0
  {
    Sum(seq(|g.subs|, i requires 0 <= i < |g.subs| => Value(g.subs[i])))
  }

  /** A group's value depends only on its own positions and its sub-portfolios. */
  lemma SameSubsSameValue(g: Group, h: Group)
    requires g.subs == h.subs
    ensures SubsValue(g) == SubsValue(h)
  {
    assert seq(|g.subs|, i requires 0 <= i < |g.subs| => Value(g.subs[i]))
        == seq(|h.subs|, i requires 0 <= i < |h.subs| => Value(h.subs[i]));
  }

  function Concat(xss: seq<seq<string>>): seq<string> {
    if |xss| == 0 then [] else Concat(xss[..|xss| - 1]) + xss[|xss| - 1]
  }

  /** `get_positions`: own symbols in order, then each sub-portfolio's list in order. */
  function Symbols(g: Group): seq<string>
    decreases g
  {
    seq(|g.positions|, i requires 0 <= i < |g.positions| => g.positions[i].symbol)
      + Concat(seq(|g.subs|, i requires 0 <= i < |g.subs| => Symbols(g.subs[i])))
  }

  /** `add_position`. */
  function AddPosition(g: Group, p: Position): (r: Group)
    ensures r.positions == g.positions + [p] && r.subs == g.subs
  {
    g.(positions := g.positions + [p])
  }

  /** `add_sub_portfolio`. */
  function AddSub(g: Group, s: Group): (r: Group)
    ensures r.subs == g.subs + [s] && r.positions == g.positions
  {
    g.(subs := g.subs + [s])
  }

  /** Adding a position adds its quantity times price to the group's value and its symbol after the group's own symbols. */
  lemma AddPositionValue(g: Group, p: Position)
    ensures Value(AddPosition(g, p)) == Value(g) + PositionValue(p)
    ensures Symbols(AddPosition(g, p)) ==
      seq(|g.positions|, i requires 0 <= i < |g.positions| => g.positions[i].symbol) + [p.symbol]
      + Concat(seq(|g.subs|, i requires 0 <= i < |g.subs| => Symbols(g.subs[i])))
  {
    AddPositionAddsValue(g, p);
    AddPositionListsSymbol(g, p);
  }

  lemma AddPositionAddsValue(g: Group, p: Position)
    ensures Value(AddPosition(g, p)) == Value(g) + PositionValue(p)
  {
    var r := AddPosition(g, p);
    assert Values(r.positions) == Values(g.positions) + [PositionValue(p)];
    SumAppend(Values(g.positions), PositionValue(p));
    SameSubsSameValue(g, r);
  }

  lemma AddPositionListsSymbol(g: Group, p: Position)
    ensures Symbols(AddPosition(g, p)) ==
      seq(|g.positions|, i requires 0 <= i < |g.positions| => g.positions[i].symbol) + [p.symbol]
      + Concat(seq(|g.subs|, i requires 0 <= i < |g.subs| => Symbols(g.subs[i])))
  {
    var r := AddPosition(g, p);
    assert seq(|r.subs|, i requires 0 <= i < |r.subs| => Symbols(r.subs[i]))
        == seq(|g.subs|, i requires 0 <= i < |g.subs| => Symbols(g.subs[i]));
    assert seq(|r.positions|, i requires 0 <= i < |r.positions| => r.positions[i].symbol)
        == seq(|g.positions|, i requires 0 <= i < |g.positions| => g.positions[i].symbol) + [p.symbol];
  }

  /** Adding a sub-portfolio adds its whole value, and lists its symbols after everything already listed. */
  lemma AddSubValue(g: Group, s: Group)
    ensures Value(AddSub(g, s)) == Value(g) + Value(s)
    ensures Symbols(AddSub(g, s)) == Symbols(g) + Symbols(s)
  {
    var r := AddSub(g, s);
    var before := seq(|g.subs|, i requires 0 <= i < |g.subs| => Value(g.subs[i]));
    assert seq(|r.subs|, i requires 0 <= i < |r.subs| => Value(r.subs[i])) == before + [Value(s)];
    SumAppend(before, Value(s));
    var names := seq(|g.subs|, i requires 0 <= i < |g.subs| => Symbols(g.subs[i]));
    var names' := seq(|r.subs|, i requires 0 <= i < |r.subs| => Symbols(r.subs[i]));
    assert names' == names + [Symbols(s)];
    assert names'[..|names|] == names;
  }

  /** The index of the first own position with this symbol. */
  function FirstMatch(ps: seq<Position>, symbol: string): (r: Option<nat>)
    ensures r.Some? ==> (r.value < |ps| && ps[r.value].symbol == symbol
      && forall j :: 0 <= j < r.value ==> ps[j].symbol != symbol)
    ensures r.None? ==> forall j :: 0 <= j < |ps| ==> ps[j].symbol != symbol
  {
    if |ps| == 0 then None
    else if ps[0].symbol == symbol then Some(0)
    else match FirstMatch(ps[1..], symbol)
      case None => None
      case Some(k) => Some(k + 1)
  }

  /**
   * `remove_position`: on the first own position with the symbol, selling at least
   * its quantity removes it and selling less reduces it; either way True. No own
   * match: False and no change; sub-portfolios are never searched.
   */
  function RemovePosition(g: Group, symbol: string, quantity: real): (r: (Group, bool))
    ensures r.1 <==> FirstMatch(g.positions, symbol).Some?
    ensures !r.1 ==> r.0 == g
    ensures r.0.subs == g.subs && r.0.name == g.name && r.0.owner == g.owner
    ensures r.1 ==> var i := FirstMatch(g.positions, symbol).value;
      (quantity >= g.positions[i].quantity ==> r.0.positions == g.positions[..i] + g.positions[i + 1..])
      && (quantity < g.positions[i].quantity ==>
            r.0.positions == g.positions[i := g.positions[i].(quantity := g.positions[i].quantity - quantity)])
  {
    match FirstMatch(g.positions, symbol)
    case None => (g, false)
    case Some(i) =>
      var p := g.positions[i];
      if quantity >= p.quantity then (g.(positions := g.positions[..i] + g.positions[i + 1..]), true)
      else (g.(positions := g.positions[i := p.(quantity := p.quantity - quantity)]), true)
  }

  lemma {:induction false} SumSplit(xs: seq<real>, i: nat)
    requires i < |xs|
    ensures Sum(xs) == Sum(xs[..i]) + xs[i] + Sum(xs[i + 1..])
    decreases |xs|
  {
    if i < |xs| - 1 {
      var init := xs[..|xs| - 1];
      SumSplit(init, i);
      assert init[..i] == xs[..i];
      assert init[i + 1..] + [xs[|xs| - 1]] == xs[i + 1..];
      SumAppend(init[i + 1..], xs[|xs| - 1]);
      assert xs == init + [xs[|xs| - 1]];
    } else {
      assert xs[i + 1..] == [];
      assert xs[..i] + [xs[i]] == xs;
    }
  }

  lemma {:induction false} SumConcat(xs: seq<real>, ys: seq<real>)
    ensures Sum(xs + ys) == Sum(xs) + Sum(ys)
    decreases |ys|
  {
    if |ys| > 0 {
      var init := ys[..|ys| - 1];
      SumConcat(xs, init);
      assert xs + ys == (xs + init) + [ys[|ys| - 1]];
      SumAppend(xs + init, ys[|ys| - 1]);
      SumAppend(init, ys[|ys| - 1]);
      assert init + [ys[|ys| - 1]] == ys;
    } else {
      assert xs + ys == xs;
    }
  }

  lemma DropOneValue(ps: seq<Position>, i: nat)
    requires i < |ps|
    ensures Sum(Values(ps[..i] + ps[i + 1..])) == Sum(Values(ps)) - PositionValue(ps[i])
  {
    var vs := Values(ps);
    assert Sum(vs) == Sum(vs[..i]) + vs[i] + Sum(vs[i + 1..]) by {
      SumSplit(vs, i);
    }
    assert Values(ps[..i] + ps[i + 1..]) == vs[..i] + vs[i + 1..];
    assert Sum(vs[..i] + vs[i + 1..]) == Sum(vs[..i]) + Sum(vs[i + 1..]) by {
      SumConcat(vs[..i], vs[i + 1..]);
    }
  }

  lemma ReduceOneValue(ps: seq<Position>, i: nat, quantity: real)
    requires i < |ps|
    ensures Sum(Values(ps[i := ps[i].(quantity := ps[i].quantity - quantity)]))
         == Sum(Values(ps)) - quantity * ps[i].price
  {
    var vs := Values(ps);
    var ps' := ps[i := ps[i].(quantity := ps[i].quantity - quantity)];
    assert Values(ps') == vs[i := PositionValue(ps'[i])];
    SumReplace(vs, i, PositionValue(ps'[i]));
    Distribute(ps[i].quantity, quantity, ps[i].price);
  }

  lemma SumReplace(vs: seq<real>, i: nat, v: real)
    requires i < |vs|
    ensures Sum(vs[i := v]) == Sum(vs) - vs[i] + v
  {
    var ws := vs[i := v];
    SumSplit(vs, i);
    SumSplit(ws, i);
    assert ws[..i] == vs[..i] && ws[i + 1..] == vs[i + 1..];
  }

  lemma Distribute(a: real, q: real, p: real)
    ensures (a - q) * p == a * p - q * p
  {
  }

  /**
   * Removing lowers the group's value by the position's price times the quantity
   * actually sold: the requested quantity, capped at what the position holds.
   */
  lemma RemoveLowersValue(g: Group, symbol: string, quantity: real)
    requires FirstMatch(g.positions, symbol).Some?
    ensures var p := g.positions[FirstMatch(g.positions, symbol).value];
      quantity >= p.quantity ==> Value(RemovePosition(g, symbol, quantity).0) == Value(g) - p.quantity * p.price
    ensures var p := g.positions[FirstMatch(g.positions, symbol).value];
      quantity < p.quantity ==> Value(RemovePosition(g, symbol, quantity).0) == Value(g) - quantity * p.price
  {
    var i := FirstMatch(g.positions, symbol).value;
    if quantity >= g.positions[i].quantity {
      RemoveAllValue(g, symbol, quantity, i);
    } else {
      RemoveSomeValue(g, symbol, quantity, i);
    }
  }

  lemma RemoveAllValue(g: Group, symbol: string, quantity: real, i: nat)
    requires FirstMatch(g.positions, symbol) == Some(i) && quantity >= g.positions[i].quantity
    ensures Value(RemovePosition(g, symbol, quantity).0) == Value(g) - PositionValue(g.positions[i])
  {
    var r := RemovePosition(g, symbol, quantity).0;
    SameSubsSameValue(g, r);
    assert r.positions == g.positions[..i] + g.positions[i + 1..];
    DropOneValue(g.positions, i);
  }

  lemma RemoveSomeValue(g: Group, symbol: string, quantity: real, i: nat)
    requires FirstMatch(g.positions, symbol) == Some(i) && quantity < g.positions[i].quantity
    ensures Value(RemovePosition(g, symbol, quantity).0) == Value(g) - quantity * g.positions[i].price
  {
    var r := RemovePosition(g, symbol, quantity).0;
    assert r.positions == g.positions[i := g.positions[i].(quantity := g.positions[i].quantity - quantity)];
    ReduceOneValue(g.positions, i, quantity);
    SameSubsSameValue(g, r);
  }

  // ---- build_portfolio ----

  /** A position entry of the nested dictionary. */
  datatype PositionData = PositionData(symbol: string, quantity: real, price: real)

  /**
   * The nested dictionary. `owner` may be absent; an absent `positions` or
   * `sub_portfolios` list reads as empty (`data.get(key, [])`), so it is an empty list here.
   */
  datatype PortfolioData = PortfolioData(name: string, owner: Option<string>,
                                         positions: seq<PositionData>, subs: seq<PortfolioData>)

  /** `build_portfolio`: the same name and owner, the positions in order, each sub-portfolio built in order. */
  function Build(d: PortfolioData): (g: Group)
    decreases d
  {
    Group(d.name, d.owner,
          seq(|d.positions|, i requires 0 <= i < |d.positions| =>
            Position(d.positions[i].symbol, d.positions[i].quantity, d.positions[i].price)),
          seq(|d.subs|, i requires 0 <= i < |d.subs| => Build(d.subs[i])))
  }

  /** The dictionary describing a group. */
  function Describe(g: Group): (d: PortfolioData)
    decreases g
  {
    PortfolioData(g.name, g.owner,
                  seq(|g.positions|, i requires 0 <= i < |g.positions| =>
                    PositionData(g.positions[i].symbol, g.positions[i].quantity, g.positions[i].price)),
                  seq(|g.subs|, i requires 0 <= i < |g.subs| => Describe(g.subs[i])))
  }

  /** Building from a group's description gives the group back. */
  lemma {:induction false} BuildDescribe(g: Group)
    ensures Build(Describe(g)) == g
    decreases g
  {
    forall i | 0 <= i < |g.subs| {
      BuildDescribe(g.subs[i]);
    }
    var b := Build(Describe(g));
    assert b.positions == g.positions;
    assert b.subs == g.subs;
  }

  /** Describing the built group recovers the dictionary: names, owners, positions and nesting are mirrored exactly. */
  lemma {:induction false} DescribeBuild(d: PortfolioData)
    ensures Describe(Build(d)) == d
    decreases d
  {
    forall i | 0 <= i < |d.subs| {
      DescribeBuild(d.subs[i]);
    }
    var e := Describe(Build(d));
    assert e.positions == d.positions;
    assert e.subs == d.subs;
  }
}
