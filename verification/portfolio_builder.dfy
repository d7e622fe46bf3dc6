/**
 * The builder pattern demo: a portfolio builder collects position entries, an owner
 * and sub-builders, and `build` turns the builder tree into a portfolio tree.
 */
module PortfolioBuilder {

  /** A position entry `{"symbol", "quantity", "price"}`. */
  datatype Entry = Entry(symbol: string, quantity: real, price: real)

  /** The builder's `Portfolio`: a name, its position entries, built sub-portfolios and an owner. */
  datatype Portfolio = Portfolio(name: string, positions: seq<Entry>, subs: seq<Portfolio>, owner: string)

  /** `PortfolioBuilder`: what has been added so far, in insertion order. */
  datatype Builder = Builder(name: string, positions: seq<Entry>, subs: seq<Builder>, owner: string)

  /** A fresh builder: no positions, no sub-builders, owner "". */
  function NewBuilder(name: string): (b: Builder)
    ensures b.name == name && b.positions == [] && b.subs == [] && b.owner == ""
  {
    Builder(name, [], [], "")
  }

  function AddPosition(b: Builder, symbol: string, quantity: real, price: real): (r: Builder)
    ensures r.positions == b.positions + [Entry(symbol, quantity, price)]
    ensures r.name == b.name && r.subs == b.subs && r.owner == b.owner
  {
    b.(positions := b.positions + [Entry(symbol, quantity, price)])
  }

  /** `set_owner`: the last call wins. */
  function SetOwner(b: Builder, owner: string): (r: Builder)
    ensures r.owner == owner
    ensures r.name == b.name && r.positions == b.positions && r.subs == b.subs
  {
    b.(owner := owner)
  }

  function AddSubBuilder(b: Builder, sub: Builder): (r: Builder)
    ensures r.subs == b.subs + [sub]
    ensures r.name == b.name && r.positions == b.positions && r.owner == b.owner
  {
    b.(subs := b.subs + [sub])
  }

  /** `build`: every sub-builder built recursively, in insertion order. */
  function Build(b: Builder): (p: Portfolio)
    decreases b
  {
    Portfolio(b.name, b.positions, seq(|b.subs|, i requires 0 <= i < |b.subs| => Build(b.subs[i])), b.owner)
  }

  /** The builder that would rebuild a portfolio. */
  function Rebuilder(p: Portfolio): (b: Builder)
    decreases p
  {
    Builder(p.name, p.positions, seq(|p.subs|, i requires 0 <= i < |p.subs| => Rebuilder(p.subs[i])), p.owner)
  }

  /** Building loses nothing: the builder tree can be recovered from the portfolio tree, and vice versa. */
  lemma {:induction false} BuildRoundTrip(b: Builder)
    ensures Rebuilder(Build(b)) == b
    decreases b
  {
    forall i | 0 <= i < |b.subs| {
      BuildRoundTrip(b.subs[i]);
    }
    assert Rebuilder(Build(b)).subs == b.subs;
  }

  lemma {:induction false} RebuildRoundTrip(p: Portfolio)
    ensures Build(Rebuilder(p)) == p
    decreases p
  {
    forall i | 0 <= i < |p.subs| {
      RebuildRoundTrip(p.subs[i]);
    }
    assert Build(Rebuilder(p)).subs == p.subs;
  }

  /** Number of position entries in a tree. */
  function BuilderEntries(b: Builder): nat
    decreases b
  {
    |b.positions| + SumNats(seq(|b.subs|, i requires 0 <= i < |b.subs| => BuilderEntries(b.subs[i])))
  }

  function PortfolioEntries(p: Portfolio): nat
    decreases p
  {
    |p.positions| + SumNats(seq(|p.subs|, i requires 0 <= i < |p.subs| => PortfolioEntries(p.subs[i])))
  }

  function SumNats(xs: seq<nat>): nat {
    if |xs| == 0 then 0 else SumNats(xs[..|xs| - 1]) + xs[|xs| - 1]
  }

  /** The built tree holds exactly as many positions as were added anywhere in the builder tree. */
  lemma {:induction false} BuildKeepsEntries(b: Builder)
    ensures PortfolioEntries(Build(b)) == BuilderEntries(b)
    decreases b
  {
    forall i | 0 <= i < |b.subs| {
      BuildKeepsEntries(b.subs[i]);
    }
    var p := Build(b);
    assert seq(|p.subs|, i requires 0 <= i < |p.subs| => PortfolioEntries(p.subs[i]))
        == seq(|b.subs|, i requires 0 <= i < |b.subs| => BuilderEntries(b.subs[i]));
  }

  /** A portfolio built from a fresh builder with positions and an owner set: name, owner, positions in order, no sub-portfolios. */
  lemma BuildExample()
    ensures var b := SetOwner(AddPosition(AddPosition(NewBuilder("Main"), "AAPL", 10.0, 150.0), "MSFT", 5.0, 300.0), "Ann");
      Build(b) == Portfolio("Main", [Entry("AAPL", 10.0, 150.0), Entry("MSFT", 5.0, 300.0)], [], "Ann")
  {
  }
}
