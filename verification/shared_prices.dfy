/**
 * The Assignment 8 shared price table and metadata block, without the operating
 * system: the table is one price slot per construction symbol, addressed through
 * the symbol-to-index dict; the metadata block is a fixed-size byte buffer holding
 * a 4-byte length header and the serialised record. The process lock, the shared
 * memory segments and pickle itself are outside the model; serialisation is a
 * pair of functions supplied by the caller.
 */
module SharedPrices {
  import opened Wrappers
  import opened Framing

  datatype PriceTable = PriceTable(symbols: seq<string>, prices: seq<real>)

  /** The exception `update` and `read` raise for a symbol the table does not know. */
  datatype LookupError = KeyError(symbol: string)

  predicate WellSized(t: PriceTable) {
    |t.prices| == |t.symbols|
  }

  /** `symbol_to_index`: the position of the symbol's last occurrence, since a later key overwrites an earlier one. */
  function IndexOf(symbols: seq<string>, s: string): (r: Option<nat>)
    ensures r.None? <==> s !in symbols
    ensures r.Some? ==> (r.value < |symbols| && symbols[r.value] == s
      && forall j :: r.value < j < |symbols| ==> symbols[j] != s)
  {
    if |symbols| == 0 then None
    else if symbols[|symbols| - 1] == s then Some(|symbols| - 1)
    else IndexOf(symbols[..|symbols| - 1], s)
  }

  /** A new table: every symbol's slot starts at 0.0. */
  function Create(symbols: seq<string>): (t: PriceTable)
    ensures WellSized(t) && t.symbols == symbols
    ensures forall i :: 0 <= i < |t.prices| ==> t.prices[i] == 0.0
  {
    PriceTable(symbols, seq(|symbols|, _ => 0.0))
  }

  /** `update(symbol, price)`: write only the symbol's slot; an unknown symbol raises and writes nothing. */
  function Update(t: PriceTable, symbol: string, price: real): (r: Result<PriceTable, LookupError>)
    requires WellSized(t)
    ensures r.Err? <==> symbol !in t.symbols
    ensures r.Err? ==> r.error == KeyError(symbol)
    ensures r.Ok? ==> (WellSized(r.value) && r.value.symbols == t.symbols
      && r.value.prices == t.prices[IndexOf(t.symbols, symbol).value := price])
  {
    match IndexOf(t.symbols, symbol)
    case None => Err(KeyError(symbol))
    case Some(i) => Ok(t.(prices := t.prices[i := price]))
  }

  /** `read(symbol)`: the symbol's slot, or KeyError. */
  function Read(t: PriceTable, symbol: string): (r: Result<real, LookupError>)
    requires WellSized(t)
    ensures r.Err? <==> symbol !in t.symbols
    ensures r.Err? ==> r.error == KeyError(symbol)
  {
    match IndexOf(t.symbols, symbol)
    case None => Err(KeyError(symbol))
    case Some(i) => Ok(t.prices[i])
  }

  /** A read after an update of the same symbol returns the written price; other symbols read as before. */
  lemma ReadAfterUpdate(t: PriceTable, symbol: string, price: real, other: string)
    requires WellSized(t) && symbol in t.symbols
    ensures Read(Update(t, symbol, price).value, symbol) == Ok(price)
    ensures other != symbol ==> Read(Update(t, symbol, price).value, other) == Read(t, other)
  {
  }

  /** Updates one after another: the last write wins. */
  function UpdateAll(t: PriceTable, symbol: string, prices: seq<real>): (r: PriceTable)
    requires WellSized(t) && symbol in t.symbols
    ensures WellSized(r) && r.symbols == t.symbols
    decreases |prices|
  {
    if |prices| == 0 then t else UpdateAll(Update(t, symbol, prices[0]).value, symbol, prices[1..])
  }

  lemma {:induction false} LastWriteWins(t: PriceTable, symbol: string, prices: seq<real>)
    requires WellSized(t) && symbol in t.symbols && |prices| > 0
    ensures Read(UpdateAll(t, symbol, prices), symbol) == Ok(prices[|prices| - 1])
    decreases |prices|
  {
    var t1 := Update(t, symbol, prices[0]).value;
    if |prices| > 1 {
      LastWriteWins(t1, symbol, prices[1..]);
    } else {
      ReadAfterUpdate(t, symbol, prices[0], symbol);
    }
  }

  /** `result[symbol] = price` on an insertion-ordered dict. */
  function Assign(pairs: seq<(string, real)>, k: string, v: real): (r: seq<(string, real)>)
    ensures |r| == |pairs| || |r| == |pairs| + 1
    decreases |pairs|
  {
    if |pairs| == 0 then [(k, v)]
    else if pairs[0].0 == k then [(k, v)] + pairs[1..]
    else [pairs[0]] + Assign(pairs[1..], k, v)
  }

  /** The value a dict, given as its items, holds for a key. */
  function Get(pairs: seq<(string, real)>, k: string): Option<real> {
    if |pairs| == 0 then None else if pairs[0].0 == k then Some(pairs[0].1) else Get(pairs[1..], k)
  }

  lemma {:induction false} GetAssign(pairs: seq<(string, real)>, k: string, v: real, x: string)
    ensures Get(Assign(pairs, k, v), x) == if x == k then Some(v) else Get(pairs, x)
    decreases |pairs|
  {
    if |pairs| > 0 && pairs[0].0 != k {
      GetAssign(pairs[1..], k, v, x);
    }
  }

  /** The loop of `read_all` over the first `n` symbols. */
  function Collect(t: PriceTable, n: nat): seq<(string, real)>
    requires WellSized(t) && n <= |t.symbols|
  {
    if n == 0 then [] else Assign(Collect(t, n - 1), t.symbols[n - 1], t.prices[n - 1])
  }

  /** `read_all()`: every symbol with its slot's price. */
  function ReadAll(t: PriceTable): seq<(string, real)>
    requires WellSized(t)
  {
    Collect(t, |t.symbols|)
  }

  /** The price of the last of the first `n` slots holding `s`, if any. */
  function SlotPrice(t: PriceTable, n: nat, s: string): Option<real>
    requires WellSized(t) && n <= |t.symbols|
  {
    match IndexOf(t.symbols[..n], s)
    case None => None
    case Some(i) => Some(t.prices[i])
  }

  lemma SlotPriceStep(t: PriceTable, n: nat, s: string)
    requires WellSized(t) && 0 < n <= |t.symbols|
    ensures SlotPrice(t, n, s) == if t.symbols[n - 1] == s then Some(t.prices[n - 1]) else SlotPrice(t, n - 1, s)
  {
    var pre := t.symbols[..n];
    if t.symbols[n - 1] != s {
      assert pre[..n - 1] == t.symbols[..n - 1];
    }
  }

  /** After the loop over the first `n` symbols, a symbol reads as the price of its last slot among them. */
  lemma {:induction false} CollectReads(t: PriceTable, n: nat, s: string)
    requires WellSized(t) && n <= |t.symbols|
    ensures Get(Collect(t, n), s) == SlotPrice(t, n, s)
    decreases n
  {
    if n > 0 {
      CollectReads(t, n - 1, s);
      GetAssign(Collect(t, n - 1), t.symbols[n - 1], t.prices[n - 1], s);
      SlotPriceStep(t, n, s);
    }
  }

  /** `read_all` agrees with `read` on every symbol and knows no other. */
  lemma ReadAllAgreesWithRead(t: PriceTable, s: string)
    requires WellSized(t)
    ensures Get(ReadAll(t), s) == if s in t.symbols then Some(Read(t, s).value) else None
  {
    CollectReads(t, |t.symbols|, s);
    assert t.symbols[..|t.symbols|] == t.symbols;
  }

  /** With distinct symbols, `read_all` lists them in construction order beside their prices. */
  lemma {:induction false} ReadAllInOrder(t: PriceTable, n: nat)
    requires WellSized(t) && n <= |t.symbols|
    requires forall i, j :: 0 <= i < j < |t.symbols| ==> t.symbols[i] != t.symbols[j]
    ensures Collect(t, n) == seq(n, i requires 0 <= i < n => (t.symbols[i], t.prices[i]))
    decreases n
  {
    if n > 0 {
      ReadAllInOrder(t, n - 1);
      AssignNew(Collect(t, n - 1), t.symbols[n - 1], t.prices[n - 1]);
    }
  }

  lemma {:induction false} AssignNew(pairs: seq<(string, real)>, k: string, v: real)
    requires forall i :: 0 <= i < |pairs| ==> pairs[i].0 != k
    ensures Assign(pairs, k, v) == pairs + [(k, v)]
    decreases |pairs|
  {
    if |pairs| > 0 {
      AssignNew(pairs[1..], k, v);
      assert [pairs[0]] + (pairs[1..] + [(k, v)]) == pairs + [(k, v)];
    }
  }

  /** `update_multiple(price_dict)`: each known symbol is written in turn; unknown symbols are skipped. */
  function UpdateMultiple(t: PriceTable, updates: seq<(string, real)>): (r: PriceTable)
    requires WellSized(t)
    ensures WellSized(r) && r.symbols == t.symbols
    decreases |updates|
  {
    if |updates| == 0 then t
    else
      var (s, p) := updates[0];
      var t1 := if s in t.symbols then Update(t, s, p).value else t;
      UpdateMultiple(t1, updates[1..])
  }

  /** After `update_multiple`, each symbol reads as its last value in the updates, or as before when it had none. */
  lemma {:induction false} UpdateMultipleReads(t: PriceTable, updates: seq<(string, real)>, s: string)
    requires WellSized(t) && s in t.symbols
    ensures Read(UpdateMultiple(t, updates), s) ==
      match LastFor(updates, s) case Some(p) => Ok(p) case None => Read(t, s)
    decreases |updates|
  {
    if |updates| > 0 {
      var (s0, p0) := updates[0];
      var t1 := if s0 in t.symbols then Update(t, s0, p0).value else t;
      UpdateMultipleReads(t1, updates[1..], s);
      if s0 in t.symbols {
        ReadAfterUpdate(t, s0, p0, s);
      }
    }
  }

  /** The value of the last update naming `s`. */
  function LastFor(updates: seq<(string, real)>, s: string): Option<real> {
    if |updates| == 0 then None
    else match LastFor(updates[1..], s)
      case Some(p) => Some(p)
      case None => if updates[0].0 == s then Some(updates[0].1) else None
  }

  /** `get_symbols()`: a copy of the symbol list. */
  function GetSymbols(t: PriceTable): seq<string> {
    t.symbols
  }

  /** No write changes the symbol list: it is always the construction list. */
  lemma SymbolsAreConstructionList(symbols: seq<string>, s: string, p: real, updates: seq<(string, real)>)
    ensures GetSymbols(Create(symbols)) == symbols
    ensures s in symbols ==> GetSymbols(Update(Create(symbols), s, p).value) == symbols
    ensures GetSymbols(UpdateMultiple(Create(symbols), updates)) == symbols
  {
  }

  // ---- metadata block ----

  const MetadataSize: nat := 1024

  /** The 4-byte length header, as `struct.pack('I', n)` writes it on a little-endian machine. */
  function Header(n: nat): (r: seq<byte>)
    requires n < 0x1_0000_0000
    ensures |r| == 4
  {
    [n % 256, (n / 256) % 256, (n / 65536) % 256, (n / 16777216) % 256]
  }

  function HeaderValue(h: seq<byte>): nat
    requires |h| >= 4
  {
    var b0: int, b1: int, b2: int, b3: int := h[0], h[1], h[2], h[3];
    b0 + 256 * b1 + 65536 * b2 + 16777216 * b3
  }

  lemma HeaderRoundTrip(n: nat)
    requires n < 0x1_0000_0000
    ensures HeaderValue(Header(n)) == n
  {
    var m1, m2, m3 := n / 256, n / 65536, n / 16777216;
    assert m2 == m1 / 256 && m3 == m2 / 256;
    assert n == n % 256 + 256 * m1;
    assert m1 == m1 % 256 + 256 * m2;
    assert m2 == m2 % 256 + 256 * m3;
    assert m3 % 256 == m3;
  }

  /** `write(data)` given the serialised bytes: refuse more than METADATA_SIZE - 4 bytes, else store the header then the bytes. */
  function WriteMeta(block: seq<byte>, serialized: seq<byte>): (r: Result<seq<byte>, string>)
    requires |block| == MetadataSize
    ensures r.Err? <==> |serialized| > MetadataSize - 4
    ensures r.Ok? ==> (|r.value| == MetadataSize
      && r.value[..4] == Header(|serialized|)
      && r.value[4..4 + |serialized|] == serialized
      && r.value[4 + |serialized|..] == block[4 + |serialized|..])
  {
    if |serialized| > MetadataSize - 4 then Err("Metadata too large")
    else Ok(Header(|serialized|) + serialized + block[4 + |serialized|..])
  }

  /** `read()`: a zero header means no metadata (None, read back as `{}`); otherwise the stored bytes, cut at the block's end. */
  function ReadMeta(block: seq<byte>): (r: Option<seq<byte>>)
    requires |block| == MetadataSize
  {
    var size := HeaderValue(block);
    if size == 0 then None
    else Some(block[4..if 4 + size <= |block| then 4 + size else |block|])
  }

  /** Reading back what was written gives the serialised bytes again, so `loads` returns the written record. */
  lemma MetaRoundTrip(block: seq<byte>, serialized: seq<byte>)
    requires |block| == MetadataSize && 0 < |serialized| <= MetadataSize - 4
    ensures WriteMeta(block, serialized).Ok?
    ensures ReadMeta(WriteMeta(block, serialized).value) == Some(serialized)
  {
    HeaderRoundTrip(|serialized|);
    var w := WriteMeta(block, serialized).value;
    assert w[..4] == Header(|serialized|);
  }

  /** Writing an empty serialisation reads back as no metadata. */
  lemma EmptyMetaReadsAsNone(block: seq<byte>)
    requires |block| == MetadataSize
    ensures ReadMeta(WriteMeta(block, []).value).None?
  {
    HeaderRoundTrip(0);
    assert WriteMeta(block, []).value[..4] == Header(0);
  }

  /** Through a serialiser whose `loads` inverts `dumps`, a record that fits is read back unchanged. */
  lemma RecordRoundTrip<D>(block: seq<byte>, d: D, dumps: D -> seq<byte>, loads: seq<byte> -> D)
    requires |block| == MetadataSize && 0 < |dumps(d)| <= MetadataSize - 4
    requires loads(dumps(d)) == d
    ensures loads(ReadMeta(WriteMeta(block, dumps(d)).value).value) == d
  {
    MetaRoundTrip(block, dumps(d));
  }
}
