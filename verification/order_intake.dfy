/**
 * Validation of a decoded JSON order payload into an Order
 * (`Order.from_dict`, identical in the Assignment 8 and trading-system order managers).
 */
module OrderIntake {
  import opened Wrappers
  import opened Text

  /** A JSON value as `json.loads` hands it over. */
  datatype Value =
    | JStr(s: string)
    | JInt(i: int)
    | JFloat(x: real, text: string)  // a finite float; `text` is what `str()` prints for it
    | JBool(b: bool)
    | JNull
    | JCompound(text: string)        // a list or object; `text` is what `str()` prints for it

  /** The top-level value of a decoded order frame. */
  datatype Payload =
    | PObject(fields: map<string, Value>)
    | PArray(items: seq<Value>)
    | PText(s: string)
    | PScalar                        // a number, boolean or null

  datatype Side = Buy | Sell

  /** A validated order. */
  datatype Order = Order(side: Side, symbol: string, qty: int, price: real, ts: Option<real>, id: Option<int>)

  /** Why an order payload was not accepted. */
  datatype IntakeError =
    | Rejected(msg: string)   // the ValueError `from_dict` raises with its own message
    | ConversionFailed        // a ValueError from `float()`/`int()` on 'ts' or 'id', carrying Python's own text
    | Crashed                 // a TypeError, which the order managers do not catch

  /** Outcome of Python's `int()` or `float()` on a JSON value. */
  datatype Conv<T> = Converted(v: T) | ValueErr | TypeErr

  function SideText(s: Side): string {
    match s
    case Buy => "BUY"
    case Sell => "SELL"
  }

  /** `str(v)`. */
  function Str(v: Value): string {
    match v
    case JStr(s) => s
    case JInt(i) => IntToString(i)
    case JFloat(_, t) => t
    case JBool(b) => if b then "True" else "False"
    case JNull => "None"
    case JCompound(t) => t
  }

  /** `int(v)`: strings are parsed, floats truncate toward zero, booleans are 0 or 1. */
  function ToInt(v: Value): Conv<int> {
    match v
    case JStr(s) => (match ParseInt(s) case Some(i) => Converted(i) case None => ValueErr)
    case JInt(i) => Converted(i)
    case JFloat(x, _) => Converted(TruncToInt(x))
    case JBool(b) => Converted(if b then 1 else 0)
    case JNull => TypeErr
    case JCompound(_) => TypeErr
  }

  /** `float(v)`. */
  function ToFloat(v: Value): Conv<real> {
    match v
    case JStr(s) => (match ParseFloat(s) case Some(x) => Converted(x) case None => ValueErr)
    case JInt(i) => Converted(i as real)
    case JFloat(x, _) => Converted(x)
    case JBool(b) => Converted(if b then 1.0 else 0.0)
    case JNull => TypeErr
    case JCompound(_) => TypeErr
  }

  const Required: seq<string> := ["side", "symbol", "qty", "price"]

  /** Python's substring test `k in s`. */
  predicate IsInfix(k: string, s: string)
    decreases |s|
  {
    (|k| <= |s| && s[..|k|] == k) || (|s| > 0 && IsInfix(k, s[1..]))
  }

  /** Python's `key in d` for the payload; undefined (a TypeError) for scalars. */
  predicate Has(p: Payload, key: string)
    requires !p.PScalar?
  {
    match p
    case PObject(f) => key in f
    case PArray(items) => JStr(key) in items
    case PText(s) => IsInfix(key, s)
  }

  /** The first required field, in the order the source checks them, that the payload lacks. */
  function FirstMissing(p: Payload, fields: seq<string>): (r: Option<string>)
    requires !p.PScalar?
    ensures r.Some? ==> r.value in fields && !Has(p, r.value)
    ensures r.None? <==> forall i :: 0 <= i < |fields| ==> Has(p, fields[i])
    ensures r.Some? ==> exists i :: (0 <= i < |fields| && fields[i] == r.value &&
      forall j :: 0 <= j < i ==> Has(p, fields[j]))
  {
    if |fields| == 0 then None
    else if !Has(p, fields[0]) then Some(fields[0])
    else
      var r := FirstMissing(p, fields[1..]);
      if r.Some? then
        var i :| 0 <= i < |fields[1..]| && fields[1..][i] == r.value
          && forall j :: 0 <= j < i ==> Has(p, fields[1..][j]);
        assert fields[i + 1] == r.value && forall j :: 0 <= j < i + 1 ==> Has(p, fields[j]);
        r
      else r
  }

  function MissingMessage(field: string): string {
    "Missing field '" + field + "' in order payload"
  }

  predicate AllRequired(d: map<string, Value>) {
    "side" in d && "symbol" in d && "qty" in d && "price" in d
  }

  function UpperSide(d: map<string, Value>): string
    requires AllRequired(d)
  {
    Upper(Str(d["side"]))
  }

  function CleanSymbol(d: map<string, Value>): string
    requires AllRequired(d)
  {
    Strip(Upper(Str(d["symbol"])))
  }

  /** `Order.from_dict`. */
  function FromDict(p: Payload): (r: Result<Order, IntakeError>)
    ensures p.PScalar? ==> r == Err(Crashed)
    ensures !p.PScalar? ==> match FirstMissing(p, Required)
      case Some(f) => r == Err(Rejected(MissingMessage(f)))
      case None => r.Err? || p.PObject?
    ensures r.Ok? ==> WellFormed(r.value)
    ensures r.Err? && r.error.Rejected? ==> |r.error.msg| > 0
  {
    if p.PScalar? then Err(Crashed)
    else match FirstMissing(p, Required)
      case Some(f) => Err(Rejected(MissingMessage(f)))
      case None =>
        if !p.PObject? then Err(Crashed)
        else
          assert Has(p, Required[0]) && Has(p, Required[1]) && Has(p, Required[2]) && Has(p, Required[3]);
          FromFields(p.fields)
  }

  /** What every order `from_dict` returns satisfies. */
  predicate WellFormed(o: Order) {
    CleanShape(o.symbol) && o.qty > 0 && o.price > 0.0
  }

  /** Non-empty, no surrounding whitespace, no lower-case ASCII letter. */
  predicate CleanShape(symbol: string) {
    && |symbol| > 0
    && !IsSpace(symbol[0]) && !IsSpace(symbol[|symbol| - 1])
    && (forall i :: 0 <= i < |symbol| ==> !IsAsciiLower(symbol[i]))
  }

  predicate IsSideWord(s: string) {
    s == "BUY" || s == "SELL"
  }

  lemma CleanSymbolShape(d: map<string, Value>)
    requires AllRequired(d)
    ensures var s := CleanSymbol(d);
      |s| > 0 ==> !IsSpace(s[0]) && !IsSpace(s[|s| - 1]) && forall i :: 0 <= i < |s| ==> !IsAsciiLower(s[i])
  {
    StripOfUpper(Str(d["symbol"]));
  }

  lemma StripOfUpper(x: string)
    ensures forall i :: 0 <= i < |Strip(Upper(x))| ==> !IsAsciiLower(Strip(Upper(x))[i])
  {
    var u := Upper(x);
    var s := Strip(u);
    var off := LeadingSpace(u);
    StripSlice(u);
    forall i | 0 <= i < |s| ensures !IsAsciiLower(s[i]) {
      assert s[i] == u[off + i];
    }
  }

  /** The four validation rules of `from_dict`, applied in order; Err carries the message. */
  function Validated(d: map<string, Value>): (r: Result<(Side, string, int, real), string>)
    requires AllRequired(d)
    ensures r.Ok? ==> SideText(r.value.0) == UpperSide(d) && r.value.1 == CleanSymbol(d)
    ensures r.Ok? ==> CleanShape(r.value.1) && r.value.2 > 0 && r.value.3 > 0.0
    ensures r.Err? ==> |r.error| > 0
  {
    CleanSymbolShape(d);
    CheckFields(UpperSide(d), CleanSymbol(d), ToInt(d["qty"]), ToFloat(d["price"]))
  }

  /** The rules on the upper-cased side, the cleaned symbol and the raw qty and price. */
  function CheckFields(sideWord: string, symbol: string, qty: Conv<int>, price: Conv<real>): (r: Result<(Side, string, int, real), string>)
    ensures r.Ok? ==> SideText(r.value.0) == sideWord && r.value.1 == symbol
    ensures r.Ok? ==> symbol != "" && r.value.2 > 0 && r.value.3 > 0.0
    ensures r.Err? ==> |r.error| > 0
  {
    match SideOf(sideWord)
    case None => Err("side must be BUY or SELL")
    case Some(side) =>
      if |symbol| == 0 then Err("symbol must be non-empty")
      else match QtyRule(qty)
        case Err(m) => Err(m)
        case Ok(q) =>
          match PriceRule(price)
          case Err(m) => Err(m)
          case Ok(x) => Ok((side, symbol, q, x))
  }

  /** The side named by an upper-cased word, if it is "BUY" or "SELL". */
  function SideOf(word: string): (r: Option<Side>)
    ensures r.Some? <==> IsSideWord(word)
    ensures r.Some? ==> SideText(r.value) == word
  {
    if word == "BUY" then Some(Buy) else if word == "SELL" then Some(Sell) else None
  }

  /** The qty rule on the outcome of `int(d["qty"])`. */
  function QtyRule(c: Conv<int>): (r: Result<int, string>)
    ensures r.Ok? ==> r.value > 0
    ensures r.Err? ==> |r.error| > 0
  {
    match c
    case Converted(q) => if q <= 0 then Err("qty must be > 0") else Ok(q)
    case _ => Err("qty must be an integer")
  }

  /** The price rule on the outcome of `float(d["price"])`. */
  function PriceRule(c: Conv<real>): (r: Result<real, string>)
    ensures r.Ok? ==> r.value > 0.0
    ensures r.Err? ==> |r.error| > 0
  {
    match c
    case Converted(x) => if x <= 0.0 then Err("price must be > 0") else Ok(x)
    case _ => Err("price must be a float")
  }

  /** `from_dict` once all four required keys are known to be present. */
  function FromFields(d: map<string, Value>): (r: Result<Order, IntakeError>)
    requires AllRequired(d)
    ensures r.Ok? ==> WellFormed(r.value)
    ensures r.Ok? ==> (r.value.ts.Some? <==> "ts" in d) && (r.value.id.Some? <==> "id" in d)
    ensures r.Ok? ==> SideText(r.value.side) == UpperSide(d) && r.value.symbol == CleanSymbol(d)
    ensures r.Err? && r.error.Rejected? ==> |r.error.msg| > 0
  {
    match Validated(d)
    case Err(m) => Err(Rejected(m))
    case Ok(v) => Finish(v, OptionalFloat(d), OptionalInt(d))
  }

  /** The order from validated fields and the conversions of 'ts' and 'id'; a failed conversion is never a rejection. */
  function Finish(v: (Side, string, int, real), ts: Conv<Option<real>>, id: Conv<Option<int>>): (r: Result<Order, IntakeError>)
    ensures r.Ok? <==> ts.Converted? && id.Converted?
    ensures r.Ok? ==> r.value == Order(v.0, v.1, v.2, v.3, ts.v, id.v)
    ensures r.Err? ==> !r.error.Rejected?
    ensures r == Err(Crashed) <==> ts.TypeErr? || (ts.Converted? && id.TypeErr?)
  {
    match ts
    case ValueErr => Err(ConversionFailed)
    case TypeErr => Err(Crashed)
    case Converted(t) =>
      match id
      case ValueErr => Err(ConversionFailed)
      case TypeErr => Err(Crashed)
      case Converted(i) => Ok(Order(v.0, v.1, v.2, v.3, t, i))
  }

  /** `None if "ts" not in d else float(d["ts"])`. */
  function OptionalFloat(d: map<string, Value>): (r: Conv<Option<real>>)
    ensures r.Converted? ==> (r.v.Some? <==> "ts" in d)
  {
    if "ts" !in d then Converted(None)
    else match ToFloat(d["ts"])
      case Converted(x) => Converted(Some(x))
      case ValueErr => ValueErr
      case TypeErr => TypeErr
  }

  /** `None if "id" not in d else int(d["id"])`. */
  function OptionalInt(d: map<string, Value>): (r: Conv<Option<int>>)
    ensures r.Converted? ==> (r.v.Some? <==> "id" in d)
  {
    if "id" !in d then Converted(None)
    else match ToInt(d["id"])
      case Converted(x) => Converted(Some(x))
      case ValueErr => ValueErr
      case TypeErr => TypeErr
  }

  /**
   * Reference definition: the messages of every validation rule the fields break,
   * each rule judged on its own, listed in the order the source checks them.
   */
  function Violations(d: map<string, Value>): seq<string>
    requires AllRequired(d)
  {
    ViolationsOf(UpperSide(d), CleanSymbol(d), ToInt(d["qty"]), ToFloat(d["price"]))
  }

  function ViolationsOf(sideWord: string, symbol: string, qty: Conv<int>, price: Conv<real>): seq<string> {
    (if SideOf(sideWord).None? then ["side must be BUY or SELL"] else [])
    + (if |symbol| == 0 then ["symbol must be non-empty"] else [])
    + (if !qty.Converted? then ["qty must be an integer"]
       else if qty.v <= 0 then ["qty must be > 0"] else [])
    + (if !price.Converted? then ["price must be a float"]
       else if price.v <= 0.0 then ["price must be > 0"] else [])
  }

  /** `from_dict` raises its own ValueError exactly when some rule is broken, naming the first one. */
  lemma FirstViolationReported(d: map<string, Value>)
    requires AllRequired(d)
    ensures FromFields(d).Err? && FromFields(d).error.Rejected? <==> |Violations(d)| > 0
    ensures |Violations(d)| > 0 ==> FromFields(d) == Err(Rejected(Violations(d)[0]))
  {
    ValidatedIsFirstViolation(d);
    RejectedIffInvalid(d);
  }

  /** Only the four rules produce a rejection; the conversions of 'ts' and 'id' fail differently. */
  lemma RejectedIffInvalid(d: map<string, Value>)
    requires AllRequired(d)
    ensures FromFields(d).Err? && FromFields(d).error.Rejected? <==> Validated(d).Err?
    ensures Validated(d).Err? ==> FromFields(d) == Err(Rejected(Validated(d).error))
  {
  }

  lemma ValidatedIsFirstViolation(d: map<string, Value>)
    requires AllRequired(d)
    ensures Validated(d).Err? <==> |Violations(d)| > 0
    ensures Validated(d).Err? ==> Validated(d).error == Violations(d)[0]
  {
    CheckIsFirstViolation(UpperSide(d), CleanSymbol(d), ToInt(d["qty"]), ToFloat(d["price"]));
  }

  lemma CheckIsFirstViolation(sideWord: string, symbol: string, qty: Conv<int>, price: Conv<real>)
    ensures CheckFields(sideWord, symbol, qty, price).Err? <==> |ViolationsOf(sideWord, symbol, qty, price)| > 0
    ensures CheckFields(sideWord, symbol, qty, price).Err? ==>
      CheckFields(sideWord, symbol, qty, price).error == ViolationsOf(sideWord, symbol, qty, price)[0]
  {
  }

  /**
   * The quantity and price are read as `int()` and `float()` read them: the payload
   * {"side": "BUY", "symbol": "AAPL", "qty": "1_000", "price": "1e2"} is the order
   * BUY 1000 AAPL at 100.0, with no timestamp and no id.
   */
  lemma LiteralFormsAccepted(symbol: string, qty: string, price: string)
    requires symbol == "AAPL" && qty == "1_000" && price == "1e2"
    ensures FromDict(PObject(map["side" := JStr("BUY"), "symbol" := JStr(symbol), "qty" := JStr(qty), "price" := JStr(price)]))
      == Ok(Order(Buy, symbol, 1000, 100.0, None, None))
  {
    var d := map["side" := JStr("BUY"), "symbol" := JStr(symbol), "qty" := JStr(qty), "price" := JStr(price)];
    assert "ts" !in d && "id" !in d;
    assert UpperSide(d) == "BUY" by {
      assert Upper("BUY") == "BUY";
    }
    assert CleanSymbol(d) == symbol by {
      assert Upper(symbol) == symbol;
      StripNoSpace(symbol);
    }
    assert ToInt(d["qty"]) == Converted(1000) by {
      IntLiteralExamples(qty);
    }
    assert ToFloat(d["price"]) == Converted(100.0) by {
      FloatLiteralExamples(price);
    }
    assert Validated(d) == Ok((Buy, symbol, 1000, 100.0));
    assert FromFields(d) == Ok(Order(Buy, symbol, 1000, 100.0, None, None));
    assert FirstMissing(PObject(d), Required) == None;
  }

  /** With every rule satisfied, the result depends only on the optional 'ts' and 'id' fields. */
  lemma OptionalFieldsDecide(d: map<string, Value>)
    requires AllRequired(d) && Violations(d) == []
    ensures Validated(d).Ok?
    ensures FromFields(d).Ok? <==> OptionalFloat(d).Converted? && OptionalInt(d).Converted?
    ensures FromFields(d) == Err(Crashed) <==>
      OptionalFloat(d).TypeErr? || (OptionalFloat(d).Converted? && OptionalInt(d).TypeErr?)
  {
    ValidatedIsFirstViolation(d);
  }
}
